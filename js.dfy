/**
 * The parts of JavaScript's value semantics that the generation core relies on:
 * 32-bit truncation (`x | 0`, `x >>> 0`) with the number conversion before it, truthiness, `typeof`,
 * `parseInt(s, 10)`, `String(n)` for integers, `trim()`, `toLowerCase()` and `Array.prototype.join`.
 * Integral numbers are mathematical integers; a finite number with a fractional part is
 * known by its truncation toward zero, which is all the core ever reads of one.
 */
module Js {
  import opened Wrappers

  const TWO_32: int := 0x1_0000_0000
  const INT32_MIN: int := -0x8000_0000
  const INT32_MAX: int := 0x7fff_ffff

  function Abs(x: int): nat {
    if x < 0 then -x else x
  }

  function Max(x: int, y: int): int {
    if x < y then y else x
  }

  /** ToUint32 of an integral number (`x >>> 0`): reduction modulo 2^32. */
  function ToUint32(x: int): (r: nat)
    ensures r < TWO_32
    ensures (x - r) % TWO_32 == 0
    ensures 0 <= x < TWO_32 ==> r == x
  {
    x % TWO_32
  }

  /** ToInt32 of an integral number (`x | 0`): the signed reading of the low 32 bits. */
  function ToInt32(x: int): (r: int)
    ensures INT32_MIN <= r <= INT32_MAX
    ensures (x - r) % TWO_32 == 0
    ensures INT32_MIN <= x <= INT32_MAX ==> r == x
  {
    var u := x % TWO_32;
    if u > INT32_MAX then u - TWO_32 else u
  }

  /** A JavaScript value, as far as the core inspects one. */
  datatype JsValue =
    | Undefined
    | Null
    | Boolean(b: bool)
    | Number(n: int)
      /**
       * A finite number that is not an integer, known by its truncation toward zero: the
       * core only truncates numbers (`| 0`, `>>> 0`) or compares them with integers, which
       * such a number never equals.
       */
    | Fractional(trunc: int)
    | NaN
    | Infinity(negative: bool)
    | Str(s: string)
    | Array(items: seq<JsValue>)
    | Object(fields: map<string, JsValue>)

  /** JavaScript truthiness (`if (v)`, `!v`, `v || w`). */
  predicate Truthy(v: JsValue) {
    match v
    case Undefined => false
    case Null => false
    case Boolean(b) => b
    case Number(n) => n != 0
    case Fractional(_) => true
    case NaN => false
    case Infinity(_) => true
    case Str(s) => s != ""
    case Array(_) => true
    case Object(_) => true
  }

  /** `typeof v === "number"`. */
  predicate IsNumberType(v: JsValue) {
    v.Number? || v.Fractional? || v.NaN? || v.Infinity?
  }

  /** `typeof v === "object"` (which includes `null` and arrays). */
  predicate IsObjectType(v: JsValue) {
    v.Null? || v.Array? || v.Object?
  }

  /** Property read `v.key` on an object or array: a missing property reads as undefined. */
  function Field(v: JsValue, key: string): JsValue {
    if v.Object? && key in v.fields then v.fields[key] else Undefined
  }

  /**
   * ToNumber followed by truncation toward zero, which `| 0` and `>>> 0` both begin with;
   * `None` stands for NaN and the infinities, which both conversions map to 0. An object
   * converts through its text: `String([x])` is `String(x)` ("" for undefined and null),
   * and an array of two or more elements joins to a text with a comma, which is never a
   * numeral.
   */
  function ToFiniteInteger(v: JsValue): Option<int> {
    match v
    case Undefined => None
    case Null => Some(0)
    case Boolean(b) => Some(if b then 1 else 0)
    case Number(n) => Some(n)
    case Fractional(t) => Some(t)
    case NaN => None
    case Infinity(_) => None
    case Str(s) => StringToInteger(s)
    case Array(items) =>
      if |items| == 0 then Some(0)
      else if |items| > 1 then None
      else
        (match items[0]
         case Undefined => Some(0)
         case Boolean(_) => None
         case _ => ToFiniteInteger(items[0]))
    case Object(_) => None
  }

  /** `v | 0`. */
  function ToInt32Value(v: JsValue): (r: int)
    ensures INT32_MIN <= r <= INT32_MAX
  {
    match ToFiniteInteger(v)
    case None => 0
    case Some(n) => ToInt32(n)
  }

  /** `v >>> 0`. */
  function ToUint32Value(v: JsValue): (r: nat)
    ensures r < TWO_32
  {
    match ToFiniteInteger(v)
    case None => 0
    case Some(n) => ToUint32(n)
  }

  /** WhiteSpace and LineTerminator code points: what `trim()` strips and `\s` matches. */
  predicate IsSpace(c: char) {
    c == '\t' || c == '\n' || c == '\U{B}' || c == '\U{C}' || c == '\r' || c == ' '
    || c == '\U{A0}' || c == '\U{1680}' || ('\U{2000}' <= c <= '\U{200A}')
    || c == '\U{2028}' || c == '\U{2029}' || c == '\U{202F}' || c == '\U{205F}'
    || c == '\U{3000}' || c == '\U{FEFF}'
  }

  function TrimStart(s: string): (r: string)
    ensures |r| <= |s| && r == s[|s| - |r|..]
    ensures r == [] || !IsSpace(r[0])
  {
    if |s| > 0 && IsSpace(s[0]) then TrimStart(s[1..]) else s
  }

  function TrimEnd(s: string): (r: string)
    ensures |r| <= |s| && r == s[..|r|]
    ensures r == [] || !IsSpace(r[|r| - 1])
  {
    if |s| > 0 && IsSpace(s[|s| - 1]) then TrimEnd(s[..|s| - 1]) else s
  }

  /** `s.trim()`. */
  function Trim(s: string): string {
    TrimEnd(TrimStart(s))
  }

  /** One step of `TrimStart`: a leading white space character is dropped. */
  lemma TrimStartSkip(s: string)
    requires |s| > 0 && IsSpace(s[0])
    ensures TrimStart(s) == TrimStart(s[1..])
  {
  }

  lemma TrimStartStop(s: string)
    requires |s| == 0 || !IsSpace(s[0])
    ensures TrimStart(s) == s
  {
  }

  /** One step of `TrimEnd`: a trailing white space character is dropped. */
  lemma TrimEndSkip(s: string)
    requires |s| > 0 && IsSpace(s[|s| - 1])
    ensures TrimEnd(s) == TrimEnd(s[..|s| - 1])
  {
  }

  lemma TrimEndStop(s: string)
    requires |s| == 0 || !IsSpace(s[|s| - 1])
    ensures TrimEnd(s) == s
  {
  }

  predicate IsDigit(c: char) {
    '0' <= c <= '9'
  }

  predicate AllDigits(s: string) {
    forall i :: 0 <= i < |s| ==> IsDigit(s[i])
  }

  function DigitChar(d: nat): char
    requires d < 10
  {
    "0123456789"[d]
  }

  function DigitValue(c: char): nat
    requires IsDigit(c)
  {
    (c as int) - ('0' as int)
  }

  /** The length of the longest prefix of `s` made of decimal digits. */
  function DigitPrefixLen(s: string): (k: nat)
    ensures k <= |s| && AllDigits(s[..k])
    ensures k < |s| ==> !IsDigit(s[k])
  {
    if |s| > 0 && IsDigit(s[0]) then 1 + DigitPrefixLen(s[1..]) else 0
  }

  /** A string with no decimal digit in it. */
  predicate NoDigits(s: string) {
    forall i :: 0 <= i < |s| ==> !IsDigit(s[i])
  }

  lemma NoDigitsSuffix(s: string, r: string)
    requires NoDigits(s) && |r| <= |s| && r == s[|s| - |r|..]
    ensures NoDigits(r)
  {
  }

  lemma NoDigitsPrefix(s: string, r: string)
    requires NoDigits(s) && |r| <= |s| && r == s[..|r|]
    ensures NoDigits(r)
  {
  }

  lemma NoDigitPrefix(s: string)
    requires NoDigits(s)
    ensures DigitPrefixLen(s) == 0
  {
    if |s| > 0 {
      assert !IsDigit(s[0]);
    }
  }

  /** The value of a decimal numeral, most significant digit first. */
  function DigitsValue(ds: string): nat
    requires AllDigits(ds)
  {
    if |ds| == 0 then 0 else DigitsValue(ds[..|ds| - 1]) * 10 + DigitValue(ds[|ds| - 1])
  }

  /** Splits an optional leading sign off `s`: (is it negative, the rest). */
  function SplitSign(s: string): (bool, string) {
    if |s| > 0 && (s[0] == '-' || s[0] == '+') then (s[0] == '-', s[1..]) else (false, s)
  }

  /**
   * `parseInt(s, 10)`: skip leading white space, read an optional sign and the longest
   * run of decimal digits after it; `None` (NaN) when there is no digit. The value is the exact
   * integer, so "-0" reads as 0 and long digit runs are not rounded to a double.
   */
  function ParseInt(s: string): (r: Option<int>)
    ensures r.None? <==> DigitPrefixLen(SplitSign(TrimStart(s)).1) == 0
  {
    var (negative, rest) := SplitSign(TrimStart(s));
    var k := DigitPrefixLen(rest);
    if k == 0 then None
    else
      var v: int := DigitsValue(rest[..k]);
      Some(if negative then -v else v)
  }

  /** `parseInt` of a string without digits is NaN. */
  lemma ParseIntWithoutDigits(s: string)
    requires NoDigits(s)
    ensures ParseInt(s) == None
  {
    var b := TrimStart(s);
    NoDigitsSuffix(s, b);
    var rest := SplitSign(b).1;
    NoDigitsSuffix(b, rest);
    NoDigitPrefix(rest);
  }

  /** The value of `c` as a hexadecimal digit, and 16 when it is none. */
  function HexDigitValue(c: char): (v: nat)
    ensures v <= 16
    ensures IsDigit(c) ==> v == DigitValue(c)
  {
    if '0' <= c <= '9' then c as int - '0' as int
    else if 'a' <= c <= 'f' then c as int - 'a' as int + 10
    else if 'A' <= c <= 'F' then c as int - 'A' as int + 10
    else 16
  }

  predicate AllDigitsIn(s: string, radix: nat) {
    forall i :: 0 <= i < |s| ==> HexDigitValue(s[i]) < radix
  }

  /** The value of a numeral in base `radix`, most significant digit first. */
  function RadixValue(ds: string, radix: nat): nat
    requires AllDigitsIn(ds, radix)
  {
    if |ds| == 0 then 0 else RadixValue(ds[..|ds| - 1], radix) * radix + HexDigitValue(ds[|ds| - 1])
  }

  /** The base that the letter after a leading `0` selects (`0x`, `0o`, `0b`, in either case), else 0. */
  function RadixOf(c: char): nat {
    if c == 'x' || c == 'X' then 16
    else if c == 'o' || c == 'O' then 8
    else if c == 'b' || c == 'B' then 2
    else 0
  }

  /** `m × 10^e` truncated toward zero, for `m >= 0`. */
  function ScaleByPow10(m: int, e: int): int {
    if e >= 0 then m * Pow10(e) else m / Pow10(-e)
  }

  /** An optional exponent part: nothing (0), or `e`/`E`, an optional sign and digits. */
  function ExponentPart(s: string): Option<int> {
    if s == [] then Some(0)
    else if s[0] == 'e' || s[0] == 'E' then
      var (negative, ds) := SplitSign(s[1..]);
      if ds != [] && AllDigits(ds) then
        var v: int := DigitsValue(ds);
        Some(if negative then -v else v)
      else None
    else None
  }

  /**
   * The parts of a decimal literal: the digits before the point, the digits after it (none
   * without a point) and the text that follows them.
   */
  function DecimalParts(s: string): (p: (string, string, string))
    ensures AllDigits(p.0) && AllDigits(p.1)
  {
    var k := DigitPrefixLen(s);
    var afterWhole := s[k..];
    if |afterWhole| > 0 && afterWhole[0] == '.' then
      var afterPoint := afterWhole[1..];
      var f := DigitPrefixLen(afterPoint);
      (s[..k], afterPoint[..f], afterPoint[f..])
    else (s[..k], [], afterWhole)
  }

  /**
   * An unsigned decimal literal, `digits`, `digits.`, `digits.digits` or `.digits`, with an
   * optional exponent part, truncated toward zero; `None` for any other text ("Infinity"
   * among them).
   */
  function UnsignedDecimal(s: string): Option<int> {
    var (whole, fraction, tail) := DecimalParts(s);
    if whole == [] && fraction == [] then None
    else
      match ExponentPart(tail)
      case None => None
      case Some(e) =>
        assert AllDigits(whole + fraction);
        Some(ScaleByPow10(DigitsValue(whole + fraction), e - |fraction|))
  }

  /**
   * `Number(s)` for a string, truncated toward zero, with `None` for NaN and the
   * infinities: blank text is 0; `0x`, `0o` and `0b` literals are unsigned; a decimal
   * literal may carry a sign, a fraction and an exponent; white space around is ignored.
   */
  function StringToInteger(s: string): Option<int> {
    var t := Trim(s);
    if t == [] then Some(0)
    else if |t| > 2 && t[0] == '0' && RadixOf(t[1]) != 0 then
      if AllDigitsIn(t[2..], RadixOf(t[1])) then Some(RadixValue(t[2..], RadixOf(t[1]))) else None
    else
      var (negative, rest) := SplitSign(t);
      match UnsignedDecimal(rest)
      case None => None
      case Some(v) => Some(if negative then -v else v)
  }

  /** `String(n)` for a natural number below 10^21: its decimal numeral. */
  function NatToString(n: nat): (r: string)
    ensures |r| >= 1 && AllDigits(r)
  {
    if n < 10 then [DigitChar(n)] else NatToString(n / 10) + [DigitChar(n % 10)]
  }

  function Pow10(k: nat): (p: nat)
    ensures p >= 1
  {
    if k == 0 then 1 else 10 * Pow10(k - 1)
  }

  /** The numeral of a number with `k` decimal digits has `k` characters. */
  lemma {:induction false} NumeralLength(n: nat, k: nat)
    requires k >= 1 && (k == 1 || Pow10(k - 1) <= n) && n < Pow10(k)
    ensures |NatToString(n)| == k
    decreases k
  {
    if k > 1 {
      assert n >= 10;
      NumeralLength(n / 10, k - 1);
    }
  }

  /** `String(n)` for an integer. */
  function IntToString(n: int): string {
    if n < 0 then "-" + NatToString(-n) else NatToString(n)
  }

  lemma DigitIsNotSpace(c: char)
    requires IsDigit(c)
    ensures !IsSpace(c)
  {
  }

  lemma {:induction false} DigitsValueOfNatToString(n: nat)
    ensures DigitsValue(NatToString(n)) == n
  {
    var r := NatToString(n);
    if n >= 10 {
      DigitsValueOfNatToString(n / 10);
      assert r[..|r| - 1] == NatToString(n / 10);
    }
  }

  lemma {:induction false} DigitPrefixOfDigits(s: string)
    requires AllDigits(s)
    ensures DigitPrefixLen(s) == |s|
  {
    if |s| > 0 {
      DigitPrefixOfDigits(s[1..]);
    }
  }

  /** `parseInt(String(n), 10) == n`: a stored decimal numeral reads back as the same number. */
  lemma ParseIntOfNatToString(n: nat)
    ensures ParseInt(NatToString(n)) == Some(n)
  {
    var s := NatToString(n);
    DigitIsNotSpace(s[0]);
    assert TrimStart(s) == s;
    assert SplitSign(s) == (false, s);
    DigitPrefixOfDigits(s);
    assert s[..|s|] == s;
    DigitsValueOfNatToString(n);
  }

  /** `Number(String(n)) == n`: the numeral of an integer converts back to it. */
  lemma {:induction false} StringToIntegerOfIntToString(n: int)
    ensures StringToInteger(IntToString(n)) == Some(n)
  {
    if n >= 0 {
      NonNegativeNumeral(n);
    } else {
      NegativeNumeral(n);
    }
  }

  /** The two signs of `StringToIntegerOfIntToString`, each on its own. */
  lemma {:induction false} NonNegativeNumeral(n: int)
    requires n >= 0
    ensures StringToInteger(IntToString(n)) == Some(n)
  {
    var k: nat := n;
    assert IntToString(n) == NatToString(k);
    NatNumeral(k);
  }

  lemma {:induction false} NegativeNumeral(n: int)
    requires n < 0
    ensures StringToInteger(IntToString(n)) == Some(n)
  {
    var k: nat := -n;
    assert IntToString(n) == "-" + NatToString(k);
    NatNumeral(k);
    NegativeLiteral(NatToString(k), k);
  }

  /** The numeral of a natural number is a decimal literal worth that number. */
  lemma {:induction false} NatNumeral(k: nat)
    ensures UnsignedDecimal(NatToString(k)) == Some(k)
    ensures StringToInteger(NatToString(k)) == Some(k)
    ensures !IsSpace(NatToString(k)[|NatToString(k)| - 1])
  {
    var d := NatToString(k);
    UnsignedDecimalOfDigits(d);
    DigitsValueOfNatToString(k);
    DigitIsNotSpace(d[|d| - 1]);
    if |d| > 1 {
      assert IsDigit(d[1]);
    }
    UnsignedLiteral(d);
  }

  /** A minus sign before a decimal literal negates its value. */
  lemma {:induction false} NegativeLiteral(d: string, v: int)
    requires d != [] && !IsSpace(d[|d| - 1]) && UnsignedDecimal(d) == Some(v)
    ensures StringToInteger("-" + d) == Some(-v)
  {
    var t := "-" + d;
    assert t[1..] == d;
    assert t[|t| - 1] == d[|d| - 1];
    TrimStartStop(t);
    TrimEndStop(t);
  }

  /** A plain run of digits is a decimal literal worth its digits. */
  lemma UnsignedDecimalOfDigits(d: string)
    requires d != [] && AllDigits(d)
    ensures UnsignedDecimal(d) == Some(DigitsValue(d))
  {
    DigitPrefixOfDigits(d);
    assert d[..|d|] == d;
    assert DecimalParts(d) == (d, [], []);
    assert d + [] == d;
  }

  /** The arithmetic of appending one digit `c` to a numeral of value `y` below `p`. */
  lemma AppendDigit(x: nat, y: nat, p: nat, c: nat)
    requires y < p && c < 10
    ensures (x * p + y) * 10 + c == x * (10 * p) + (y * 10 + c)
    ensures y * 10 + c < 10 * p
  {
    assert (x * p + y) * 10 == x * (10 * p) + y * 10;
    assert y * 10 <= (p - 1) * 10;
  }

  /** Appending digits: the value shifts by their count and adds theirs. */
  lemma {:induction false} DigitsValueAppend(a: string, b: string)
    requires AllDigits(a) && AllDigits(b)
    ensures AllDigits(a + b)
    ensures DigitsValue(a + b) == DigitsValue(a) * Pow10(|b|) + DigitsValue(b)
    ensures DigitsValue(b) < Pow10(|b|)
    decreases |b|
  {
    var ab := a + b;
    if |b| > 0 {
      var b' := b[..|b| - 1];
      assert ab[..|ab| - 1] == a + b';
      DigitsValueAppend(a, b');
      var c := DigitValue(b[|b| - 1]);
      assert DigitsValue(ab) == DigitsValue(a + b') * 10 + c;
      assert DigitsValue(b) == DigitsValue(b') * 10 + c;
      AppendDigit(DigitsValue(a), DigitsValue(b'), Pow10(|b'|), c);
    } else {
      assert ab == a;
    }
  }

  /** Dropping the low digits `y < p` of `x * p + y`. */
  lemma DropLowDigits(x: nat, y: nat, p: nat)
    requires y < p
    ensures (x * p + y) / p == x
  {
    var n := x * p + y;
    var q := n / p;
    assert n == q * p + n % p && 0 <= n % p < p;
    if q > x {
      assert (x + 1) * p == x * p + p;
      MultiplyMonotone(x + 1, q, p);
    } else if q < x {
      assert (q + 1) * p == q * p + p;
      MultiplyMonotone(q + 1, x, p);
    }
  }

  /** Scaling `x * 10^k + y`, with `y < 10^k`, by `10^-k` leaves `x`. */
  lemma ScaleDropsLowDigits(m: int, x: nat, y: nat, k: nat)
    requires m == x * Pow10(k) + y && y < Pow10(k)
    ensures ScaleByPow10(m, -(k as int)) == x
  {
    DropLowDigits(x, y, Pow10(k));
  }

  lemma MultiplyNonnegative(x: int, y: int)
    requires x >= 0 && y >= 0
    ensures x * y >= 0
  {
  }

  lemma MultiplyMonotone(x: int, y: int, p: int)
    requires x <= y && p >= 0
    ensures x * p <= y * p && p * x <= p * y
  {
    MultiplyNonnegative(y - x, p);
    assert (y - x) * p == y * p - x * p;
  }

  /** The literal `w.f` is worth its whole part once truncated. */
  lemma UnsignedDecimalFraction(w: string, f: string)
    requires w != [] && AllDigits(w) && AllDigits(f)
    ensures UnsignedDecimal(w + "." + f) == Some(DigitsValue(w))
  {
    PartsOfFraction(w, f);
    assert ExponentPart([]) == Some(0);
    UnsignedDecimalOfParts(w + "." + f, w, f, [], 0);
    DigitsValueAppend(w, f);
    ScaleDropsLowDigits(DigitsValue(w + f), DigitsValue(w), DigitsValue(f), |f|);
  }

  /** A literal is its digits scaled by its exponent less the fraction's length. */
  lemma UnsignedDecimalOfParts(s: string, w: string, f: string, tail: string, e: int)
    requires DecimalParts(s) == (w, f, tail) && w != [] && ExponentPart(tail) == Some(e)
    ensures AllDigits(w + f)
    ensures UnsignedDecimal(s) == Some(ScaleByPow10(DigitsValue(w + f), e - |f|))
  {
  }

  lemma PartsOfFraction(w: string, f: string)
    requires AllDigits(w) && AllDigits(f)
    ensures DecimalParts(w + "." + f) == (w, f, [])
  {
    var rest := "." + f;
    assert w + "." + f == w + rest;
    WholeDigits(w, rest);
    assert rest[1..] == f;
    DigitPrefixOfDigits(f);
    assert f[..|f|] == f && f[|f|..] == [];
  }

  /** The leading digits of `w + rest`, when `rest` does not start with a digit, are `w`. */
  lemma WholeDigits(w: string, rest: string)
    requires AllDigits(w) && rest != [] && !IsDigit(rest[0])
    ensures DigitPrefixLen(w + rest) == |w|
    ensures (w + rest)[..|w|] == w && (w + rest)[|w|..] == rest
  {
    PrefixOfDigitsThenOther(w, rest);
  }

  /**
   * `Number(w + "." + f) | 0` keeps the whole part: a decimal fraction is dropped, as
   * truncation toward zero does.
   */
  lemma FractionTruncates(w: string, f: string)
    requires w != [] && AllDigits(w) && AllDigits(f)
    ensures StringToInteger(w + "." + f) == Some(DigitsValue(w))
  {
    var t := w + "." + f;
    if f == [] {
      assert t[|t| - 1] == '.';
    } else {
      DigitIsNotSpace(t[|t| - 1]);
    }
    if |t| > 1 {
      assert IsDigit(t[1]) || t[1] == '.';
      NotRadixLetter(t[1]);
    }
    UnsignedLiteral(t);
    UnsignedDecimalFraction(w, f);
  }

  /** Text that starts with a digit, ends without white space and has no radix prefix is a decimal literal. */
  lemma UnsignedLiteral(t: string)
    requires t != [] && IsDigit(t[0]) && !IsSpace(t[|t| - 1])
    requires |t| > 1 ==> RadixOf(t[1]) == 0
    ensures StringToInteger(t) == UnsignedDecimal(t)
  {
    DigitIsNotSpace(t[0]);
    TrimStartStop(t);
    TrimEndStop(t);
    assert Trim(t) == t;
    assert SplitSign(t) == (false, t);
    assert |t| > 2 && t[0] == '0' ==> RadixOf(t[1]) == 0;
  }

  lemma NotRadixLetter(c: char)
    requires IsDigit(c) || c == '.' || c == 'e'
    ensures RadixOf(c) == 0
  {
  }

  lemma {:induction false} PrefixOfDigitsThenOther(w: string, rest: string)
    requires AllDigits(w) && rest != [] && !IsDigit(rest[0])
    ensures DigitPrefixLen(w + rest) == |w|
  {
    if |w| > 0 {
      assert (w + rest)[1..] == w[1..] + rest;
      PrefixOfDigitsThenOther(w[1..], rest);
    }
  }

  /** `Number(w + "e" + k)` is `w` followed by `k` zeros. */
  lemma ExponentScales(w: string, k: nat)
    requires w != [] && AllDigits(w)
    ensures StringToInteger(w + "e" + NatToString(k)) == Some(DigitsValue(w) * Pow10(k))
  {
    var d := NatToString(k);
    DigitsValueOfNatToString(k);
    ExponentDigits(w, d);
  }

  /** A whole number with an exponent of plain digits. */
  lemma ExponentDigits(w: string, d: string)
    requires w != [] && AllDigits(w) && d != [] && AllDigits(d)
    ensures StringToInteger(w + "e" + d) == Some(DigitsValue(w) * Pow10(DigitsValue(d)))
  {
    var t := w + "e" + d;
    var v := DigitsValue(d);
    PartsOfExponent(w, d);
    ExponentOfDigits(d);
    UnsignedDecimalOfParts(t, w, [], "e" + d, v);
    assert w + [] == w;
    DigitIsNotSpace(d[|d| - 1]);
    assert t[|t| - 1] == d[|d| - 1];
    if |t| > 1 {
      assert IsDigit(t[1]) || t[1] == 'e';
      NotRadixLetter(t[1]);
    }
    UnsignedLiteral(t);
  }

  lemma PartsOfExponent(w: string, d: string)
    requires AllDigits(w)
    ensures DecimalParts(w + "e" + d) == (w, [], "e" + d)
  {
    var rest := "e" + d;
    assert w + "e" + d == w + rest;
    WholeDigits(w, rest);
  }

  lemma ExponentOfDigits(d: string)
    requires d != [] && AllDigits(d)
    ensures ExponentPart("e" + d) == Some(DigitsValue(d))
  {
    assert ("e" + d)[1..] == d;
    assert SplitSign(d) == (false, d);
  }

  /** `"12.5" | 0` is 12. */
  lemma FractionExample()
    ensures ToInt32Value(Str("12.5")) == 12
  {
    assert DigitsValue("12") == 12 by {
      assert "12"[..1] == "1" && "1"[..0] == "";
    }
    assert StringToInteger("12.5") == Some(12) by {
      assert "12.5" == "12" + "." + "5";
      FractionTruncates("12", "5");
    }
  }

  /** `"0x" + ds`, `"0o" + ds` and `"0b" + ds` read `ds` in base 16, 8 and 2. */
  lemma RadixLiteral(c: char, ds: string)
    requires RadixOf(c) != 0 && ds != [] && AllDigitsIn(ds, RadixOf(c))
    ensures StringToInteger("0" + [c] + ds) == Some(RadixValue(ds, RadixOf(c)))
  {
    var t := "0" + [c] + ds;
    var last := ds[|ds| - 1];
    assert HexDigitValue(last) < 16;
    assert t[|t| - 1] == last;
    assert t[1] == c && t[2..] == ds;
    RadixText(t);
  }

  /** A text that starts with a radix prefix and has no white space at its end. */
  lemma RadixText(t: string)
    requires |t| > 2 && t[0] == '0' && RadixOf(t[1]) != 0 && !IsSpace(t[|t| - 1])
    ensures StringToInteger(t) ==
      if AllDigitsIn(t[2..], RadixOf(t[1])) then Some(RadixValue(t[2..], RadixOf(t[1]))) else None
  {
    TrimStartStop(t);
    TrimEndStop(t);
  }

  /** A sign before a radix prefix makes NaN: `"-0x10" >>> 0` is 0. */
  lemma SignedRadixIsNaN(c: char, ds: string)
    requires RadixOf(c) != 0 && (ds == [] || !IsSpace(ds[|ds| - 1]))
    ensures StringToInteger("-0" + [c] + ds) == None
  {
    var u := "0" + ([c] + ds);
    var t := "-" + u;
    assert t == "-0" + [c] + ds;
    assert Trim(t) == t by {
      TrimStartStop(t);
      assert t[|t| - 1] == if ds == [] then c else ds[|ds| - 1];
      TrimEndStop(t);
    }
    assert SplitSign(t) == (true, u) by {
      assert t[1..] == u;
    }
    assert UnsignedDecimal(u) == None by {
      RadixLetterIsNotDecimal(c, ds);
    }
  }

  /** `0x…`, `0o…` and `0b…` are not decimal literals. */
  lemma RadixLetterIsNotDecimal(c: char, ds: string)
    requires RadixOf(c) != 0
    ensures UnsignedDecimal("0" + ([c] + ds)) == None
  {
    WholeDigits("0", [c] + ds);
    assert DecimalParts("0" + ([c] + ds)) == ("0", [], [c] + ds);
    assert ExponentPart([c] + ds) == None;
  }

  /**
   * A one-element array converts as its element's text: `[n] | 0` is `n | 0`, and
   * `[String(n)] | 0` too.
   */
  lemma SingletonArray(n: int)
    ensures ToInt32Value(Array([Number(n)])) == ToInt32(n)
    ensures ToInt32Value(Array([Str(IntToString(n))])) == ToInt32(n)
  {
    assert ToFiniteInteger(Number(n)) == Some(n);
    assert ToFiniteInteger(Array([Number(n)])) == Some(n);
    var t := IntToString(n);
    assert ToFiniteInteger(Array([Str(t)])) == StringToInteger(t);
    StringToIntegerOfIntToString(n);
  }

  /** A numeral has no white space to trim. */
  lemma TrimOfNumeral(n: nat)
    ensures Trim(NatToString(n)) == NatToString(n)
  {
    var s := NatToString(n);
    DigitIsNotSpace(s[0]);
    DigitIsNotSpace(s[|s| - 1]);
    assert TrimStart(s) == s;
    assert TrimEnd(s) == s;
  }

  /** `String` is injective on the naturals. */
  lemma NatToStringInjective(m: nat, n: nat)
    requires NatToString(m) == NatToString(n)
    ensures m == n
  {
    ParseIntOfNatToString(m);
    ParseIntOfNatToString(n);
  }

  /**
   * `parseInt(localStorage.getItem(key), 10)` on the store `store`, with `None` for NaN: a
   * missing item reads as `null`, whose text "null" holds no digit.
   */
  function StoredInt(store: map<string, string>, key: string): (r: Option<int>)
    ensures key !in store ==> r.None?
    ensures key in store ==> r == ParseInt(store[key])
  {
    if key in store then ParseInt(store[key]) else None
  }

  /** `parts.join(sep)`. */
  function Join(parts: seq<string>, sep: string): string {
    if |parts| == 0 then ""
    else if |parts| == 1 then parts[0]
    else parts[0] + sep + Join(parts[1..], sep)
  }

  function LowerChar(c: char): char {
    if 'A' <= c <= 'Z' then (c as int + 32) as char else c
  }

  /** `s.toLowerCase()`, for the ASCII letters. */
  function AsciiLower(s: string): (r: string)
    ensures |r| == |s|
  {
    seq(|s|, i requires 0 <= i < |s| => LowerChar(s[i]))
  }
}

/**
 * The answer of the legacy exponent card (exponent-to-factors/back.js, lines 11-32): the
 * back side reads the base and the exponent that the front side stored, falls back to 0 and 0
 * when either does not parse, and writes the power out as a product of equal factors.
 *
 * The store is the map that `localStorage.getItem` reads; a missing item reads as `null`,
 * which `parseInt` turns into NaN. The back side only reads it.
 */
module ExponentToFactors {
  import opened Wrappers
  import opened Js

  const BASE_KEY_PREFIX: string := "tempBase_"
  const EXPONENT_KEY_PREFIX: string := "tempExponent_"

  /** The separator of `factors.join(" × ")`. */
  const TIMES: string := " \U{D7} "

  /** `n` copies of `x`. */
  function Copies(x: string, n: nat): (r: seq<string>)
    ensures |r| == n && forall i :: 0 <= i < n ==> r[i] == x
  {
    seq(n, _ => x)
  }

  /**
   * `createProductString(base, exponent)`: "1" for an exponent that is not positive, the
   * base alone for 1, and otherwise `exponent` copies of the base joined by " × ".
   */
  function ProductString(base: int, exponent: int): string {
    if exponent <= 0 then "1"
    else if exponent == 1 then IntToString(base)
    else Join(Copies(IntToString(base), exponent), TIMES)
  }

  /** The loop of `createProductString`: push the base `exponent` times, then join. */
  method CreateProductString(base: int, exponent: int) returns (s: string)
    ensures s == ProductString(base, exponent)
  {
    if exponent <= 0 {
      return "1";
    }
    if exponent == 1 {
      return IntToString(base);
    }
    var factors: seq<string> := [];
    var i := 0;
    while i < exponent
      invariant 0 <= i <= exponent && factors == Copies(IntToString(base), i)
    {
      factors := factors + [IntToString(base)];
      i := i + 1;
    }
    s := Join(factors, TIMES);
  }

  /** How many times `c` occurs in `s`. */
  function Occurrences(s: string, c: char): nat {
    if |s| == 0 then 0 else (if s[0] == c then 1 else 0) + Occurrences(s[1..], c)
  }

  lemma {:induction false} OccurrencesConcat(s: string, t: string, c: char)
    ensures Occurrences(s + t, c) == Occurrences(s, c) + Occurrences(t, c)
    decreases |s|
  {
    if |s| > 0 {
      assert (s + t)[1..] == s[1..] + t;
      OccurrencesConcat(s[1..], t, c);
    } else {
      assert s + t == t;
    }
  }

  /** A numeral contains no "×". */
  lemma {:induction false} NoTimesInNumeral(n: int)
    ensures Occurrences(IntToString(n), '\U{D7}') == 0
  {
    var m: nat := Abs(n);
    NoTimesInNatural(m);
    if n < 0 {
      OccurrencesConcat("-", NatToString(m), '\U{D7}');
    }
  }

  lemma {:induction false} NoTimesInNatural(n: nat)
    ensures Occurrences(NatToString(n), '\U{D7}') == 0
  {
    if n >= 10 {
      NoTimesInNatural(n / 10);
      OccurrencesConcat(NatToString(n / 10), [DigitChar(n % 10)], '\U{D7}');
    }
  }

  /**
   * `n` copies of a numeral joined by " × " hold exactly `n - 1` separators, and their
   * length is that of the `n` numerals and the `n - 1` separators.
   */
  lemma {:induction false} JoinedCopies(x: string, n: nat)
    requires n >= 1 && Occurrences(x, '\U{D7}') == 0
    ensures Occurrences(Join(Copies(x, n), TIMES), '\U{D7}') == n - 1
    ensures |Join(Copies(x, n), TIMES)| == n * |x| + (n - 1) * |TIMES|
  {
    if n > 1 {
      assert Copies(x, n)[1..] == Copies(x, n - 1);
      JoinedCopies(x, n - 1);
      var rest := Join(Copies(x, n - 1), TIMES);
      assert Join(Copies(x, n), TIMES) == x + TIMES + rest;
      OccurrencesConcat(x + TIMES, rest, '\U{D7}');
      OccurrencesConcat(x, TIMES, '\U{D7}');
      assert Occurrences(TIMES, '\U{D7}') == 1 by {
        assert TIMES[1..] == ['\U{D7}', ' '] && TIMES[2..] == [' '];
      }
    }
  }

  /**
   * The product string of an exponent of at least 2 starts with the base and continues with
   * " × " and the product string of one factor fewer; it holds `exponent - 1` separators.
   */
  lemma ProductStringFactors(base: int, exponent: int)
    requires exponent >= 2
    ensures ProductString(base, exponent) == IntToString(base) + TIMES + ProductString(base, exponent - 1)
    ensures Occurrences(ProductString(base, exponent), '\U{D7}') == exponent - 1
  {
    var x := IntToString(base);
    assert Copies(x, exponent)[1..] == Copies(x, exponent - 1);
    if exponent == 2 {
      assert Join(Copies(x, 1), TIMES) == x;
    }
    NoTimesInNumeral(base);
    JoinedCopies(x, exponent);
  }

  /** The base and the exponent: both stored values, or 0 and 0 when either is NaN. */
  function Operands(base: Option<int>, exponent: Option<int>): (r: (int, int))
    ensures base.Some? && exponent.Some? ==> r == (base.value, exponent.value)
    ensures base.None? || exponent.None? ==> r == (0, 0)
  {
    if base.None? || exponent.None? then (0, 0) else (base.value, exponent.value)
  }

  /** `base + "<sup>" + exponent + "</sup> = " + createProductString(base, exponent)`. */
  function AnswerLine(base: int, exponent: int): string {
    IntToString(base) + "<sup>" + IntToString(exponent) + "</sup> = " + ProductString(base, exponent)
  }

  /** The back side's answer for a card whose unique id is `uniqueId`. */
  function BackAnswer(store: map<string, string>, uniqueId: string): string {
    var uniquePart := Trim(uniqueId);
    var (base, exponent) := Operands(StoredInt(store, BASE_KEY_PREFIX + uniquePart),
                                     StoredInt(store, EXPONENT_KEY_PREFIX + uniquePart));
    AnswerLine(base, exponent)
  }

  /** When either stored value is missing, the answer is `0^0 = 1`. */
  lemma MissingValueFallback(store: map<string, string>, uniqueId: string)
    requires BASE_KEY_PREFIX + Trim(uniqueId) !in store
    ensures BackAnswer(store, uniqueId) == "0<sup>0</sup> = 1"
  {
    ZeroToTheZero();
  }

  lemma ZeroToTheZero()
    ensures AnswerLine(0, 0) == "0<sup>0</sup> = 1"
  {
    assert IntToString(0) == "0";
  }

  /** `3^4` is written `3 × 3 × 3 × 3`; `5^1` is `5`; `7^0` is `1`. */
  lemma ProductStringExamples()
    ensures ProductString(3, 4) == "3 \U{D7} 3 \U{D7} 3 \U{D7} 3"
    ensures ProductString(5, 1) == "5"
    ensures ProductString(7, 0) == "1"
  {
    ProductStringFactors(3, 4);
    ProductStringFactors(3, 3);
    ProductStringFactors(3, 2);
  }
}

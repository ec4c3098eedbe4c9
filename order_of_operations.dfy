/**
 * The token logic of the order-of-operations cards (src/order-of-operations/index.js):
 * the superscript rewrite of `base ^ exponent`, the random insertion of one pair of
 * parentheses, and the generator of the token sequence.
 *
 * `Math.random()` is modelled by a function `rnd` from draw numbers to numerators over
 * 2^53, and every operation takes the number of the next unused draw and returns the
 * number after the last one it used.
 */
module OrderOfOperations {
  import opened Wrappers
  import opened Js

  const TWO_53: nat := 0x20_0000_0000_0000

  /** A `Math.random()` outcome `u / 2^53`, by its numerator. */
  type Unit53 = u: nat | u < TWO_53

  /** `Math.random() < 0.7` holds exactly for the numerators below this bound (0.7 * 2^53). */
  const SEVEN_TENTHS_53: nat := 6305039478318694

  /** `Math.floor(Math.random() * n)` for the draw `u`. */
  function Pick(u: Unit53, n: nat): (k: nat)
    ensures n > 0 ==> k < n
  {
    PickBound(u, n);
    (u * n) / TWO_53
  }

  lemma PickBound(u: Unit53, n: nat)
    ensures n > 0 ==> (u * n) / TWO_53 < n
  {
    if n > 0 {
      assert u * n < TWO_53 * n by {
        assert (TWO_53 - u) * n > 0;
      }
    }
  }

  // ---- formatExpressionWithSuperscript ----

  predicate DigitsBetween(s: string, i: nat, j: nat)
    requires i <= j <= |s|
  {
    forall k :: i <= k < j ==> IsDigit(s[k])
  }

  predicate SpacesBetween(s: string, i: nat, j: nat)
    requires i <= j <= |s|
  {
    forall k :: i <= k < j ==> IsSpace(s[k])
  }

  /** Where the run of decimal digits (`\d+` matched greedily) that starts at `i` ends. */
  function DigitRunEnd(s: string, i: nat): (j: nat)
    requires i <= |s|
    ensures i <= j <= |s| && DigitsBetween(s, i, j)
    ensures j < |s| ==> !IsDigit(s[j])
    decreases |s| - i
  {
    if i < |s| && IsDigit(s[i]) then DigitRunEnd(s, i + 1) else i
  }

  /** Where the run of white space (`\s*`) that starts at `i` ends. */
  function SpaceRunEnd(s: string, i: nat): (j: nat)
    requires i <= |s|
    ensures i <= j <= |s| && SpacesBetween(s, i, j)
    ensures j < |s| ==> !IsSpace(s[j])
    decreases |s| - i
  {
    if i < |s| && IsSpace(s[i]) then SpaceRunEnd(s, i + 1) else i
  }

  /** A maximal run ends where the first character outside it is. */
  lemma {:induction false} DigitRunEndUnique(s: string, i: nat, j: nat)
    requires i <= j <= |s| && DigitsBetween(s, i, j) && (j < |s| ==> !IsDigit(s[j]))
    ensures DigitRunEnd(s, i) == j
    decreases j - i
  {
    if i < j {
      DigitRunEndUnique(s, i + 1, j);
    }
  }

  lemma {:induction false} SpaceRunEndUnique(s: string, i: nat, j: nat)
    requires i <= j <= |s| && SpacesBetween(s, i, j) && (j < |s| ==> !IsSpace(s[j]))
    ensures SpaceRunEnd(s, i) == j
    decreases j - i
  {
    if i < j {
      SpaceRunEndUnique(s, i + 1, j);
    }
  }

  /**
   * A match of `(\d+)\s*\^\s*(\d+)` at the start of a string, by where its parts end: the
   * base is `s[..baseEnd]`, `^` is at `caret`, the exponent is `s[expStart..end]`.
   */
  datatype Power = Power(baseEnd: nat, caret: nat, expStart: nat, end: nat)

  /** The pattern at the start of `s`, with both digit runs as long as they can be. */
  predicate IsMatch(s: string, m: Power) {
    && 0 < m.baseEnd <= m.caret < m.expStart < m.end <= |s|
    && DigitsBetween(s, 0, m.baseEnd) && SpacesBetween(s, m.baseEnd, m.caret) && s[m.caret] == '^'
    && SpacesBetween(s, m.caret + 1, m.expStart) && DigitsBetween(s, m.expStart, m.end)
    && (m.end < |s| ==> !IsDigit(s[m.end]))
  }

  /**
   * The match that starts at the beginning of `s`, if there is one. Backtracking into the
   * first digit run cannot help, since what follows it must be white space or `^`.
   */
  function MatchAt(s: string): (m: Option<Power>)
    ensures m.Some? ==> IsMatch(s, m.value)
  {
    var baseEnd := DigitRunEnd(s, 0);
    var caret := SpaceRunEnd(s, baseEnd);
    if baseEnd == 0 || caret == |s| || s[caret] != '^' then None
    else
      var expStart := SpaceRunEnd(s, caret + 1);
      var end := DigitRunEnd(s, expStart);
      if end == expStart then None else Some(Power(baseEnd, caret, expStart, end))
  }

  /** Every occurrence of the pattern at the start of `s` is the one `MatchAt` finds. */
  lemma MatchAtComplete(s: string, m: Power)
    requires IsMatch(s, m)
    ensures MatchAt(s) == Some(m)
  {
    DigitRunEndUnique(s, 0, m.baseEnd);
    SpaceRunEndUnique(s, m.baseEnd, m.caret);
    SpaceRunEndUnique(s, m.caret + 1, m.expStart);
    DigitRunEndUnique(s, m.expStart, m.end);
  }

  /** `expr.replace(/(\d+)\s*\^\s*(\d+)/g, base + "<sup>" + exponent + "</sup>")`. */
  function Superscript(s: string): string
    decreases |s|
  {
    if |s| == 0 then ""
    else
      match MatchAt(s)
      case Some(m) => s[..m.baseEnd] + "<sup>" + s[m.expStart..m.end] + "</sup>" + Superscript(s[m.end..])
      case None => [s[0]] + Superscript(s[1..])
  }

  /** A string without `^` is left as it is. */
  lemma {:induction false} NoCaretUnchanged(s: string)
    requires '^' !in s
    ensures Superscript(s) == s
    decreases |s|
  {
    if |s| > 0 {
      assert MatchAt(s).None?;
      NoCaretUnchanged(s[1..]);
      assert s == [s[0]] + s[1..];
    }
  }

  /**
   * Where the pattern occurs at the start of `s`, the base, `<sup>`, the exponent and
   * `</sup>` replace it, and the scan resumes after the exponent.
   */
  lemma RewritesMatch(s: string, m: Power)
    requires IsMatch(s, m)
    ensures Superscript(s)
      == s[..m.baseEnd] + "<sup>" + s[m.expStart..m.end] + "</sup>" + Superscript(s[m.end..])
  {
    MatchAtComplete(s, m);
  }

  /**
   * Text without digits is copied as it is, `^` included: a `^` with no digit run before
   * it, as in `(2 + 3) ^ 2`, is not rewritten.
   */
  lemma {:induction false} NoDigitsKept(p: string, t: string)
    requires NoDigits(p)
    ensures Superscript(p + t) == p + Superscript(t)
    decreases |p|
  {
    if |p| > 0 {
      NoDigitsSuffix(p, p[1..]);
      NoDigitsKept(p[1..], t);
      KeptStep(p, t, Superscript(t));
    } else {
      assert p + t == t;
    }
  }

  /** A leading non-digit is copied in front of what the rest of the text becomes. */
  lemma KeptStep(p: string, t: string, tail: string)
    requires |p| > 0 && !IsDigit(p[0]) && Superscript(p[1..] + t) == p[1..] + tail
    ensures Superscript(p + t) == p + tail
  {
    var s := p + t;
    var c, q := p[0], p[1..];
    assert s[0] == c && s[1..] == q + t && p == [c] + q;
    NoMatchAtNonDigit(s);
    CopiesFirst(s);
    SeqAssoc([c], q, tail);
  }

  lemma SeqAssoc(a: string, b: string, c: string)
    ensures a + (b + c) == (a + b) + c
  {
  }

  /** Where no match starts, the first character is copied and the scan moves on by one. */
  lemma CopiesFirst(s: string)
    requires |s| > 0 && MatchAt(s) == None
    ensures Superscript(s) == [s[0]] + Superscript(s[1..])
  {
  }

  /** No match starts at a character that is not a digit. */
  lemma NoMatchAtNonDigit(s: string)
    requires |s| > 0 && !IsDigit(s[0])
    ensures MatchAt(s) == None
  {
    assert DigitRunEnd(s, 0) == 0;
  }

  // ---- insertParentheses ----

  /** `operators.includes(tok) && tok !== "^"`: a "(" may follow this token. */
  predicate IsOpener(tok: string, operators: seq<string>) {
    tok in operators && tok != "^"
  }

  /**
   * `!isNaN(parseInt(tok, 10))`: a ")" may follow this token. After any leading white
   * space and an optional sign there is a digit (`NumberTokenParses` ties this to `ParseInt`).
   */
  predicate IsNumberToken(tok: string)
    decreases |tok|
  {
    if |tok| > 0 && IsSpace(tok[0]) then IsNumberToken(tok[1..])
    else var rest := SplitSign(tok).1; |rest| > 0 && IsDigit(rest[0])
  }

  /** A ")" may follow exactly the tokens that `parseInt(tok, 10)` reads as a number. */
  lemma {:induction false} NumberTokenParses(tok: string)
    ensures IsNumberToken(tok) <==> ParseInt(tok).Some?
    decreases |tok|
  {
    if |tok| > 0 && IsSpace(tok[0]) {
      NumberTokenParses(tok[1..]);
      assert TrimStart(tok) == TrimStart(tok[1..]);
    } else {
      assert TrimStart(tok) == tok;
    }
  }

  /** Which of the two position lists is being collected. */
  datatype Slot = OpenSlot(operators: seq<string>) | CloseSlot

  /** Whether a position right after `tok` belongs to the list of `slot`. */
  predicate Fits(slot: Slot, tok: string) {
    match slot
    case OpenSlot(operators) => IsOpener(tok, operators)
    case CloseSlot => IsNumberToken(tok)
  }

  /** For each token, whether a position right after it belongs to the list of `slot`. */
  function Mask(e: seq<string>, slot: Slot): seq<bool> {
    seq(|e|, i requires 0 <= i < |e| => Fits(slot, e[i]))
  }

  /** The positions `i + 1` among the first `n` whose mark is set, in order. */
  function Positions(m: seq<bool>, n: nat): seq<nat>
    requires n <= |m|
  {
    if n == 0 then [] else Positions(m, n - 1) + (if m[n - 1] then [n] else [])
  }

  /** The positions are exactly the places right after a marked token. */
  lemma {:induction false} PositionsSpec(m: seq<bool>, n: nat)
    requires n <= |m|
    ensures forall p :: p in Positions(m, n) <==> 1 <= p <= n && m[p - 1]
  {
    if n > 0 {
      PositionsSpec(m, n - 1);
    }
  }

  lemma {:induction false} NoPositions(m: seq<bool>, n: nat)
    requires n <= |m| && forall i :: 0 <= i < n ==> !m[i]
    ensures Positions(m, n) == []
  {
    if n > 0 {
      NoPositions(m, n - 1);
    }
  }

  /** Where "(" may go: right after an operator other than `^`. */
  function StartPositions(e: seq<string>, operators: seq<string>): seq<nat> {
    Positions(Mask(e, OpenSlot(operators)), |e|)
  }

  /** Where ")" may go: right after a number token. */
  function EndPositions(e: seq<string>): seq<nat> {
    Positions(Mask(e, CloseSlot), |e|)
  }

  lemma StartPositionsSpec(e: seq<string>, operators: seq<string>)
    ensures forall p :: p in StartPositions(e, operators) <==> 1 <= p <= |e| && IsOpener(e[p - 1], operators)
  {
    PositionsSpec(Mask(e, OpenSlot(operators)), |e|);
  }

  lemma EndPositionsSpec(e: seq<string>)
    ensures forall p :: p in EndPositions(e) <==> 1 <= p <= |e| && IsNumberToken(e[p - 1])
  {
    PositionsSpec(Mask(e, CloseSlot), |e|);
  }

  /** `positions.filter((pos) => pos > start)`. */
  function After(positions: seq<nat>, start: nat): seq<nat> {
    if |positions| == 0 then []
    else (if positions[0] > start then [positions[0]] else []) + After(positions[1..], start)
  }

  lemma {:induction false} AfterSpec(positions: seq<nat>, start: nat)
    ensures forall p :: p in After(positions, start) <==> p in positions && p > start
  {
    if |positions| > 0 {
      AfterSpec(positions[1..], start);
      assert positions == [positions[0]] + positions[1..];
    }
  }

  /** `xs.splice(at, 0, item)`; like `splice`, a position past the end appends. */
  function Insert(xs: seq<string>, at: nat, item: string): (r: seq<string>)
    ensures |r| == |xs| + 1 && (at <= |xs| ==> r[at] == item)
  {
    var a := if at <= |xs| then at else |xs|;
    xs[..a] + [item] + xs[a..]
  }

  /** `xs.splice(at, 1)`. */
  function RemoveAt(xs: seq<string>, at: nat): (r: seq<string>)
    requires at < |xs|
    ensures |r| == |xs| - 1
  {
    xs[..at] + xs[at + 1..]
  }

  /**
   * Where `insertParentheses` puts its pair: the chosen start (right after an opener) and
   * the chosen end after it (right after a number token), or none; and the next unused
   * draw.
   */
  datatype Choice = Choice(span: Option<(nat, nat)>, next: nat)

  function ChosenSpan(e: seq<string>, operators: seq<string>, rnd: nat -> Unit53, k: nat): Choice {
    PickSpan(StartPositions(e, operators), EndPositions(e), rnd, k)
  }

  /**
   * The draws of `insertParentheses` over its position lists: none when a list is empty,
   * one for the start, and one more for the end unless no end lies after the start.
   */
  function PickSpan(starts: seq<nat>, ends: seq<nat>, rnd: nat -> Unit53, k: nat): Choice {
    if |starts| == 0 || |ends| == 0 then Choice(None, k)
    else
      var open := starts[Pick(rnd(k), |starts|)];
      var validEnds := After(ends, open);
      if |validEnds| == 0 then Choice(None, k + 1)
      else Choice(Some((open, validEnds[Pick(rnd(k + 1), |validEnds|)])), k + 2)
  }

  /** A picked span opens at one of `starts` and closes later, at one of `ends`. */
  lemma PickSpanIn(starts: seq<nat>, ends: seq<nat>, rnd: nat -> Unit53, k: nat)
    ensures var c := PickSpan(starts, ends, rnd, k);
      c.span.Some? ==> c.span.value.0 in starts && c.span.value.1 in ends && c.span.value.0 < c.span.value.1
  {
    var c := PickSpan(starts, ends, rnd, k);
    if c.span.Some? {
      var open := starts[Pick(rnd(k), |starts|)];
      AfterIn(ends, open, c.span.value.1);
    }
  }

  /**
   * A chosen span opens right after an operator other than `^` and closes later, right
   * after a number token.
   */
  lemma ChosenSpanValid(e: seq<string>, operators: seq<string>, rnd: nat -> Unit53, k: nat)
    ensures var c := ChosenSpan(e, operators, rnd, k);
      c.span.Some? ==>
        var (open, close) := c.span.value;
        && 1 <= open < close <= |e| && IsOpener(e[open - 1], operators) && IsNumberToken(e[close - 1])
  {
    var starts, ends := StartPositions(e, operators), EndPositions(e);
    PickSpanIn(starts, ends, rnd, k);
    var c := PickSpan(starts, ends, rnd, k);
    if c.span.Some? {
      StartIn(e, operators, c.span.value.0);
      EndIn(e, c.span.value.1);
    }
  }

  lemma StartIn(e: seq<string>, operators: seq<string>, p: nat)
    requires p in StartPositions(e, operators)
    ensures 1 <= p <= |e| && IsOpener(e[p - 1], operators)
  {
    PositionIn(Mask(e, OpenSlot(operators)), |e|, p);
  }

  lemma EndIn(e: seq<string>, p: nat)
    requires p in EndPositions(e)
    ensures 1 <= p <= |e| && IsNumberToken(e[p - 1])
  {
    PositionIn(Mask(e, CloseSlot), |e|, p);
  }

  /** A single position taken from `Positions` lies in range, right after a marked token. */
  lemma {:induction false} PositionIn(m: seq<bool>, n: nat, p: nat)
    requires n <= |m| && p in Positions(m, n)
    ensures 1 <= p <= n && m[p - 1]
  {
    PositionsSpec(m, n);
  }

  /** A single position taken from `After(positions, start)` is one of `positions`, past `start`. */
  lemma {:induction false} AfterIn(positions: seq<nat>, start: nat, p: nat)
    requires p in After(positions, start)
    ensures p in positions && p > start
  {
    AfterSpec(positions, start);
  }

  /** The tokens with "(" inserted at `open` and then ")" right after the token `close - 1`. */
  function Wrap(e: seq<string>, open: nat, close: nat): seq<string> {
    Insert(Insert(e, open, "("), close + 1, ")")
  }

  /** The tokens after `insertParentheses` and the next unused draw. */
  datatype Inserted = Inserted(tokens: seq<string>, next: nat)

  function Parenthesized(e: seq<string>, operators: seq<string>, rnd: nat -> Unit53, k: nat): Inserted {
    var c := ChosenSpan(e, operators, rnd, k);
    match c.span
    case None => Inserted(e, c.next)
    case Some((open, close)) => Inserted(Wrap(e, open, close), c.next)
  }

  /**
   * `insertParentheses(expression, operators)`: two loops collect the valid start and end
   * positions, then one or two draws choose the span and two splices insert the pair.
   */
  method InsertParentheses(expression: seq<string>, operators: seq<string>, rnd: nat -> Unit53, k: nat)
    returns (r: seq<string>, next: nat)
    ensures Inserted(r, next) == Parenthesized(expression, operators, rnd, k)
  {
    var validStart := CollectPositions(expression, OpenSlot(operators));
    var validEnd := CollectPositions(expression, CloseSlot);
    r, next := expression, k;
    if |validStart| > 0 && |validEnd| > 0 {
      var parenStart := validStart[Pick(rnd(k), |validStart|)];
      var validEnds := After(validEnd, parenStart);
      next := k + 1;
      if |validEnds| > 0 {
        var parenEnd := validEnds[Pick(rnd(k + 1), |validEnds|)];
        next := k + 2;
        ghost var c := ChosenSpan(expression, operators, rnd, k);
        assert c.span == Some((parenStart, parenEnd));
        r := Insert(r, parenStart, "(");
        r := Insert(r, parenEnd + 1, ")");
      }
    }
  }

  /** One of the two position loops of `insertParentheses`: push `i + 1` for each token that passes. */
  method CollectPositions(expression: seq<string>, slot: Slot) returns (positions: seq<nat>)
    ensures positions == Positions(Mask(expression, slot), |expression|)
  {
    positions := [];
    var i := 0;
    while i < |expression|
      invariant 0 <= i <= |expression| && positions == Positions(Mask(expression, slot), i)
    {
      if Fits(slot, expression[i]) {
        positions := positions + [i + 1];
      }
      i := i + 1;
    }
  }

  /**
   * `insertParentheses` inserts nothing, or one "(" right after an operator other than
   * `^` and one ")" later, right after a number token; it uses one or no draw when it
   * inserts nothing and two when it inserts.
   */
  lemma ParenthesesShape(e: seq<string>, operators: seq<string>, rnd: nat -> Unit53, k: nat)
    ensures var c := ChosenSpan(e, operators, rnd, k);
      var r := Parenthesized(e, operators, rnd, k);
      && r.next == c.next
      && (c.span.None? ==> r.tokens == e && (c.next == k || c.next == k + 1))
      && (c.span.Some? ==>
          var (open, close) := c.span.value;
          && c.next == k + 2 && 1 <= open < close <= |e|
          && r.tokens == e[..open] + ["("] + e[open..close] + [")"] + e[close..]
          && |r.tokens| == |e| + 2
          && r.tokens[open] == "(" && IsOpener(r.tokens[open - 1], operators)
          && r.tokens[close + 1] == ")" && IsNumberToken(r.tokens[close]))
  {
    var c := ChosenSpan(e, operators, rnd, k);
    ChosenSpanValid(e, operators, rnd, k);
    if c.span.Some? {
      var (open, close) := c.span.value;
      WrapShape(e, open, close);
      var w := Wrap(e, open, close);
      assert w[open - 1] == e[open - 1] && w[close] == e[close - 1];
    }
  }

  /** Without an operator other than `^`, nothing is inserted and no draw is used. */
  lemma NoOpenerNoParentheses(e: seq<string>, operators: seq<string>, rnd: nat -> Unit53, k: nat)
    requires forall i :: 0 <= i < |e| ==> !IsOpener(e[i], operators)
    ensures ChosenSpan(e, operators, rnd, k) == Choice(None, k)
    ensures Parenthesized(e, operators, rnd, k) == Inserted(e, k)
  {
    assert forall i :: 0 <= i < |e| ==> !Fits(OpenSlot(operators), e[i]);
    NoPositions(Mask(e, OpenSlot(operators)), |e|);
  }

  /** Without a number token, nothing is inserted and no draw is used. */
  lemma NoNumberNoParentheses(e: seq<string>, operators: seq<string>, rnd: nat -> Unit53, k: nat)
    requires forall i :: 0 <= i < |e| ==> !IsNumberToken(e[i])
    ensures ChosenSpan(e, operators, rnd, k) == Choice(None, k)
    ensures Parenthesized(e, operators, rnd, k) == Inserted(e, k)
  {
    NoPositions(Mask(e, CloseSlot), |e|);
  }

  lemma WrapShape(e: seq<string>, open: nat, close: nat)
    requires 1 <= open < close <= |e|
    ensures Wrap(e, open, close) == e[..open] + ["("] + e[open..close] + [")"] + e[close..]
  {
    var once := Insert(e, open, "(");
    assert once[..close + 1] == e[..open] + ["("] + e[open..close];
    assert once[close + 1..] == e[close..];
  }

  /** Removing the inserted ")" and then the inserted "(" gives back the original tokens. */
  lemma UnwrapRestores(e: seq<string>, open: nat, close: nat)
    requires 1 <= open < close <= |e|
    ensures RemoveAt(RemoveAt(Wrap(e, open, close), close + 1), open) == e
  {
    WrapShape(e, open, close);
    var w := Wrap(e, open, close);
    var once := RemoveAt(w, close + 1);
    assert once == e[..open] + ["("] + e[open..];
    assert RemoveAt(once, open) == e[..open] + e[open..];
    assert e[..open] + e[open..] == e;
  }

  // ---- generateMathExpression ----

  /** `['+', '-', '*', '/']`, with `'^'` pushed when exponents are included. */
  function Operators(includeExponents: bool): (ops: seq<string>)
    ensures |ops| > 0 && ("^" in ops <==> includeExponents)
    ensures "(" !in ops && ")" !in ops
  {
    if includeExponents then ["+", "-", "*", "/", "^"] else ["+", "-", "*", "/"]
  }

  /** `String(Math.floor(Math.random() * 10) + 1)`. */
  function NumberToken(u: Unit53): string {
    NatToString(Pick(u, 10) + 1)
  }

  /** `String(Math.floor(Math.random() * 3) + 2)`, the number after `^`. */
  function ExponentToken(u: Unit53): string {
    NatToString(Pick(u, 3) + 2)
  }

  /** Whether `tok` is the numeral of a number from `lo` to `hi`. */
  predicate NumeralIn(tok: string, lo: int, hi: int) {
    ParseInt(tok).Some? && lo <= ParseInt(tok).value <= hi
  }

  lemma NumberTokenIn(u: Unit53)
    ensures NumeralIn(NumberToken(u), 1, 10)
  {
    ParseIntOfNatToString(Pick(u, 10) + 1);
  }

  lemma ExponentTokenIn(u: Unit53)
    ensures NumeralIn(ExponentToken(u), 2, 4)
  {
    ParseIntOfNatToString(Pick(u, 3) + 2);
  }

  /** How many tokens, and draws, the first `i` passes of the loop make: one, then two per pass. */
  function TermDraws(i: nat): nat {
    if i == 0 then 0 else 2 * i - 1
  }

  /** How many passes `for (let i = 0; i < numTerms; i++)` makes. */
  function Passes(numTerms: int): nat {
    if numTerms > 0 then numTerms else 0
  }

  /** The operator of pass `m` (from 1), drawn from `k + 2 * m - 1`. */
  function OperatorAt(ops: seq<string>, rnd: nat -> Unit53, k: nat, m: nat): string
    requires |ops| > 0 && m >= 1
  {
    ops[Pick(rnd(k + 2 * m - 1), |ops|)]
  }

  /** The number of pass `m`, drawn from `k + 2 * m`: from 2 to 4 right after `^`. */
  function NumberAt(ops: seq<string>, rnd: nat -> Unit53, k: nat, m: nat): string
    requires |ops| > 0
  {
    if m >= 1 && OperatorAt(ops, rnd, k, m) == "^" then ExponentToken(rnd(k + 2 * m))
    else NumberToken(rnd(k + 2 * m))
  }

  /**
   * `t` is what the first `i` passes of the loop push, drawing from `k` on: pass `m` puts
   * its operator at position `2 * m - 1` and its number at `2 * m`, so the token at
   * position `p` comes from the draw `k + p`.
   */
  predicate IsTerms(t: seq<string>, i: nat, ops: seq<string>, rnd: nat -> Unit53, k: nat)
    requires |ops| > 0
  {
    && |t| == TermDraws(i)
    && forall m :: 0 <= m < i ==>
         t[2 * m] == NumberAt(ops, rnd, k, m) && (m >= 1 ==> t[2 * m - 1] == OperatorAt(ops, rnd, k, m))
  }

  /** A pass after the first pushes its operator and then its number. */
  lemma ExtendTerms(t: seq<string>, i: nat, ops: seq<string>, rnd: nat -> Unit53, k: nat)
    requires |ops| > 0 && i >= 1 && IsTerms(t, i, ops, rnd, k)
    ensures IsTerms(t + [OperatorAt(ops, rnd, k, i), NumberAt(ops, rnd, k, i)], i + 1, ops, rnd, k)
  {
    var u := t + [OperatorAt(ops, rnd, k, i), NumberAt(ops, rnd, k, i)];
    forall m | 0 <= m < i + 1
      ensures u[2 * m] == NumberAt(ops, rnd, k, m) && (m >= 1 ==> u[2 * m - 1] == OperatorAt(ops, rnd, k, m))
    {
      if m < i {
        assert u[2 * m] == t[2 * m];
        if m >= 1 {
          assert u[2 * m - 1] == t[2 * m - 1];
        }
      }
    }
  }

  /** The passes determine the tokens: two sequences that both fit are equal. */
  lemma TermsUnique(t: seq<string>, s: seq<string>, i: nat, ops: seq<string>, rnd: nat -> Unit53, k: nat)
    requires |ops| > 0 && IsTerms(t, i, ops, rnd, k) && IsTerms(s, i, ops, rnd, k)
    ensures t == s
  {
    forall p | 0 <= p < |t|
      ensures t[p] == s[p]
    {
      var m := (p + 1) / 2;
      if p == 2 * m {
        assert t[2 * m] == s[2 * m];
      } else {
        assert p == 2 * m - 1 && 1 <= m < i;
        assert t[2 * m - 1] == OperatorAt(ops, rnd, k, m) == s[2 * m - 1];
      }
    }
  }

  /** The loop of `generateMathExpression`: `numTerms` passes, or none when it is not positive. */
  method PushTerms(numTerms: int, operators: seq<string>, rnd: nat -> Unit53, k: nat)
    returns (tokens: seq<string>, next: nat)
    requires |operators| > 0
    ensures IsTerms(tokens, Passes(numTerms), operators, rnd, k)
    ensures next == k + |tokens|
  {
    tokens := [];
    next := k;
    var i := 0;
    while i < numTerms
      invariant 0 <= i <= Passes(numTerms)
      invariant IsTerms(tokens, i, operators, rnd, k) && next == k + |tokens|
    {
      if i == 0 {
        tokens := tokens + [NumberToken(rnd(next))];
        next := next + 1;
      } else {
        var operator := operators[Pick(rnd(next), |operators|)];
        assert operator == OperatorAt(operators, rnd, k, i);
        var number := if operator == "^" then ExponentToken(rnd(next + 1)) else NumberToken(rnd(next + 1));
        assert number == NumberAt(operators, rnd, k, i);
        ExtendTerms(tokens, i, operators, rnd, k);
        tokens := tokens + [operator, number];
        next := next + 2;
      }
      i := i + 1;
    }
  }

  lemma NumberAtIn(ops: seq<string>, rnd: nat -> Unit53, k: nat, m: nat)
    requires |ops| > 0
    ensures m >= 1 ==> OperatorAt(ops, rnd, k, m) in ops
    ensures if m >= 1 && OperatorAt(ops, rnd, k, m) == "^" then NumeralIn(NumberAt(ops, rnd, k, m), 2, 4)
            else NumeralIn(NumberAt(ops, rnd, k, m), 1, 10)
  {
    ExponentTokenIn(rnd(k + 2 * m));
    NumberTokenIn(rnd(k + 2 * m));
  }

  /**
   * The loop's tokens alternate a number and an operator of `ops`, starting and ending
   * with a number: there are `2 * i - 1` of them, the first number is from 1 to 10, and
   * each later pass adds an operator of `ops` and then a number, from 2 to 4 after `^`
   * and from 1 to 10 otherwise.
   */
  lemma TermsShape(t: seq<string>, i: nat, ops: seq<string>, rnd: nat -> Unit53, k: nat)
    requires |ops| > 0 && IsTerms(t, i, ops, rnd, k)
    ensures |t| == (if i == 0 then 0 else 2 * i - 1)
    ensures i >= 1 ==> NumeralIn(t[0], 1, 10)
    ensures forall m :: 1 <= m < i ==>
      && t[2 * m - 1] in ops
      && (if t[2 * m - 1] == "^" then NumeralIn(t[2 * m], 2, 4) else NumeralIn(t[2 * m], 1, 10))
  {
    forall m | 1 <= m < i
      ensures t[2 * m - 1] in ops
      ensures if t[2 * m - 1] == "^" then NumeralIn(t[2 * m], 2, 4) else NumeralIn(t[2 * m], 1, 10)
    {
      NumberAtIn(ops, rnd, k, m);
    }
    if i >= 1 {
      assert t[2 * 0] == NumberAt(ops, rnd, k, 0);
      NumberAtIn(ops, rnd, k, 0);
    }
  }

  lemma NumberAtStartsWithDigit(ops: seq<string>, rnd: nat -> Unit53, k: nat, m: nat)
    requires |ops| > 0
    ensures var n := NumberAt(ops, rnd, k, m); |n| > 0 && IsDigit(n[0])
  {
  }

  /**
   * A token of the loop that does not start with a digit is one of `ops`: every other
   * token is a numeral.
   */
  lemma TokensFromOperators(t: seq<string>, i: nat, ops: seq<string>, rnd: nat -> Unit53, k: nat, tok: string)
    requires |ops| > 0 && IsTerms(t, i, ops, rnd, k) && |tok| > 0 && !IsDigit(tok[0]) && tok !in ops
    ensures tok !in t
  {
    forall p | 0 <= p < |t|
      ensures t[p] != tok
    {
      var m := (p + 1) / 2;
      if p == 2 * m {
        assert t[2 * m] == NumberAt(ops, rnd, k, m);
        NumberAtStartsWithDigit(ops, rnd, k, m);
      } else {
        assert p == 2 * m - 1 && 1 <= m < i;
        assert t[2 * m - 1] == OperatorAt(ops, rnd, k, m);
      }
    }
  }

  /** Without exponents no token of the loop is `^`, and no token is ever a parenthesis. */
  lemma NoCaretNoParentheses(t: seq<string>, i: nat, includeExponents: bool, rnd: nat -> Unit53, k: nat)
    requires IsTerms(t, i, Operators(includeExponents), rnd, k)
    ensures "(" !in t && ")" !in t && (!includeExponents ==> "^" !in t)
  {
    var ops := Operators(includeExponents);
    TokensFromOperators(t, i, ops, rnd, k, "(");
    TokensFromOperators(t, i, ops, rnd, k, ")");
    if !includeExponents {
      TokensFromOperators(t, i, ops, rnd, k, "^");
    }
  }

  /**
   * What `generateMathExpression` does after the loop, given the loop's tokens and the
   * next unused draw `j`: with `includeParens`, the draw `j` is compared with 0.7 and
   * below it `insertParentheses` runs on the following draws.
   */
  function AfterTerms(terms: seq<string>, includeParens: bool, ops: seq<string>, rnd: nat -> Unit53, j: nat): Inserted {
    if !includeParens then Inserted(terms, j)
    else if rnd(j) < SEVEN_TENTHS_53 then Parenthesized(terms, ops, rnd, j + 1)
    else Inserted(terms, j + 1)
  }

  /** The part of `generateMathExpression` after the loop: the optional parentheses. */
  method FinishTokens(terms: seq<string>, includeParens: bool, operators: seq<string>, rnd: nat -> Unit53, k: nat)
    returns (tokens: seq<string>, next: nat)
    ensures Inserted(tokens, next) == AfterTerms(terms, includeParens, operators, rnd, k)
  {
    tokens, next := terms, k;
    if includeParens {
      var coin := rnd(next);
      next := next + 1;
      if coin < SEVEN_TENTHS_53 {
        tokens, next := InsertParentheses(tokens, operators, rnd, next);
      }
    }
  }

  /**
   * `expression` (and the next unused draw) is what `generateMathExpression` returns for
   * these arguments and draws: the loop's tokens, after the optional parentheses, joined
   * by spaces.
   */
  ghost predicate Generates(expression: string, next: nat, numTerms: int, includeParens: bool,
                            includeExponents: bool, rnd: nat -> Unit53, k: nat)
  {
    exists terms, tokens ::
      && IsTerms(terms, Passes(numTerms), Operators(includeExponents), rnd, k)
      && Inserted(tokens, next) == AfterTerms(terms, includeParens, Operators(includeExponents), rnd, k + |terms|)
      && expression == Join(tokens, " ")
  }

  /**
   * `generateMathExpression(numTerms, includeParens, includeExponents)`: the push loop,
   * then with `includeParens` a draw `Math.random() < 0.7` deciding on `insertParentheses`,
   * and the tokens joined by spaces.
   */
  method GenerateMathExpression(numTerms: int, includeParens: bool, includeExponents: bool,
                                rnd: nat -> Unit53, k: nat)
    returns (expression: string, next: nat)
    ensures Generates(expression, next, numTerms, includeParens, includeExponents, rnd, k)
  {
    var terms, tokens;
    terms, next := PushTerms(numTerms, Operators(includeExponents), rnd, k);
    tokens, next := FinishTokens(terms, includeParens, Operators(includeExponents), rnd, k + |terms|);
    expression := Join(tokens, " ");
    assert && IsTerms(terms, Passes(numTerms), Operators(includeExponents), rnd, k)
           && Inserted(tokens, next) == AfterTerms(terms, includeParens, Operators(includeExponents), rnd, k + |terms|)
           && expression == Join(tokens, " ");
  }

  /**
   * After the loop: without `includeParens` the tokens and the draw index are kept; with
   * it, one draw decides, and then either the tokens are kept (with at most one more draw
   * used) or a pair is inserted (two more tokens, two more draws).
   */
  lemma AfterTermsShape(terms: seq<string>, includeParens: bool, ops: seq<string>, rnd: nat -> Unit53, j: nat)
    ensures var g := AfterTerms(terms, includeParens, ops, rnd, j);
      && (!includeParens ==> g == Inserted(terms, j))
      && (includeParens ==>
          || (g.tokens == terms && j + 1 <= g.next <= j + 2)
          || (|g.tokens| == |terms| + 2 && g.next == j + 3))
  {
    if includeParens && rnd(j) < SEVEN_TENTHS_53 {
      ParenthesesShape(terms, ops, rnd, j + 1);
    }
  }

  /**
   * A generated expression without parentheses joins exactly the loop's `2 * numTerms - 1`
   * tokens, one fresh draw per token.
   */
  lemma GeneratedWithoutParentheses(expression: string, next: nat, numTerms: int, includeExponents: bool,
                                    rnd: nat -> Unit53, k: nat)
    requires Generates(expression, next, numTerms, false, includeExponents, rnd, k)
    ensures exists terms ::
      && IsTerms(terms, Passes(numTerms), Operators(includeExponents), rnd, k)
      && expression == Join(terms, " ") && next == k + |terms| && "(" !in terms && ")" !in terms
  {
    var terms, tokens :|
      && IsTerms(terms, Passes(numTerms), Operators(includeExponents), rnd, k)
      && Inserted(tokens, next) == AfterTerms(terms, false, Operators(includeExponents), rnd, k + |terms|)
      && expression == Join(tokens, " ");
    NoCaretNoParentheses(terms, Passes(numTerms), includeExponents, rnd, k);
  }
}

/**
 * The answer of the legacy division card (dynamic-division/back.js, lines 11-29): the back
 * side reads the divisor and the dividend that the front side stored, falls back to 1000 / 10
 * when either does not parse, and shows the quotient and, when it is not zero, the remainder.
 *
 * The store is the map that `localStorage.getItem` reads; a missing item reads as `null`,
 * which `parseInt` turns into NaN. The back side only reads it.
 */
module DynamicDivision {
  import opened Wrappers
  import opened Js
  import Rng

  const DIVISOR_KEY_PREFIX: string := "tempDivisor_"
  const DIVIDEND_KEY_PREFIX: string := "tempDividend_"
  const FALLBACK_DIVISOR: int := 10
  const FALLBACK_DIVIDEND: int := 1000

  /** The divisor and the dividend: both stored values, or 10 and 1000 when either is NaN. */
  function Operands(divisor: Option<int>, dividend: Option<int>): (r: (int, int))
    ensures divisor.Some? && dividend.Some? ==> r == (divisor.value, dividend.value)
    ensures divisor.None? || dividend.None? ==> r == (FALLBACK_DIVISOR, FALLBACK_DIVIDEND)
  {
    if divisor.None? || dividend.None? then (FALLBACK_DIVISOR, FALLBACK_DIVIDEND)
    else (divisor.value, dividend.value)
  }

  /** `Math.floor(dividend / divisor)`, which is infinite or NaN when the divisor is 0. */
  function FloorQuotient(dividend: int, divisor: int): (q: JsValue)
    ensures divisor > 0 ==> q.Number? && q.n * divisor <= dividend < (q.n + 1) * divisor
    ensures divisor < 0 ==> q.Number? && (q.n + 1) * divisor < dividend <= q.n * divisor
    ensures divisor == 0 ==> (q.NaN? <==> dividend == 0) && (q.Infinity? <==> dividend != 0)
  {
    if divisor > 0 then Number(dividend / divisor)
    else if divisor < 0 then Number((-dividend) / (-divisor))
    else if dividend == 0 then NaN
    else Infinity(dividend < 0)
  }

  /** `dividend % divisor`: the remainder of the division truncated toward zero; NaN for 0. */
  function TruncRemainder(dividend: int, divisor: int): (r: JsValue)
    ensures divisor == 0 ==> r.NaN?
    ensures divisor != 0 ==> r.Number? && -(Abs(divisor) as int) < r.n < Abs(divisor)
    ensures divisor != 0 && dividend >= 0 ==> r.n >= 0
    ensures divisor != 0 && dividend <= 0 ==> r.n <= 0
    ensures divisor != 0 ==> (dividend - r.n) % Abs(divisor) == 0
  {
    if divisor == 0 then NaN
    else
      var m := Abs(divisor);
      var x := Abs(dividend);
      assert (x - x % m) % m == 0 by { SubtractRemainder(x, m); }
      if dividend >= 0 then Number(x % m)
      else
        assert (dividend + x % m) % m == 0 by { NegateMultiple(x - x % m, m); }
        Number(-(x % m))
  }

  /** Taking away the remainder leaves a multiple. */
  lemma SubtractRemainder(x: int, m: int)
    requires m > 0
    ensures (x - x % m) % m == 0
  {
    assert x - x % m == m * (x / m);
    Rng.MultipleMod(m, x / m);
  }

  /** The negation of a multiple is a multiple. */
  lemma NegateMultiple(y: int, m: int)
    requires m > 0 && y % m == 0
    ensures (-y) % m == 0
  {
    var k := y / m;
    assert y == m * k;
    assert -y == m * (-k);
    Rng.MultipleMod(m, -k);
  }

  /** `String(v)` for the numbers the answer can show. */
  function NumberText(v: JsValue): string {
    match v
    case Number(n) => IntToString(n)
    case NaN => "NaN"
    case Infinity(negative) => if negative then "-Infinity" else "Infinity"
    case _ => ""
  }

  /** The answer line: the quotient alone when `remainder === 0`, else with the remainder. */
  function AnswerText(divisor: int, dividend: int): string {
    var quotient := FloorQuotient(dividend, divisor);
    var remainder := TruncRemainder(dividend, divisor);
    if remainder == Number(0) then "The answer is: " + NumberText(quotient)
    else "The answer is: " + NumberText(quotient) + " with remainder " + NumberText(remainder)
  }

  /** The back side's answer for a card whose unique id is `uniqueId`. */
  function BackAnswer(store: map<string, string>, uniqueId: string): string {
    var uniquePart := Trim(uniqueId);
    var (divisor, dividend) := Operands(StoredInt(store, DIVISOR_KEY_PREFIX + uniquePart),
                                        StoredInt(store, DIVIDEND_KEY_PREFIX + uniquePart));
    AnswerText(divisor, dividend)
  }

  /**
   * For a non-negative dividend and a positive divisor the two operators agree with long
   * division: `quotient * divisor + remainder == dividend` and `0 <= remainder < divisor`.
   */
  lemma DivisionIdentity(divisor: int, dividend: int)
    requires divisor > 0 && dividend >= 0
    ensures var q, r := FloorQuotient(dividend, divisor), TruncRemainder(dividend, divisor);
      q.Number? && r.Number? && q.n * divisor + r.n == dividend && 0 <= r.n < divisor
  {
  }

  /** A division without remainder shows the quotient alone. */
  lemma ExactAnswerText(divisor: int, dividend: int)
    requires divisor > 0 && dividend >= 0 && dividend % divisor == 0
    ensures AnswerText(divisor, dividend) == "The answer is: " + IntToString(dividend / divisor)
  {
  }

  /** A division with a remainder names both numbers. */
  lemma RemainderAnswerText(divisor: int, dividend: int)
    requires divisor > 0 && dividend >= 0 && dividend % divisor != 0
    ensures AnswerText(divisor, dividend)
      == "The answer is: " + IntToString(dividend / divisor) + " with remainder " + IntToString(dividend % divisor)
  {
  }

  /** 7543 divided by 23 is 327 with remainder 22. */
  lemma Example7543By23()
    ensures AnswerText(23, 7543) == "The answer is: 327 with remainder 22"
  {
    assert AnswerText(23, 7543) == "The answer is: " + IntToString(327) + " with remainder " + IntToString(22) by {
      assert 7543 / 23 == 327 && 7543 % 23 == 22;
      RemainderAnswerText(23, 7543);
    }
    Numerals327And22();
  }

  lemma Numerals327And22()
    ensures IntToString(327) == "327" && IntToString(22) == "22"
  {
    assert NatToString(32) == NatToString(3) + [DigitChar(2)];
    assert NatToString(327) == NatToString(32) + [DigitChar(7)];
    assert NatToString(22) == NatToString(2) + [DigitChar(2)];
  }

  /** When either stored value is missing, the back side shows 1000 divided by 10. */
  lemma MissingValueFallback(store: map<string, string>, uniqueId: string)
    requires DIVISOR_KEY_PREFIX + Trim(uniqueId) !in store
    ensures BackAnswer(store, uniqueId) == "The answer is: 100"
  {
    FallbackText();
  }

  lemma FallbackText()
    ensures AnswerText(FALLBACK_DIVISOR, FALLBACK_DIVIDEND) == "The answer is: 100"
  {
    assert FloorQuotient(1000, 10) == Number(100);
    assert TruncRemainder(1000, 10) == Number(0);
    assert IntToString(100) == "100" by {
      assert NatToString(1) == "1";
      assert NatToString(10) == NatToString(1) + [DigitChar(0)];
      assert NatToString(100) == NatToString(10) + [DigitChar(0)];
    }
  }
}

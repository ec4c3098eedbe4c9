/**
 * The least-common-multiple template (src/templates/number_theory/lcm_basic.js): two or
 * three operands of 1 to 3 digits, biased toward a shared prime factor, their lcm kept
 * under a cap, and the lcm as the answer.
 */
module LcmBasic {
  import opened Wrappers
  import opened Js
  import opened Rng
  import opened Cards

  const ID: string := "number_theory/lcm_basic"

  /** `meta.defaults.digits`. */
  const DEFAULT_DIGITS: JsValue := Array([Number(1), Number(2)])

  /** `meta.defaults.lcmCap`. */
  const DEFAULT_CAP: int := 5000

  const SMALL_PRIMES: seq<int> := [2, 3, 5, 7]

  const ATTEMPTS: nat := 40

  const CAP_WARNING: string := "LCM exceeded cap; generation fell back to last sample"

  const COPRIME_WARNING: string := "operands likely coprime; LCM equals product for pairs"

  /**
   * `normalizeDigitsCfg(cfgDigits)`: a non-empty array keeps its entries 1, 2 and 3
   * (possibly none), a scalar 1, 2 or 3 is a one-element list, anything else is [1, 2].
   */
  function NormalizeDigits(cfgDigits: JsValue): (r: seq<int>)
    ensures forall d :: d in r ==> 1 <= d <= 3
    ensures cfgDigits.Array? && |cfgDigits.items| > 0 ==>
      forall d :: d in r <==> Number(d) in cfgDigits.items && 1 <= d <= 3
    ensures cfgDigits.Array? && |cfgDigits.items| > 0 ==> r == NumbersIn(cfgDigits.items, {1, 2, 3})
    ensures cfgDigits.Number? && 1 <= cfgDigits.n <= 3 ==> r == [cfgDigits.n]
    ensures (!(cfgDigits.Array? && |cfgDigits.items| > 0) && !(cfgDigits.Number? && 1 <= cfgDigits.n <= 3))
      ==> r == [1, 2]
  {
    if cfgDigits.Array? && |cfgDigits.items| > 0 then NumbersIn(cfgDigits.items, {1, 2, 3})
    else if cfgDigits.Number? && 1 <= cfgDigits.n <= 3 then [cfgDigits.n]
    else [1, 2]
  }

  /** `rangeFromDigits(d)`: 1 → [2, 9], 2 → [10, 99], 3 → [100, 999], anything else [2, 9]. */
  function RangeFromDigits(d: int): (r: (int, int)) {
    if d == 2 then (10, 99) else if d == 3 then (100, 999) else (2, 9)
  }

  /** The digit count a range of `rangeFromDigits` stands for. */
  function DigitCount(d: int): nat {
    if d == 2 then 2 else if d == 3 then 3 else 1
  }

  /**
   * Every number of `rangeFromDigits(d)` has `DigitCount(d)` digits; for 2 and 3 the range
   * holds all such numbers, for 1 all but 0 and 1.
   */
  lemma RangeFromDigitsIsDigitCount(d: int)
    ensures 2 <= RangeFromDigits(d).0 <= RangeFromDigits(d).1
    ensures RangeFromDigits(d).1 == Pow10(DigitCount(d)) - 1
    ensures DigitCount(d) > 1 ==> RangeFromDigits(d).0 == Pow10(DigitCount(d) - 1)
    ensures forall n: nat :: RangeFromDigits(d).0 <= n <= RangeFromDigits(d).1 ==>
      |NatToString(n)| == DigitCount(d)
  {
    assert Pow10(1) == 10 && Pow10(2) == 100 && Pow10(3) == 1000;
    forall n: nat | RangeFromDigits(d).0 <= n <= RangeFromDigits(d).1
      ensures |NatToString(n)| == DigitCount(d)
    {
      NumeralLength(n, DigitCount(d));
    }
  }

  /** `config.range && typeof config.range === "object"`. */
  predicate RangeGiven(config: Config) {
    Truthy(Prop(config, "range")) && IsObjectType(Prop(config, "range"))
  }

  /**
   * The bounds `genOperands` samples from, once the digit count `d` is drawn: a numeric
   * `range.min` gives `max(2, min | 0)`, a numeric `range.max` gives `max | 0`, and each
   * bound that is not given comes from `rangeFromDigits(d)`.
   */
  function ResolveRange(config: Config, d: int): (r: (int, int))
    ensures 2 <= r.0 && r.1 <= INT32_MAX
    ensures var lo := Field(Prop(config, "range"), "min");
      && (RangeGiven(config) && IsNumberType(lo) ==> r.0 == Max(2, ToInt32Value(lo)))
      && (!(RangeGiven(config) && IsNumberType(lo)) ==> r.0 == RangeFromDigits(d).0)
    ensures var hi := Field(Prop(config, "range"), "max");
      && (RangeGiven(config) && IsNumberType(hi) ==> r.1 == ToInt32Value(hi))
      && (!(RangeGiven(config) && IsNumberType(hi)) ==> r.1 == RangeFromDigits(d).1)
  {
    var range := Prop(config, "range");
    var base := RangeFromDigits(d);
    var min := if RangeGiven(config) && IsNumberType(Field(range, "min"))
      then Max(2, ToInt32Value(Field(range, "min"))) else base.0;
    var max := if RangeGiven(config) && IsNumberType(Field(range, "max"))
      then ToInt32Value(Field(range, "max")) else base.1;
    (min, max)
  }

  /** `config.ensureNonTrivial !== false`. */
  predicate EnsureNonTrivial(config: Config) {
    Prop(config, "ensureNonTrivial") != Boolean(false)
  }

  /** `config.count === 3 ? 3 : 2`. */
  function Count(config: Config): (n: nat)
    ensures n == 2 || n == 3
    ensures n == 3 <==> Prop(config, "count") == Number(3)
  {
    if Prop(config, "count") == Number(3) then 3 else 2
  }

  /** The cap on the answer: `max(1, lcmCap | 0)` for a numeric `lcmCap`, else 5000. */
  function Cap(config: Config): (c: int)
    ensures 1 <= c <= INT32_MAX
    ensures IsNumberType(Prop(config, "lcmCap")) ==> c == Max(1, ToInt32Value(Prop(config, "lcmCap")))
    ensures !IsNumberType(Prop(config, "lcmCap")) ==> c == DEFAULT_CAP
  {
    var v := Prop(config, "lcmCap");
    if IsNumberType(v) then Max(1, ToInt32Value(v)) else DEFAULT_CAP
  }

  /** `let ans = ops[0]; for (k = 1 ..) ans = lcm(ans, ops[k])`: the left fold of `lcm`. */
  function FoldLcm(ops: seq<int>): int
    requires |ops| > 0
  {
    if |ops| == 1 then ops[0] else Lcm(FoldLcm(ops[..|ops| - 1]), ops[|ops| - 1])
  }

  /** The loop that folds `lcm` over the operands. */
  method LcmOf(ops: seq<int>) returns (ans: int)
    requires |ops| > 0
    ensures ans == FoldLcm(ops)
  {
    ans := ops[0];
    var k := 1;
    while k < |ops|
      invariant 1 <= k <= |ops|
      invariant ans == FoldLcm(ops[..k])
    {
      assert ops[..k + 1][..k] == ops[..k];
      ans := Lcm(ans, ops[k]);
      k := k + 1;
    }
    assert ops[..k] == ops;
  }

  /**
   * For two or three operands in [2, INT32_MAX] whose first lcm stays a 32-bit value, the
   * fold is a positive common multiple of all of them, and for two operands it times their
   * gcd is their product.
   */
  lemma FoldDivides(ops: seq<int>)
    requires 2 <= |ops| <= 3 && forall i :: 0 <= i < |ops| ==> 2 <= ops[i] <= INT32_MAX
    requires |ops| == 3 ==> Lcm(ops[0], ops[1]) <= INT32_MAX
    ensures FoldLcm(ops) >= 1
    ensures forall i :: 0 <= i < |ops| ==> FoldLcm(ops) % ops[i] == 0
    ensures |ops| == 2 ==> FoldLcm(ops) * GcdOf(ops[0], ops[1]) == ops[0] * ops[1]
    ensures |ops| == 2 ==> FoldLcm(ops) <= ops[0] * ops[1]
  {
    var a, b := ops[0], ops[1];
    assert ops[..2][..1] == [a];
    LcmProperties(a, b);
    var l := Lcm(a, b);
    assert FoldLcm(ops[..2]) == l;
    if |ops| == 2 {
      assert ops[..2] == ops;
    } else {
      var c := ops[2];
      assert ops[..2] == ops[..|ops| - 1];
      LcmProperties(l, c);
      DividesTransitive(a, l, Lcm(l, c));
      DividesTransitive(b, l, Lcm(l, c));
      assert forall i :: 0 <= i < 3 ==> Divides(ops[i], Lcm(l, c));
    }
  }

  /** Operands up to 46340 keep the first lcm a 32-bit value (46340^2 < 2^31). */
  lemma SmallOperandsFit(a: int, b: int)
    requires 2 <= a <= 46340 && 2 <= b <= 46340
    ensures Lcm(a, b) <= INT32_MAX
  {
    LcmProperties(a, b);
    MultiplyMonotone(a, 46340, b);
    MultiplyMonotone(b, 46340, 46340);
  }

  /** The operands of one attempt and their lcm. */
  datatype Operands = Operands(ops: seq<int>, ans: int)

  function OperandsOf(ops: seq<int>): Operands
    requires |ops| > 0
  {
    Operands(ops, FoldLcm(ops))
  }

  /** `ops.map((n) => (n < 2 ? 2 : n))`. */
  function RaiseToTwo(ops: seq<int>): (r: seq<int>)
    ensures |r| == |ops|
    ensures forall i :: 0 <= i < |r| ==> r[i] == AtLeastTwo(ops[i])
  {
    seq(|ops|, i requires 0 <= i < |ops| => AtLeastTwo(ops[i]))
  }

  /** `n` uniform draws in [min, max], in order. */
  function UniformOps(s: Stream, n: nat, min: int, max: int): (r: Drawn<seq<int>>)
    requires min <= max
    ensures |r.value| == n && forall i :: 0 <= i < n ==> min <= r.value[i] <= max
    decreases n
  {
    if n == 0 then Drawn([], s)
    else
      var d := RandInt(s, min, max).value;
      var rest := UniformOps(d.rest, n - 1, min, max);
      Drawn([d.value] + rest.value, rest.rest)
  }

  /**
   * A biased draw: a prime from SMALL_PRIMES, two multiples of it (each falling back to a
   * uniform draw) and, for three operands, a coin `rng() < 0.5` choosing between a third
   * multiple and a uniform third operand.
   */
  function BiasedOps(s: Stream, count: nat, min: int, max: int): (r: Drawn<seq<int>>)
    requires min <= max && (count == 2 || count == 3)
    ensures |r.value| == count && forall i :: 0 <= i < count ==> min <= r.value[i] <= max
  {
    var p := Choice(s, SMALL_PRIMES).value;
    var a := MultipleOrUniform(p.rest, p.value, min, max).value;
    var b := MultipleOrUniform(a.rest, p.value, min, max).value;
    if count == 3 then
      var coin := Coin(b.rest, ONE_HALF);
      var c := if coin.value then MultipleOrUniform(coin.rest, p.value, min, max).value
               else RandInt(coin.rest, min, max).value;
      Drawn([a.value, b.value, c.value], c.rest)
    else Drawn([a.value, b.value], b.rest)
  }

  /** Operands in [min, max], as many as `count`, with their lcm as the answer. */
  predicate SampleIn(count: nat, min: int, max: int, o: Operands) {
    && |o.ops| == count && count > 0
    && (forall i :: 0 <= i < count ==> min <= o.ops[i] <= max)
    && o.ans == FoldLcm(o.ops)
  }

  /**
   * One attempt of the loop of `genOperands`: with the bias on, a coin `rng() < 0.7`
   * chooses between biased and uniform operands; with it off, uniform operands and no
   * coin. The operands are raised to 2 and folded with `lcm`.
   */
  function Attempt(s: Stream, ensure: bool, count: nat, min: int, max: int)
    : (r: Result<Drawn<Operands>>)
    requires count == 2 || count == 3
    ensures r.Failure? <==> max < min
    ensures r.Failure? ==> r.error == "randInt: max < min"
    ensures r.Success? ==> SampleIn(count, Max(2, min), Max(2, max), r.value.value)
  {
    if max < min then Failure("randInt: max < min")
    else
      var d := if ensure && Coin(s, SEVEN_TENTHS).value then BiasedOps(Coin(s, SEVEN_TENTHS).rest, count, min, max)
               else UniformOps(if ensure then Coin(s, SEVEN_TENTHS).rest else s, count, min, max);
      var ops := RaiseToTwo(d.value);
      Success(Drawn(OperandsOf(ops), d.rest))
  }

  /** Some pair of operands has a common factor (the first two, or either with the third). */
  predicate NonTrivial(ops: seq<int>) {
    && |ops| >= 2
    && (GcdOf(ops[0], ops[1]) > 1
        || (|ops| == 3 && (GcdOf(ops[0], ops[2]) > 1 || GcdOf(ops[1], ops[2]) > 1)))
  }

  /** What ends the loop early: the answer is within the cap, and non-trivial if required. */
  predicate Accepted(ensure: bool, cap: int, o: Operands) {
    o.ans <= cap && (!ensure || NonTrivial(o.ops))
  }

  function AttemptOf(ensure: bool, count: nat, min: int, max: int): Stream -> Result<Drawn<Operands>>
    requires count == 2 || count == 3
  {
    t => Attempt(t, ensure, count, min, max)
  }

  function AcceptOf(ensure: bool, cap: int): Operands -> bool {
    o => Accepted(ensure, cap, o)
  }

  /** `genOperands(rng, config)` on the stream `s`. */
  function GeneratedOperands(s: Stream, config: Config): Result<Operands> {
    var d :- Choice(s, NormalizeDigits(Nullish(Prop(config, "digits"), DEFAULT_DIGITS)));
    var (min, max) := ResolveRange(config, d.value);
    var ensure := EnsureNonTrivial(config);
    Search(AttemptOf(ensure, Count(config), min, max), AcceptOf(ensure, Cap(config)), d.rest,
           ATTEMPTS, OperandsOf([2, 4]))
  }

  /**
   * `genOperands(rng, config)`: the digit count and the bounds, then the attempt loop.
   */
  method GenOperands(s: Stream, config: Config) returns (r: Result<Operands>)
    ensures r == GeneratedOperands(s, config)
  {
    var digits := Choice(s, NormalizeDigits(Nullish(Prop(config, "digits"), DEFAULT_DIGITS)));
    if digits.Failure? {
      return Failure(digits.error);
    }
    var (min, max) := ResolveRange(config, digits.value.value);
    r := AttemptLoop(digits.value.rest, EnsureNonTrivial(config), Count(config), min, max, Cap(config));
  }

  /**
   * The bounded attempt loop of `genOperands`, with `lastOps` updated on each attempt and
   * the fallback answer folded by a loop.
   */
  method AttemptLoop(t0: Stream, ensure: bool, count: nat, min: int, max: int, cap: int)
    returns (r: Result<Operands>)
    requires count == 2 || count == 3
    ensures r == Search(AttemptOf(ensure, count, min, max), AcceptOf(ensure, cap), t0, ATTEMPTS,
                        OperandsOf([2, 4]))
  {
    ghost var goal := Search(AttemptOf(ensure, count, min, max), AcceptOf(ensure, cap), t0, ATTEMPTS,
                             OperandsOf([2, 4]));
    var t := t0;
    var lastOps := [2, 4];
    var i := 0;
    while i < ATTEMPTS
      invariant 0 <= i <= ATTEMPTS && |lastOps| > 0
      invariant Search(AttemptOf(ensure, count, min, max), AcceptOf(ensure, cap), t, ATTEMPTS - i,
                       OperandsOf(lastOps)) == goal
    {
      var d, done := RunAttempt(t, ensure, count, min, max, cap);
      AttemptStep(t, ensure, count, min, max, cap, ATTEMPTS - i, lastOps);
      if d.Failure? {
        return Failure(d.error);
      }
      lastOps := d.value.value.ops;
      if done {
        return Success(d.value.value);
      }
      t := d.value.rest;
      i := i + 1;
    }
    var ans := LcmOf(lastOps);
    r := Success(Operands(lastOps, ans));
  }

  /** How one attempt moves the loop on: a failure ends it, an accepted sample is returned. */
  lemma AttemptStep(t: Stream, ensure: bool, count: nat, min: int, max: int, cap: int, n: nat,
                    last: seq<int>)
    requires (count == 2 || count == 3) && n > 0 && |last| > 0
    ensures var d := Attempt(t, ensure, count, min, max);
      var search := Search(AttemptOf(ensure, count, min, max), AcceptOf(ensure, cap), t, n, OperandsOf(last));
      && (d.Failure? ==> search == Failure(d.error))
      && (d.Success? ==>
          && |d.value.value.ops| > 0 && OperandsOf(d.value.value.ops) == d.value.value
          && search == if Accepted(ensure, cap, d.value.value) then Success(d.value.value)
                       else Search(AttemptOf(ensure, count, min, max), AcceptOf(ensure, cap), d.value.rest,
                                   n - 1, OperandsOf(d.value.value.ops)))
  {
    var attempt, accept := AttemptOf(ensure, count, min, max), AcceptOf(ensure, cap);
    var d := Attempt(t, ensure, count, min, max);
    assert attempt(t) == d;
    if d.Failure? {
      SearchFails(attempt, accept, t, n, OperandsOf(last));
    } else {
      SearchStep(attempt, accept, t, n, OperandsOf(last));
      assert accept(d.value.value) == Accepted(ensure, cap, d.value.value);
    }
  }

  /**
   * One pass of the loop body: the draws of `Attempt`, the operands raised to 2, the lcm
   * folded by `LcmOf` and the acceptance test.
   */
  method RunAttempt(t: Stream, ensure: bool, count: nat, min: int, max: int, cap: int)
    returns (d: Result<Drawn<Operands>>, done: bool)
    requires count == 2 || count == 3
    ensures d == Attempt(t, ensure, count, min, max)
    ensures d.Success? ==> done == Accepted(ensure, cap, d.value.value)
  {
    if max < min {
      return Failure("randInt: max < min"), false;
    }
    var drawn := if ensure && Coin(t, SEVEN_TENTHS).value then BiasedOps(Coin(t, SEVEN_TENTHS).rest, count, min, max)
                 else UniformOps(if ensure then Coin(t, SEVEN_TENTHS).rest else t, count, min, max);
    var ops := RaiseToTwo(drawn.value);
    var ans := LcmOf(ops);
    done := Accepts(ensure, cap, ops, ans);
    d := Success(Drawn(Operands(ops, ans), drawn.rest));
  }

  /** The acceptance test of one attempt, with the gcds computed by `gcd`. */
  method Accepts(ensure: bool, cap: int, ops: seq<int>, ans: int) returns (done: bool)
    requires |ops| >= 2
    ensures done == Accepted(ensure, cap, Operands(ops, ans))
  {
    if ans > cap {
      return false;
    }
    var g01 := Gcd(ops[0], ops[1]);
    var nonTrivial := g01 > 1;
    if !nonTrivial && |ops| == 3 {
      var g02 := Gcd(ops[0], ops[2]);
      var g12 := Gcd(ops[1], ops[2]);
      nonTrivial := g02 > 1 || g12 > 1;
    }
    done := !ensure || nonTrivial;
  }

  /**
   * The loop returns sample `k` of its 40 attempts, where `k` is the position
   * `FirstAccepted` picks (see `FirstAcceptedOperands`).
   */
  lemma LoopReturnsFirstAccepted(s: Stream, ensure: bool, count: nat, min: int, max: int,
                                 cap: int, last: Operands)
    requires min <= max && (count == 2 || count == 3)
    ensures var xs := Samples(AttemptOf(ensure, count, min, max), s, ATTEMPTS);
      Search(AttemptOf(ensure, count, min, max), AcceptOf(ensure, cap), s, ATTEMPTS, last)
        == Success(xs[FirstAccepted(AcceptOf(ensure, cap), xs)])
  {
    assert forall t :: AttemptOf(ensure, count, min, max)(t).Success?;
    SearchReturnsFirstAccepted(AttemptOf(ensure, count, min, max), AcceptOf(ensure, cap), s, ATTEMPTS, last);
  }

  /**
   * The position `FirstAccepted` picks among samples is the first whose answer is within
   * the cap (and non-trivial when required), or the last one when none qualifies.
   */
  lemma FirstAcceptedOperands(xs: seq<Operands>, ensure: bool, cap: int)
    requires |xs| > 0
    ensures var k := FirstAccepted(AcceptOf(ensure, cap), xs);
      && (forall j :: 0 <= j < k ==> !Accepted(ensure, cap, xs[j]))
      && (Accepted(ensure, cap, xs[k]) || k == |xs| - 1)
  {
    var accept := AcceptOf(ensure, cap);
    FirstAcceptedIsFirst(accept, xs);
    var k := FirstAccepted(accept, xs);
    forall j | 0 <= j < k
      ensures !Accepted(ensure, cap, xs[j])
    {
      assert !accept(xs[j]);
    }
    assert accept(xs[k]) == Accepted(ensure, cap, xs[k]);
  }

  /** Whatever the loop returns has `count` operands in the bounds and their lcm fold. */
  lemma SearchInRange(s: Stream, ensure: bool, count: nat, min: int, max: int, cap: int,
                      last: Operands)
    requires 2 <= min <= max && (count == 2 || count == 3)
    ensures var r := Search(AttemptOf(ensure, count, min, max), AcceptOf(ensure, cap), s, ATTEMPTS, last);
      r.Success? && SampleIn(count, min, max, r.value)
  {
    var holds := (o: Operands) => SampleIn(count, min, max, o);
    assert forall t ::
      AttemptOf(ensure, count, min, max)(t).Success? && holds(AttemptOf(ensure, count, min, max)(t).value.value);
    SearchKeeps(AttemptOf(ensure, count, min, max), AcceptOf(ensure, cap), s, ATTEMPTS, last, holds);
  }

  /**
   * `genOperands` fails only when `choice` finds no digit count (a non-empty `digits`
   * array without 1, 2 or 3) or the bounds are empty; otherwise it returns `count`
   * operands of at least 2 in the bounds and their lcm fold.
   */
  lemma GeneratedOperandsShape(s: Stream, config: Config)
    ensures var digits := NormalizeDigits(Nullish(Prop(config, "digits"), DEFAULT_DIGITS));
      var r := GeneratedOperands(s, config);
      && (digits == [] ==> r == Failure("choice: empty array"))
      && (digits != [] ==>
          var (min, max) := ResolveRange(config, Choice(s, digits).value.value);
          && (r.Failure? <==> max < min)
          && (r.Failure? ==> r.error == "randInt: max < min")
          && (r.Success? ==> SampleIn(Count(config), min, max, r.value)))
  {
    var digits := NormalizeDigits(Nullish(Prop(config, "digits"), DEFAULT_DIGITS));
    if digits != [] {
      var d := Choice(s, digits).value;
      var (min, max) := ResolveRange(config, d.value);
      var ensure := EnsureNonTrivial(config);
      if min <= max {
        SearchInRange(d.rest, ensure, Count(config), min, max, Cap(config), OperandsOf([2, 4]));
      } else {
        SearchFails(AttemptOf(ensure, Count(config), min, max), AcceptOf(ensure, Cap(config)), d.rest,
                    ATTEMPTS, OperandsOf([2, 4]));
      }
    }
  }

  /**
   * With operands up to 46340 (every digit count gives at most 999), each operand divides
   * the answer, and for two operands the answer times their gcd is their product.
   */
  lemma AnswerIsCommonMultiple(s: Stream, config: Config)
    requires GeneratedOperands(s, config).Success?
    requires forall i :: 0 <= i < |GeneratedOperands(s, config).value.ops| ==>
      GeneratedOperands(s, config).value.ops[i] <= 46340
    ensures var o := GeneratedOperands(s, config).value;
      && |o.ops| == Count(config) && o.ans == FoldLcm(o.ops) && o.ans >= 1
      && (forall i :: 0 <= i < |o.ops| ==> o.ops[i] >= 2 && o.ans % o.ops[i] == 0)
      && (|o.ops| == 2 ==> o.ans * GcdOf(o.ops[0], o.ops[1]) == o.ops[0] * o.ops[1])
  {
    GeneratedOperandsShape(s, config);
    var o := GeneratedOperands(s, config).value;
    SmallOperandsFit(o.ops[0], o.ops[1]);
    FoldDivides(o.ops);
  }

  /** The defaults: digit counts [1, 2], two operands, the bias on and a cap of 5000. */
  lemma DefaultSettings()
    ensures NormalizeDigits(Nullish(Prop(map[], "digits"), DEFAULT_DIGITS)) == [1, 2]
    ensures Count(map[]) == 2 && Cap(map[]) == DEFAULT_CAP && EnsureNonTrivial(map[])
  {
    assert NumbersIn([Number(1), Number(2)], {1, 2, 3}) == [1, 2];
  }

  /**
   * With the default config, generation succeeds with two 1-digit operands (from 2) or two
   * 2-digit operands, both dividing the answer, whose product is answer times gcd.
   */
  lemma DefaultConfigOperands(s: Stream)
    ensures GeneratedOperands(s, map[]).Success?
    ensures var o := GeneratedOperands(s, map[]).value;
      && |o.ops| == 2
      && ((2 <= o.ops[0] <= 9 && 2 <= o.ops[1] <= 9) || (10 <= o.ops[0] <= 99 && 10 <= o.ops[1] <= 99))
      && o.ans >= 1 && o.ans % o.ops[0] == 0 && o.ans % o.ops[1] == 0
      && o.ans * GcdOf(o.ops[0], o.ops[1]) == o.ops[0] * o.ops[1]
  {
    DefaultSettings();
    var d := Choice(s, [1, 2]).value;
    var range := ResolveRange(map[], d.value);
    assert range == RangeFromDigits(d.value);
    GeneratedOperandsShape(s, map[]);
    AnswerIsCommonMultiple(s, map[]);
  }

  /** The question of a card: the operands joined by ", ", then `answer`. */
  function Question(ops: seq<int>, answer: string): string {
    "<div class=\"q\">LCM(" + Join(Numerals(ops), ", ") + ") = " + answer + "</div>"
  }

  /** `String(n)` of each operand, in order. */
  function Numerals(ops: seq<int>): (r: seq<string>)
    ensures |r| == |ops|
    ensures forall i :: 0 <= i < |ops| ==> r[i] == IntToString(ops[i])
  {
    seq(|ops|, i requires 0 <= i < |ops| => IntToString(ops[i]))
  }

  /** Each numeral shown reads back as its operand. */
  lemma NumeralsReadBack(ops: seq<int>)
    ensures forall i :: 0 <= i < |ops| ==> StringToInteger(Numerals(ops)[i]) == Some(ops[i])
  {
    forall i | 0 <= i < |ops|
      ensures StringToInteger(Numerals(ops)[i]) == Some(ops[i])
    {
      StringToIntegerOfIntToString(ops[i]);
    }
  }

  /** What `generate` returns: the html and `{ operands, answer }`. */
  datatype LcmCard = LcmCard(html: string, operands: seq<int>, answer: int)

  /** `generate({ seed, config, side })`. */
  function Generate(seed: JsValue, config: Config, side: JsValue): Result<LcmCard> {
    if !IsNumberType(seed) then Failure(SEED_REQUIRED)
    else
      var o :- GeneratedOperands(SeedStream(seed), config);
      if !IsBack(side) then Success(LcmCard(Question(o.ops, "?"), o.ops, o.ans))
      else Success(LcmCard(Question(o.ops, "<b>" + IntToString(o.ans) + "</b>"), o.ops, o.ans))
  }

  /** A seed that is not a number is rejected before any draw. */
  lemma SeedRequired(seed: JsValue, config: Config, side: JsValue)
    requires !IsNumberType(seed)
    ensures Generate(seed, config, side) == Failure(SEED_REQUIRED)
  {
  }

  /**
   * Front and back come from the same operands and fail together: both carry the operands
   * and the answer, the front asks `LCM(x, y[, z]) = ?` and the back shows the answer in
   * bold in the same place.
   */
  lemma FrontBackParity(seed: JsValue, config: Config)
    requires IsNumberType(seed)
    ensures var r := GeneratedOperands(SeedStream(seed), config);
      var front := Generate(seed, config, Str("front"));
      var back := Generate(seed, config, Str("back"));
      && (r.Failure? ==> front == back == Failure(r.error))
      && (r.Success? ==>
          && front == Success(LcmCard(Question(r.value.ops, "?"), r.value.ops, r.value.ans))
          && back == Success(LcmCard(Question(r.value.ops, "<b>" + IntToString(r.value.ans) + "</b>"),
                                     r.value.ops, r.value.ans))
          && (2 <= |r.value.ops| <= 3))
  {
    GeneratedOperandsShape(SeedStream(seed), config);
  }

  /** `ans % n === 0` for every operand `n` (the remainder test fails on `n == 0`). */
  predicate EachDivides(o: Operands) {
    forall k :: 0 <= k < |o.ops| ==> o.ops[k] != 0 && o.ans % o.ops[k] == 0
  }

  /** The pairwise test of `validate`, made when `config.count | 0` is not 3. */
  predicate PairwiseHolds(config: Config, o: Operands) {
    || ToInt32Value(Prop(config, "count")) == 3 || |o.ops| < 2
    || !(o.ops[0] > 0 && o.ops[1] > 0)
    || o.ans * GcdOf(o.ops[0], o.ops[1]) == o.ops[0] * o.ops[1]
  }

  /** The warnings of `validate`, in order: the cap first, then the coprime operands. */
  function Warnings(config: Config, o: Operands): (w: seq<string>)
    ensures CAP_WARNING in w <==> o.ans > Cap(config)
    ensures COPRIME_WARNING in w <==> EnsureNonTrivial(config) && !NonTrivial(o.ops)
  {
    (if o.ans > Cap(config) then [CAP_WARNING] else [])
    + (if EnsureNonTrivial(config) && !NonTrivial(o.ops) then [COPRIME_WARNING] else [])
  }

  /** `validate({ seed, config })`. */
  function Validate(seed: JsValue, config: Config): Report {
    match GeneratedOperands(SeedStream(seed), config)
    case Failure(e) => Crash([e])
    case Success(o) => Report(EachDivides(o) && PairwiseHolds(config, o), Warnings(config, o))
  }

  /**
   * With operands up to 46340, the checks of `validate` pass on whatever generation
   * returns.
   */
  lemma GeneratedPassesChecks(s: Stream, config: Config)
    requires GeneratedOperands(s, config).Success?
    requires forall i :: 0 <= i < |GeneratedOperands(s, config).value.ops| ==>
      GeneratedOperands(s, config).value.ops[i] <= 46340
    ensures EachDivides(GeneratedOperands(s, config).value)
    ensures PairwiseHolds(config, GeneratedOperands(s, config).value)
  {
    AnswerIsCommonMultiple(s, config);
    GeneratedOperandsShape(s, config);
  }

  /**
   * `validate` reports the generation error when generation fails; otherwise it warns
   * about the cap exactly when the answer exceeds it (which only the fallback sample can
   * do) and about coprime operands exactly when the bias was asked for and missed, and
   * with operands up to 46340 it reports ok.
   */
  lemma ValidateAccepts(seed: JsValue, config: Config)
    ensures var r := GeneratedOperands(SeedStream(seed), config);
      && (r.Failure? ==> Validate(seed, config) == Crash([r.error]))
      && (r.Success? ==> Validate(seed, config) == Report(Validate(seed, config).ok, Warnings(config, r.value)))
      && ((r.Success? && forall i :: 0 <= i < |r.value.ops| ==> r.value.ops[i] <= 46340) ==>
          Validate(seed, config).ok)
  {
    var r := GeneratedOperands(SeedStream(seed), config);
    if r.Success? && forall i :: 0 <= i < |r.value.ops| ==> r.value.ops[i] <= 46340 {
      GeneratedPassesChecks(SeedStream(seed), config);
    }
  }
}

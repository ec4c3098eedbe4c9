/**
 * The greatest-common-factor template (src/templates/number_theory/gcf_basic.js): a pair of
 * 2- or 3-digit operands, biased toward a common prime factor, and their gcd as the answer.
 */
module GcfBasic {
  import opened Wrappers
  import opened Js
  import opened Rng
  import opened Cards

  const ID: string := "number_theory/gcf_basic"

  /** `meta.defaults.digits`. */
  const DEFAULT_DIGITS: JsValue := Array([Number(2), Number(3)])

  /** The primes a biased attempt draws its shared factor from. */
  const SMALL_PRIMES: seq<int> := [2, 3, 5, 7]

  const ATTEMPTS: nat := 20

  const WARNING: string := "gcf is 1 despite ensureNonTrivial bias"

  /**
   * `normalizeDigitsCfg(cfgDigits)`: a non-empty array keeps its entries 2 and 3 (possibly
   * none), a scalar 2 or 3 is a one-element list, anything else is [2, 3].
   */
  function NormalizeDigits(cfgDigits: JsValue): (r: seq<int>)
    ensures forall d :: d in r ==> d == 2 || d == 3
    ensures cfgDigits.Array? && |cfgDigits.items| > 0 ==>
      forall d :: d in r <==> Number(d) in cfgDigits.items && (d == 2 || d == 3)
    ensures cfgDigits.Array? && |cfgDigits.items| > 0 ==> r == NumbersIn(cfgDigits.items, {2, 3})
    ensures cfgDigits == Number(2) || cfgDigits == Number(3) ==> r == [cfgDigits.n]
    ensures (!(cfgDigits.Array? && |cfgDigits.items| > 0) && cfgDigits != Number(2)
             && cfgDigits != Number(3)) ==> r == [2, 3]
  {
    if cfgDigits.Array? && |cfgDigits.items| > 0 then NumbersIn(cfgDigits.items, {2, 3})
    else if cfgDigits == Number(2) || cfgDigits == Number(3) then [cfgDigits.n]
    else [2, 3]
  }

  /** `rangeFromDigits(d)`: 3 selects [100, 999]; 2 and everything else select [10, 99]. */
  function RangeFromDigits(d: int): (r: (int, int)) {
    if d == 3 then (100, 999) else (10, 99)
  }

  /** The digit count a range of `rangeFromDigits` stands for. */
  function DigitCount(d: int): nat {
    if d == 3 then 3 else 2
  }

  /** `rangeFromDigits(d)` is exactly the numbers with `DigitCount(d)` decimal digits. */
  lemma RangeFromDigitsIsDigitCount(d: int)
    ensures RangeFromDigits(d) == (Pow10(DigitCount(d) - 1), Pow10(DigitCount(d)) - 1)
    ensures forall n: nat :: RangeFromDigits(d).0 <= n <= RangeFromDigits(d).1 ==>
      |NatToString(n)| == DigitCount(d)
  {
    var k := DigitCount(d);
    assert Pow10(2) == 100 && Pow10(3) == 1000;
    forall n: nat | RangeFromDigits(d).0 <= n <= RangeFromDigits(d).1
      ensures |NatToString(n)| == k
    {
      NumeralLength(n, k);
    }
  }

  /** `config.range && typeof config.range === "object"`. */
  predicate RangeGiven(config: Config) {
    Truthy(Prop(config, "range")) && IsObjectType(Prop(config, "range"))
  }

  /**
   * The bounds `generatePair` samples from, once the digit count `d` is drawn: a range
   * object gives `max(2, (min | 0) || 2)` and `(max | 0) || (d === 3 ? 999 : 99)`; without
   * one, `rangeFromDigits(d)`.
   */
  function ResolveRange(config: Config, d: int): (r: (int, int))
    ensures 2 <= r.0 && r.1 <= INT32_MAX
    ensures !RangeGiven(config) ==> r == RangeFromDigits(d)
    ensures RangeGiven(config) ==>
      var lo := ToInt32Value(Field(Prop(config, "range"), "min"));
      var hi := ToInt32Value(Field(Prop(config, "range"), "max"));
      && (lo != 0 ==> r.0 == Max(2, lo)) && (lo == 0 ==> r.0 == 2)
      && (hi != 0 ==> r.1 == hi) && (hi == 0 ==> r.1 == RangeFromDigits(d).1)
  {
    if RangeGiven(config) then
      var range := Prop(config, "range");
      var lo := ToInt32Value(Field(range, "min"));
      var hi := ToInt32Value(Field(range, "max"));
      (Max(2, if lo != 0 then lo else 2), if hi != 0 then hi else if d == 3 then 999 else 99)
    else RangeFromDigits(d)
  }

  /** `config.ensureNonTrivial !== false`: the bias is on unless switched off explicitly. */
  predicate EnsureNonTrivial(config: Config) {
    Prop(config, "ensureNonTrivial") != Boolean(false)
  }

  /** The operands of one attempt and their gcd. */
  datatype Pair = Pair(a: int, b: int, g: int)

  function PairOf(a: int, b: int): Pair {
    Pair(a, b, GcdOf(a, b))
  }

  /** A sample whose operands lie in [min, max] and whose `g` is their gcd. */
  predicate SampleIn(min: int, max: int, p: Pair) {
    min <= p.a <= max && min <= p.b <= max && p == PairOf(p.a, p.b)
  }

  /** Two uniform draws in [min, max], each raised to 2. */
  function UniformPair(s: Stream, min: int, max: int): (r: Drawn<Pair>)
    requires min <= max
    ensures SampleIn(Max(2, min), Max(2, max), r.value)
  {
    var a := RandInt(s, min, max).value;
    var b := RandInt(a.rest, min, max).value;
    Drawn(PairOf(AtLeastTwo(a.value), AtLeastTwo(b.value)), b.rest)
  }

  /**
   * A prime drawn from SMALL_PRIMES and two multiples of it in [min, max], each falling
   * back to a uniform draw, each raised to 2.
   */
  function BiasedPair(s: Stream, min: int, max: int): (r: Drawn<Pair>)
    requires min <= max
    ensures SampleIn(Max(2, min), Max(2, max), r.value)
  {
    var p := Choice(s, SMALL_PRIMES).value;
    var a := MultipleOrUniform(p.rest, p.value, min, max).value;
    var b := MultipleOrUniform(a.rest, p.value, min, max).value;
    Drawn(PairOf(AtLeastTwo(a.value), AtLeastTwo(b.value)), b.rest)
  }

  /**
   * One attempt of the loop of `generatePair`: with the bias on, a coin `rng() < 0.7`
   * chooses between a biased and a uniform pair; with it off, a uniform pair and no coin.
   * `randInt` throws on empty bounds.
   */
  function Attempt(s: Stream, ensure: bool, min: int, max: int): (r: Result<Drawn<Pair>>)
    ensures r.Failure? <==> max < min
    ensures r.Failure? ==> r.error == "randInt: max < min"
    ensures r.Success? ==> SampleIn(Max(2, min), Max(2, max), r.value.value)
  {
    if max < min then Failure("randInt: max < min")
    else if ensure then
      var coin := Coin(s, SEVEN_TENTHS);
      Success(if coin.value then BiasedPair(coin.rest, min, max) else UniformPair(coin.rest, min, max))
    else Success(UniformPair(s, min, max))
  }

  /** One attempt as a step of the retry loop. */
  function AttemptOf(ensure: bool, min: int, max: int): Stream -> Result<Drawn<Pair>> {
    t => Attempt(t, ensure, min, max)
  }

  /** What ends the loop early: the bias is off, or the attempt has a common factor. */
  predicate Accepted(ensure: bool, p: Pair) {
    !ensure || p.g > 1
  }

  function AcceptOf(ensure: bool): Pair -> bool {
    p => Accepted(ensure, p)
  }

  /** `generatePair(rng, config)` on the stream `s`. */
  function GeneratedPair(s: Stream, config: Config): Result<Pair> {
    var d :- Choice(s, NormalizeDigits(Nullish(Prop(config, "digits"), DEFAULT_DIGITS)));
    var (min, max) := ResolveRange(config, d.value);
    var ensure := EnsureNonTrivial(config);
    Search(AttemptOf(ensure, min, max), AcceptOf(ensure), d.rest, ATTEMPTS, PairOf(12, 18))
  }

  /**
   * `generatePair(rng, config)`: the bounded attempt loop, with `lastA`/`lastB` updated on
   * each attempt and the gcd computed by `gcd`.
   */
  method GeneratePair(s: Stream, config: Config) returns (r: Result<Pair>)
    ensures r == GeneratedPair(s, config)
  {
    var digits := Choice(s, NormalizeDigits(Nullish(Prop(config, "digits"), DEFAULT_DIGITS)));
    if digits.Failure? {
      return Failure(digits.error);
    }
    var (min, max) := ResolveRange(config, digits.value.value);
    var ensure := EnsureNonTrivial(config);
    var t := digits.value.rest;
    var lastA, lastB := 12, 18;
    ghost var attempt, accept := AttemptOf(ensure, min, max), AcceptOf(ensure);
    assert GeneratedPair(s, config) == Search(attempt, accept, t, ATTEMPTS, PairOf(lastA, lastB));
    var i := 0;
    while i < ATTEMPTS
      invariant 0 <= i <= ATTEMPTS
      invariant Search(attempt, accept, t, ATTEMPTS - i, PairOf(lastA, lastB))
        == GeneratedPair(s, config)
    {
      var d := Attempt(t, ensure, min, max);
      assert attempt(t) == d;
      if d.Failure? {
        SearchFails(attempt, accept, t, ATTEMPTS - i, PairOf(lastA, lastB));
        return Failure(d.error);
      }
      SearchStep(attempt, accept, t, ATTEMPTS - i, PairOf(lastA, lastB));
      var a, b := d.value.value.a, d.value.value.b;
      var g := Gcd(a, b);
      assert d.value.value == Pair(a, b, g);
      assert accept(d.value.value) == (!ensure || g > 1);
      lastA, lastB := a, b;
      if !ensure || g > 1 {
        return Success(Pair(a, b, g));
      }
      t := d.value.rest;
      i := i + 1;
    }
    var g := Gcd(lastA, lastB);
    r := Success(Pair(lastA, lastB, g));
  }

  /**
   * Whatever the loop returns on bounds of at least 2 has its operands inside the bounds
   * and `g` as their gcd, a positive common divisor of both.
   */
  lemma SearchDivides(s: Stream, ensure: bool, min: int, max: int, last: Pair)
    requires 2 <= min <= max <= INT32_MAX
    ensures var r := Search(AttemptOf(ensure, min, max), AcceptOf(ensure), s, ATTEMPTS, last);
      && r.Success? && SampleIn(min, max, r.value)
      && r.value.g >= 1 && r.value.a % r.value.g == 0 && r.value.b % r.value.g == 0
  {
    var holds := (p: Pair) => SampleIn(min, max, p);
    assert forall t ::
      AttemptOf(ensure, min, max)(t).Success? && holds(AttemptOf(ensure, min, max)(t).value.value);
    SearchKeeps(AttemptOf(ensure, min, max), AcceptOf(ensure), s, ATTEMPTS, last, holds);
    var p := Search(AttemptOf(ensure, min, max), AcceptOf(ensure), s, ATTEMPTS, last).value;
    EuclidDivides(p.a, p.b);
    EuclidZero(p.a, p.b);
  }

  /**
   * The loop returns sample `k` of its 20 attempts, where `k` is the first sample with a
   * common factor, or the last sample when none has one; with `ensureNonTrivial: false`
   * it returns the first sample.
   */
  lemma SearchReturnsFirstNonTrivial(s: Stream, ensure: bool, min: int, max: int, last: Pair)
    requires min <= max
    ensures var xs := Samples(AttemptOf(ensure, min, max), s, ATTEMPTS);
      var k := FirstAccepted(AcceptOf(ensure), xs);
      && Search(AttemptOf(ensure, min, max), AcceptOf(ensure), s, ATTEMPTS, last) == Success(xs[k])
      && (!ensure ==> k == 0)
      && (ensure ==> (forall j :: 0 <= j < k ==> xs[j].g <= 1)
                     && (xs[k].g > 1 || k == ATTEMPTS - 1))
  {
    var attempt := AttemptOf(ensure, min, max);
    var accept := AcceptOf(ensure);
    assert forall t :: attempt(t).Success?;
    SearchReturnsFirstAccepted(attempt, accept, s, ATTEMPTS, last);
    var xs := Samples(attempt, s, ATTEMPTS);
    FirstAcceptedIsFirst(accept, xs);
    var k := FirstAccepted(accept, xs);
    forall j | 0 <= j < k
      ensures !Accepted(ensure, xs[j])
    {
      assert !accept(xs[j]);
    }
    assert accept(xs[k]) == Accepted(ensure, xs[k]);
  }

  /**
   * A biased attempt whose coin comes up heads on a range of at least 7 numbers draws two
   * multiples of the same prime, so its gcd is greater than 1 and the loop accepts it.
   */
  lemma BiasedAttemptNonTrivial(s: Stream, min: int, max: int)
    requires 2 <= min && max <= INT32_MAX && max - min + 1 >= 7
    requires Coin(s, SEVEN_TENTHS).value
    ensures Attempt(s, true, min, max).Success?
    ensures Attempt(s, true, min, max).value.value.g > 1
  {
    var rest := Coin(s, SEVEN_TENTHS).rest;
    var p := Choice(rest, SMALL_PRIMES).value;
    assert 2 <= p.value <= 7;
    var pa := PickMultipleOf(p.rest, p.value, min, max);
    var a := MultipleOrUniform(p.rest, p.value, min, max).value;
    var pb := PickMultipleOf(a.rest, p.value, min, max);
    var b := MultipleOrUniform(a.rest, p.value, min, max).value;
    assert IsMultiple(a.value, p.value) && IsMultiple(b.value, p.value);
    SharedDivisorGcd(a.value, b.value, p.value);
    assert BiasedPair(rest, min, max).value == PairOf(a.value, b.value);
  }

  /**
   * `choice` fails on the digit list (every entry of a non-empty `digits` array other than
   * 2 and 3), or `randInt` on the bounds (a range object with `max` below `min`): these
   * are the only ways `generatePair` fails.
   */
  lemma GeneratedPairFailure(s: Stream, config: Config)
    ensures var digits := NormalizeDigits(Nullish(Prop(config, "digits"), DEFAULT_DIGITS));
      var r := GeneratedPair(s, config);
      && (digits == [] ==> r == Failure("choice: empty array"))
      && (digits != [] ==>
          var (min, max) := ResolveRange(config, Choice(s, digits).value.value);
          (r.Failure? <==> max < min) && (r.Failure? ==> r.error == "randInt: max < min"))
  {
    var digits := NormalizeDigits(Nullish(Prop(config, "digits"), DEFAULT_DIGITS));
    if digits != [] {
      var (min, max) := ResolveRange(config, Choice(s, digits).value.value);
      var ensure := EnsureNonTrivial(config);
      if min <= max {
        SearchReturnsFirstNonTrivial(Choice(s, digits).value.rest, ensure, min, max, PairOf(12, 18));
      } else {
        SearchFails(AttemptOf(ensure, min, max), AcceptOf(ensure), Choice(s, digits).value.rest,
                    ATTEMPTS, PairOf(12, 18));
      }
    }
  }

  /**
   * With the default config every seed gives two operands with the same number of digits
   * (both in [10, 99] or both in [100, 999]) and their gcd.
   */
  lemma DefaultConfigPair(s: Stream)
    ensures GeneratedPair(s, map[]).Success?
    ensures var p := GeneratedPair(s, map[]).value;
      && ((10 <= p.a <= 99 && 10 <= p.b <= 99) || (100 <= p.a <= 999 && 100 <= p.b <= 999))
      && p.g == GcdOf(p.a, p.b) && p.g >= 1 && p.a % p.g == 0 && p.b % p.g == 0
  {
    DefaultDigits();
    var d := Choice(s, [2, 3]).value;
    var range := ResolveRange(map[], d.value);
    assert range == RangeFromDigits(d.value);
    SearchDivides(d.rest, true, range.0, range.1, PairOf(12, 18));
    assert GeneratedPair(s, map[])
      == Search(AttemptOf(true, range.0, range.1), AcceptOf(true), d.rest, ATTEMPTS, PairOf(12, 18));
  }

  /** Without a `digits` entry the digit list is [2, 3]. */
  lemma DefaultDigits()
    ensures NormalizeDigits(Nullish(Prop(map[], "digits"), DEFAULT_DIGITS)) == [2, 3]
  {
    assert NumbersIn([Number(2), Number(3)], {2, 3}) == [2, 3];
  }

  /** The question of a card, with `answer` after the equals sign. */
  function Question(a: int, b: int, answer: string): string {
    "<div class=\"q\">GCF(" + IntToString(a) + ", " + IntToString(b) + ") = " + answer + "</div>"
  }

  /** The data of both sides: `{ a, b, answer: g }`. */
  function Data(p: Pair): map<string, int> {
    map["a" := p.a, "b" := p.b, "answer" := p.g]
  }

  /** `generate({ seed, config, side })`. */
  function Generate(seed: JsValue, config: Config, side: JsValue): Result<Card> {
    if !IsNumberType(seed) then Failure(SEED_REQUIRED)
    else
      var p :- GeneratedPair(SeedStream(seed), config);
      if !IsBack(side) then Success(Card(Question(p.a, p.b, "?"), Data(p)))
      else Success(Card(Question(p.a, p.b, "<b>" + IntToString(p.g) + "</b>"), Data(p)))
  }

  /** A seed that is not a number is rejected before any draw. */
  lemma SeedRequired(seed: JsValue, config: Config, side: JsValue)
    requires !IsNumberType(seed)
    ensures Generate(seed, config, side) == Failure(SEED_REQUIRED)
  {
  }

  /**
   * Front and back come from the same pair and fail together: both carry its data, the
   * front asks `GCF(a, b) = ?` and the back shows the answer in bold in the same place, and
   * the answer divides both operands.
   */
  lemma FrontBackParity(seed: JsValue, config: Config)
    requires IsNumberType(seed)
    ensures var r := GeneratedPair(SeedStream(seed), config);
      var front := Generate(seed, config, Str("front"));
      var back := Generate(seed, config, Str("back"));
      && (r.Failure? ==> front == back == Failure(r.error))
      && (r.Success? ==>
          var p := r.value;
          && front == Success(Card(Question(p.a, p.b, "?"), Data(p)))
          && back == Success(Card(Question(p.a, p.b, "<b>" + IntToString(p.g) + "</b>"), Data(p)))
          && p.g >= 1 && p.a % p.g == 0 && p.b % p.g == 0)
  {
    if GeneratedPair(SeedStream(seed), config).Success? {
      PairDivides(SeedStream(seed), config);
    }
  }

  /** Every pair `generatePair` returns has a positive gcd dividing both operands. */
  lemma PairDivides(s: Stream, config: Config)
    requires GeneratedPair(s, config).Success?
    ensures var p := GeneratedPair(s, config).value;
      p.g == GcdOf(p.a, p.b) && p.g >= 1 && p.a % p.g == 0 && p.b % p.g == 0
  {
    var digits := NormalizeDigits(Nullish(Prop(config, "digits"), DEFAULT_DIGITS));
    var d := Choice(s, digits).value;
    var (min, max) := ResolveRange(config, d.value);
    SearchDivides(d.rest, EnsureNonTrivial(config), min, max, PairOf(12, 18));
  }

  /** `validate({ seed, config })`. */
  function Validate(seed: JsValue, config: Config): Report {
    match GeneratedPair(SeedStream(seed), config)
    case Failure(e) => Crash([e])
    case Success(p) =>
      var ok := p.g >= 1 && p.a % p.g == 0 && p.b % p.g == 0;
      Report(ok, if EnsureNonTrivial(config) && p.g == 1 then [WARNING] else [])
  }

  /**
   * `validate` reports ok for every pair it generates; it reports the generation error
   * instead when generation fails, and warns exactly when the bias is on and the gcd is 1.
   */
  lemma ValidateAccepts(seed: JsValue, config: Config)
    ensures var r := GeneratedPair(SeedStream(seed), config);
      && (r.Failure? ==> Validate(seed, config) == Crash([r.error]))
      && (r.Success? ==> Validate(seed, config).Report? && Validate(seed, config).ok)
      && (r.Success? ==> (Validate(seed, config).warnings == [WARNING]
                          <==> EnsureNonTrivial(config) && r.value.g == 1))
  {
    if GeneratedPair(SeedStream(seed), config).Success? {
      PairDivides(SeedStream(seed), config);
    }
  }
}

/**
 * What the seeded templates (src/templates/...) share: the shape of a `validate` report,
 * how a template reads its config object, the biased coin `rng() < p`, and the sampler
 * `pickMultipleOf`, which gcf_basic.js and lcm_basic.js define identically.
 */
module Cards {
  import opened Wrappers
  import opened Js
  import opened Rng

  /**
   * What `validate` returns: `{ ok, warnings }`, or `{ ok: false, errors: [message] }` when
   * generation threw.
   */
  datatype Report = Report(ok: bool, warnings: seq<string>) | Crash(errors: seq<string>)

  /** A template config: the properties of the `config` object. */
  type Config = map<string, JsValue>

  /** `config.key`: undefined when the property is absent. */
  function Prop(config: Config, key: string): JsValue {
    if key in config then config[key] else Undefined
  }

  /** `v ?? fallback`: the fallback replaces only `undefined` and `null`. */
  function Nullish(v: JsValue, fallback: JsValue): (r: JsValue)
    ensures v.Undefined? || v.Null? ==> r == fallback
    ensures !v.Undefined? && !v.Null? ==> r == v
  {
    if v.Undefined? || v.Null? then fallback else v
  }

  /** What `generate` returns: the html of one side and the numbers behind it. */
  datatype Card = Card(html: string, data: map<string, int>)

  /** `mulberry32(seed)` for the seed a template receives: `seed >>> 0`. */
  function SeedStream(seed: JsValue): (s: Stream)
    ensures seed.Number? ==> s == Seeded(seed.n)
  {
    Stream(ToUint32Value(seed))
  }

  /** `if (x < 2) x = 2`. */
  function AtLeastTwo(x: int): (r: int)
    ensures r >= 2 && (x >= 2 ==> r == x)
  {
    if x < 2 then 2 else x
  }

  /** `side !== "back"` selects the front; the default side is "front". */
  predicate IsBack(side: JsValue) {
    side == Str("back")
  }

  /** The generation error every template throws for a seed that is not a number. */
  const SEED_REQUIRED: string := "generate: seed (number) is required"

  /** `rng() < 0.7` holds exactly for the numerators below this bound (0.7 * 2^32 = 3006477107.2). */
  const SEVEN_TENTHS: nat := 3006477108

  /** `rng() < 0.5` holds exactly for the numerators below 2^31. */
  const ONE_HALF: nat := 0x8000_0000

  /** `rng() < p` for the numerator bound of `p`: one draw. */
  function Coin(s: Stream, bound: nat): (r: Drawn<bool>)
    ensures r.rest == Advance(s, 1)
    ensures r.value <==> Next(s).value < bound
  {
    var d := Next(s);
    Drawn(d.value < bound, d.rest)
  }

  /** The numbers among `items` that belong to `allowed`, in order (`filter((d) => d === ...)`). */
  function NumbersIn(items: seq<JsValue>, allowed: set<int>): (r: seq<int>)
    ensures forall d :: d in r <==> Number(d) in items && d in allowed
    ensures |r| <= |items|
  {
    if |items| == 0 then []
    else
      var rest := NumbersIn(items[1..], allowed);
      assert items == [items[0]] + items[1..];
      if items[0].Number? && items[0].n in allowed then [items[0].n] + rest else rest
  }

  /** One item is kept as its number when it is an allowed number, and dropped otherwise. */
  lemma NumbersInOne(x: JsValue, allowed: set<int>)
    ensures NumbersIn([x], allowed) == if x.Number? && x.n in allowed then [x.n] else []
  {
    assert [x][1..] == [];
  }

  /**
   * Filtering distributes over concatenation: with `NumbersInOne`, the result is the
   * allowed numbers of `items` in their order, repeats included.
   */
  lemma {:induction false} NumbersInConcat(a: seq<JsValue>, b: seq<JsValue>, allowed: set<int>)
    ensures NumbersIn(a + b, allowed) == NumbersIn(a, allowed) + NumbersIn(b, allowed)
  {
    if |a| == 0 {
      assert a + b == b;
    } else {
      assert (a + b)[0] == a[0];
      assert (a + b)[1..] == a[1..] + b;
      NumbersInConcat(a[1..], b, allowed);
    }
  }

  /** When every item is an allowed number, the filter keeps them all, in order. */
  lemma {:induction false} NumbersInAllAllowed(items: seq<JsValue>, allowed: set<int>)
    requires forall i :: 0 <= i < |items| ==> items[i].Number? && items[i].n in allowed
    ensures NumbersIn(items, allowed) == seq(|items|, i requires 0 <= i < |items| => items[i].n)
  {
    if |items| > 0 {
      NumbersInAllAllowed(items[1..], allowed);
    }
  }

  predicate IsMultiple(m: int, p: int)
    requires p > 0
  {
    m % p == 0
  }

  /** `Math.ceil(m / p)` for a positive divisor. */
  function CeilDiv(m: int, p: int): int
    requires p > 0
  {
    (m + p - 1) / p
  }

  /** `CeilDiv(m, p) * p` is the least multiple of `p` that is at least `m`. */
  lemma CeilMultiple(m: int, p: int)
    requires p > 0
    ensures m <= CeilDiv(m, p) * p < m + p
    ensures IsMultiple(CeilDiv(m, p) * p, p)
    ensures forall k :: m <= k && IsMultiple(k, p) ==> CeilDiv(m, p) * p <= k
  {
    var q := CeilDiv(m, p);
    assert m + p - 1 == q * p + (m + p - 1) % p;
    MultipleMod(p, q);
    assert q * p == p * q;
    forall k | m <= k && IsMultiple(k, p)
      ensures q * p <= k
    {
      var j := k / p;
      assert k == p * j;
      if j < q {
        MultiplyMonotone(j, q - 1, p);
      } else {
        MultiplyMonotone(q, j, p);
      }
    }
  }

  /**
   * `pickMultipleOf(rng, p, min, max)`: a multiple of `p` in [min, max] drawn with one
   * `randInt`, or `null` without a draw when the range holds no multiple of `p`.
   */
  function PickMultipleOf(s: Stream, p: int, min: int, max: int): (r: Drawn<Option<int>>)
    requires p > 0
    ensures r.value.Some? ==> min <= r.value.value <= max && IsMultiple(r.value.value, p)
    ensures r.value.Some? ==> r.rest == Advance(s, 1)
    ensures r.value.None? <==> forall m :: min <= m <= max ==> !IsMultiple(m, p)
    ensures r.value.None? ==> r.rest == s
    ensures max - min + 1 >= p ==> r.value.Some?
  {
    CeilMultiple(min, p);
    var first := CeilDiv(min, p) * p;
    if first > max then Drawn(None, s)
    else
      var count := (max - first) / p + 1;
      var offset := RandInt(s, 0, count - 1).value;
      MultiplesInRange(first, p, offset.value, max);
      Drawn(Some(first + offset.value * p), offset.rest)
  }

  lemma MultiplesInRange(first: int, p: int, offset: int, max: int)
    requires p > 0 && first <= max && IsMultiple(first, p)
    requires 0 <= offset <= (max - first) / p
    ensures first <= first + offset * p <= max
    ensures IsMultiple(first + offset * p, p)
  {
    var c := (max - first) / p;
    MultiplyMonotone(offset, c, p);
    MultiplyNonnegative(offset, p);
    assert max - first == c * p + (max - first) % p;
    var q := first / p;
    assert first == p * q;
    assert first + offset * p == p * (q + offset);
    MultipleMod(p, q + offset);
  }

  /**
   * `pickMultipleOf(rng, p, min, max) ?? randInt(rng, min, max)`: one draw either way; a
   * multiple of `p` whenever [min, max] holds one.
   */
  function MultipleOrUniform(s: Stream, p: int, min: int, max: int): (r: Result<Drawn<int>>)
    requires p > 0
    ensures r.Failure? <==> max < min
    ensures r.Failure? ==> r.error == "randInt: max < min"
    ensures r.Success? ==> min <= r.value.value <= max && r.value.rest == Advance(s, 1)
    ensures r.Success? && (exists m :: min <= m <= max && IsMultiple(m, p)) ==>
      IsMultiple(r.value.value, p)
  {
    var pick := PickMultipleOf(s, p, min, max);
    if pick.value.Some? then Success(Drawn(pick.value.value, pick.rest))
    else RandInt(s, min, max)
  }

  /** A positive number that a divisor `p` divides is at least `p`. */
  lemma DivisorBound(p: nat, n: int)
    requires p > 0 && n > 0 && Divides(p, n)
    ensures p <= n
  {
    var k := n / p;
    assert n == p * k;
    MultiplyBounds(p, k);
  }

  /** Two positive numbers that share a divisor `p > 1` have a gcd of at least `p`. */
  lemma SharedDivisorGcd(a: int, b: int, p: int)
    requires 1 <= a <= INT32_MAX && 1 <= b <= INT32_MAX && p > 1
    requires IsMultiple(a, p) && IsMultiple(b, p)
    ensures GcdOf(a, b) >= p
  {
    EuclidGreatest(a, b, p);
    EuclidZero(a, b);
    DivisorBound(p, GcdOf(a, b));
  }

  /**
   * The bounded retry loop both number-theory templates run: up to `n` attempts drawn one
   * after the other with `attempt`; the first sample that `accept` holds for is returned,
   * and when none is, the last sample (`last` stands for the sample before the first
   * attempt). An attempt that throws ends the loop with its error.
   */
  function Search<T>(attempt: Stream -> Result<Drawn<T>>, accept: T -> bool, s: Stream, n: nat,
                     last: T): Result<T>
    decreases n
  {
    if n == 0 then Success(last)
    else
      var d :- attempt(s);
      if accept(d.value) then Success(d.value)
      else Search(attempt, accept, d.rest, n - 1, d.value)
  }

  /** The samples of `n` successive attempts, accepted or not. */
  function Samples<T>(attempt: Stream -> Result<Drawn<T>>, s: Stream, n: nat): (r: seq<T>)
    requires forall t :: attempt(t).Success?
    ensures |r| == n
    decreases n
  {
    if n == 0 then []
    else
      var d := attempt(s).value;
      [d.value] + Samples(attempt, d.rest, n - 1)
  }

  /**
   * The position of the sample the loop returns: the first accepted one, or the last one
   * when none is accepted (FirstAcceptedIsFirst).
   */
  function FirstAccepted<T>(accept: T -> bool, xs: seq<T>): (k: nat)
    requires |xs| > 0
    ensures k < |xs|
  {
    if accept(xs[0]) || |xs| == 1 then 0 else 1 + FirstAccepted(accept, xs[1..])
  }

  lemma {:induction false} FirstAcceptedIsFirst<T>(accept: T -> bool, xs: seq<T>)
    requires |xs| > 0
    ensures forall j :: 0 <= j < FirstAccepted(accept, xs) ==> !accept(xs[j])
    ensures accept(xs[FirstAccepted(accept, xs)]) || FirstAccepted(accept, xs) == |xs| - 1
  {
    if !accept(xs[0]) && |xs| > 1 {
      FirstAcceptedIsFirst(accept, xs[1..]);
      var k := FirstAccepted(accept, xs[1..]);
      forall j | 0 <= j < k + 1
        ensures !accept(xs[j])
      {
        if j > 0 {
          assert xs[j] == xs[1..][j - 1];
        }
      }
      assert xs[k + 1] == xs[1..][k];
    }
  }

  /**
   * When no attempt throws, the loop returns the first accepted sample of its `n`
   * attempts, or the last sample when none is accepted.
   */
  lemma {:induction false} SearchReturnsFirstAccepted<T>(attempt: Stream -> Result<Drawn<T>>,
                                                        accept: T -> bool, s: Stream, n: nat,
                                                        last: T)
    requires forall t :: attempt(t).Success?
    requires n > 0
    ensures Search(attempt, accept, s, n, last)
      == Success(Samples(attempt, s, n)[FirstAccepted(accept, Samples(attempt, s, n))])
    decreases n
  {
    var d := attempt(s).value;
    var xs := Samples(attempt, s, n);
    var ys := Samples(attempt, d.rest, n - 1);
    assert xs == [d.value] + ys;
    if accept(d.value) || n == 1 {
      assert FirstAccepted(accept, xs) == 0;
    } else {
      SearchReturnsFirstAccepted(attempt, accept, d.rest, n - 1, d.value);
      assert xs[1..] == ys;
      assert FirstAccepted(accept, xs) == 1 + FirstAccepted(accept, ys);
    }
  }

  /** A property every sample has, the returned sample has. */
  lemma SearchKeeps<T>(attempt: Stream -> Result<Drawn<T>>, accept: T -> bool, s: Stream,
                       n: nat, last: T, holds: T -> bool)
    requires forall t :: attempt(t).Success? && holds(attempt(t).value.value)
    requires n > 0
    ensures Search(attempt, accept, s, n, last).Success?
    ensures holds(Search(attempt, accept, s, n, last).value)
  {
    SearchReturnsFirstAccepted(attempt, accept, s, n, last);
    SamplesHave(attempt, s, n, holds);
    FirstAcceptedIsFirst(accept, Samples(attempt, s, n));
  }

  lemma {:induction false} SamplesHave<T>(attempt: Stream -> Result<Drawn<T>>, s: Stream, n: nat,
                                         holds: T -> bool)
    requires forall t :: attempt(t).Success? && holds(attempt(t).value.value)
    ensures forall k :: 0 <= k < n ==> holds(Samples(attempt, s, n)[k])
    decreases n
  {
    if n > 0 {
      var d := attempt(s).value;
      SamplesHave(attempt, d.rest, n - 1, holds);
      var xs := Samples(attempt, s, n);
      var ys := Samples(attempt, d.rest, n - 1);
      assert xs == [d.value] + ys;
      forall k | 0 <= k < n
        ensures holds(xs[k])
      {
        if k > 0 {
          assert xs[k] == ys[k - 1];
        }
      }
    }
  }

  /** One iteration of the loop: an accepted sample ends it, any other sample becomes `last`. */
  lemma SearchStep<T>(attempt: Stream -> Result<Drawn<T>>, accept: T -> bool, s: Stream,
                      n: nat, last: T)
    requires n > 0 && attempt(s).Success?
    ensures var d := attempt(s).value;
      Search(attempt, accept, s, n, last)
        == if accept(d.value) then Success(d.value) else Search(attempt, accept, d.rest, n - 1, d.value)
  {
  }

  /** An attempt that throws at once ends the loop with its error. */
  lemma SearchFails<T>(attempt: Stream -> Result<Drawn<T>>, accept: T -> bool, s: Stream,
                       n: nat, last: T)
    requires n > 0 && attempt(s).Failure?
    ensures Search(attempt, accept, s, n, last) == Failure(attempt(s).error)
  {
  }
}

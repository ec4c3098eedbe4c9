/**
 * The deterministic random number generator of the runtime (src/runtime/rng.js):
 * the mulberry32 stream and the helpers that consume it.
 *
 * A draw `rng()` returns `u / 2^32` for a 32-bit numerator `u`; the model works with `u`.
 * Each helper takes the stream state and returns the state after its draws, so the number
 * of draws a helper consumes is part of its contract.
 */
module Rng {
  import opened Wrappers
  import opened Js

  /** A draw's numerator: the draw itself is `u / 2^32`, a number in [0, 1). */
  type Word = u: nat | u < 0x1_0000_0000

  const INCREMENT: Word := 0x6d2b79f5

  /**
   * The state captured by one mulberry32 closure: `t`, as the 32 bits every bitwise
   * operator of the closure reads.
   */
  datatype Stream = Stream(t: Word)

  /** A value drawn from a stream, with the state after the draws that produced it. */
  datatype Drawn<+T> = Drawn(value: T, rest: Stream)

  /** `mulberry32(seed)`: the state starts at `seed >>> 0`. */
  function Seeded(seed: int): Stream {
    Stream(ToUint32(seed))
  }

  function Pow2(k: nat): (p: nat)
    ensures p > 0
  {
    if k == 0 then 1 else 2 * Pow2(k - 1)
  }

  lemma Pow2Of32()
    ensures Pow2(32) == TWO_32
  {
    assert Pow2(8) == 0x100 by {
      assert Pow2(4) == 0x10;
    }
    assert Pow2(16) == 0x1_0000 by {
      assert Pow2(12) == 0x1000;
    }
    assert Pow2(24) == 0x100_0000 by {
      assert Pow2(20) == 0x10_0000;
    }
    assert Pow2(28) == 0x1000_0000;
  }

  /** Bitwise XOR (`^`) of two naturals, bit by bit from the lowest. */
  function Xor(a: nat, b: nat): nat
    decreases a + b
  {
    if a == 0 then b
    else if b == 0 then a
    else 2 * Xor(a / 2, b / 2) + (if a % 2 == b % 2 then 0 else 1)
  }

  /** Bitwise OR (`|`) of two naturals, bit by bit from the lowest. */
  function Or(a: nat, b: nat): nat
    decreases a + b
  {
    if a == 0 then b
    else if b == 0 then a
    else 2 * Or(a / 2, b / 2) + (if a % 2 == 1 || b % 2 == 1 then 1 else 0)
  }

  /** Bitwise operators keep operands of `k` bits within `k` bits. */
  lemma {:induction false} BitwiseBound(a: nat, b: nat, k: nat)
    requires a < Pow2(k) && b < Pow2(k)
    ensures Xor(a, b) < Pow2(k) && Or(a, b) < Pow2(k)
    decreases k
  {
    if a != 0 && b != 0 {
      BitwiseBound(a / 2, b / 2, k - 1);
    }
  }

  /** `a ^ b` on two 32-bit values. */
  function Xor32(a: Word, b: Word): Word {
    Pow2Of32();
    BitwiseBound(a, b, 32);
    Xor(a, b)
  }

  /** `a | b` on two 32-bit values. */
  function Or32(a: Word, b: Word): Word {
    Pow2Of32();
    BitwiseBound(a, b, 32);
    Or(a, b)
  }

  /** `Math.imul(a, b)`, read as the 32 bits of its result. */
  function Imul(a: Word, b: Word): Word {
    (a * b) % TWO_32
  }

  /**
   * The output scrambling of one call, applied to the already advanced state, on the
   * 32-bit patterns of the values (`>>> k` is a division by 2^k of the unsigned pattern,
   * and the sum inside the second step is taken modulo 2^32 by the `^` that reads it).
   */
  function Scramble(t: Word): Word {
    var r := Imul(Xor32(t, t / 0x8000), Or32(1, t));
    var r' := Xor32(r, (r + Imul(Xor32(r, r / 0x80), Or32(61, r))) % TWO_32);
    Xor32(r', r' / 0x4000)
  }

  /** One call of the closure: `t` advances by 0x6d2b79f5 and the scrambled `t` is drawn. */
  function Next(s: Stream): (d: Drawn<Word>)
    ensures d.rest == Stream((s.t + INCREMENT) % TWO_32)
  {
    var t := (s.t + INCREMENT) % TWO_32;
    Drawn(Scramble(t), Stream(t))
  }

  /** The state after `n` calls. */
  function Advance(s: Stream, n: nat): Stream
    decreases n
  {
    if n == 0 then s else Advance(Next(s).rest, n - 1)
  }

  /** The first `n` draws of the stream, in order. */
  function Draws(s: Stream, n: nat): seq<Word> {
    if n == 0 then [] else Draws(s, n - 1) + [Next(Advance(s, n - 1)).value]
  }

  /** The draw number `n` (from 0) of the stream seeded with `seed`. */
  function NthDraw(seed: int, n: nat): Word {
    Next(Advance(Seeded(seed), n)).value
  }

  lemma {:induction false} AdvanceLast(s: Stream, n: nat)
    ensures Advance(s, n + 1) == Next(Advance(s, n)).rest
    decreases n
  {
    if n > 0 {
      AdvanceLast(Next(s).rest, n - 1);
    }
  }

  /** Draw `k` of a stream does not depend on how many draws are taken after it. */
  lemma {:induction false} DrawsAt(s: Stream, n: nat, k: nat)
    requires k < n
    ensures |Draws(s, n)| == n && Draws(s, n)[k] == Next(Advance(s, k)).value
  {
    if k < n - 1 {
      DrawsAt(s, n - 1, k);
    } else {
      DrawsLength(s, n - 1);
    }
  }

  lemma {:induction false} DrawsLength(s: Stream, n: nat)
    ensures |Draws(s, n)| == n
  {
    if n > 0 {
      DrawsLength(s, n - 1);
    }
  }

  /** The stream created by `mulberry32(seed)`: one captured state, advanced on each call. */
  class Mulberry32 {
    var state: Stream

    constructor (seed: int)
      ensures state == Seeded(seed)
    {
      state := Seeded(seed);
    }

    /** `rng()`. */
    method Call() returns (u: Word)
      modifies this
      ensures Drawn(u, state) == Next(old(state))
    {
      var d := Next(state);
      u, state := d.value, d.rest;
    }
  }

  /** Calls `g` `n` times and collects the draws. */
  method DrawMany(g: Mulberry32, n: nat) returns (xs: seq<Word>)
    modifies g
    ensures xs == Draws(old(g.state), n)
    ensures g.state == Advance(old(g.state), n)
  {
    xs := [];
    var i := 0;
    while i < n
      invariant 0 <= i <= n
      invariant xs == Draws(old(g.state), i)
      invariant g.state == Advance(old(g.state), i)
    {
      AdvanceLast(old(g.state), i);
      var u := g.Call();
      xs := xs + [u];
      i := i + 1;
    }
  }

  /**
   * Two streams built from the same seed yield the same draws, and draw `k` is determined
   * by the seed and `k` alone.
   */
  method SameSeedSameDraws(seed: int, n: nat) returns (xs: seq<Word>, ys: seq<Word>)
    ensures |xs| == n && xs == ys
    ensures forall k :: 0 <= k < n ==> xs[k] == NthDraw(seed, k)
  {
    var g1 := new Mulberry32(seed);
    var g2 := new Mulberry32(seed);
    xs := DrawMany(g1, n);
    ys := DrawMany(g2, n);
    DrawsLength(Seeded(seed), n);
    forall k | 0 <= k < n
      ensures xs[k] == NthDraw(seed, k)
    {
      DrawsAt(Seeded(seed), n, k);
    }
  }

  /** `Math.floor((u / 2^32) * n)`: an index below `n`. */
  function Scale(u: Word, n: nat): (k: nat)
    ensures n > 0 ==> k < n
  {
    ScaleBound(u, n);
    (u * n) / TWO_32
  }

  lemma ScaleBound(u: Word, n: nat)
    ensures n > 0 ==> (u * n) / TWO_32 < n
  {
    if n > 0 {
      assert u * n < TWO_32 * n by {
        assert (TWO_32 - u) * n > 0;
      }
    }
  }

  /** `randInt(rng, min, max)`: an integer in [min, max], from exactly one draw. */
  function RandInt(s: Stream, min: int, max: int): (r: Result<Drawn<int>>)
    ensures r.Failure? <==> max < min
    ensures r.Failure? ==> r.error == "randInt: max < min"
    ensures r.Success? ==> min <= r.value.value <= max && r.value.rest == Advance(s, 1)
  {
    if max < min then Failure("randInt: max < min")
    else
      var d := Next(s);
      Success(Drawn(min + Scale(d.value, max - min + 1), d.rest))
  }

  /** `choice(rng, arr)`: an element of a non-empty array, from exactly one draw. */
  function Choice<T>(s: Stream, arr: seq<T>): (r: Result<Drawn<T>>)
    ensures r.Failure? <==> |arr| == 0
    ensures r.Failure? ==> r.error == "choice: empty array"
    ensures r.Success? ==> r.value.value in arr && r.value.rest == Advance(s, 1)
  {
    if |arr| == 0 then Failure("choice: empty array")
    else
      var d := Next(s);
      Success(Drawn(arr[Scale(d.value, |arr|)], d.rest))
  }

  function Swap<T>(a: seq<T>, i: nat, j: nat): (r: seq<T>)
    requires i < |a| && j < |a|
    ensures |r| == |a|
  {
    a[i := a[j]][j := a[i]]
  }

  /**
   * The Fisher-Yates passes of `shuffle` from index `i` down to 1: each pass swaps
   * `a[i]` with `a[j]` for a drawn `j <= i`.
   */
  function FisherYates<T>(s: Stream, a: seq<T>, i: int): (r: Drawn<seq<T>>)
    requires i < |a|
    ensures |r.value| == |a|
    ensures r.rest == Advance(s, if i > 0 then i else 0)
    decreases i
  {
    if i <= 0 then Drawn(a, s)
    else
      var d := Next(s);
      var r := FisherYates(d.rest, Swap(a, i, Scale(d.value, i + 1)), i - 1);
      AdvanceFirst(s, i - 1);
      r
  }

  lemma SwapPermutes<T>(a: seq<T>, i: nat, j: nat)
    requires i < |a| && j < |a|
    ensures multiset(Swap(a, i, j)) == multiset(a)
  {
  }

  /** The passes only ever exchange two elements: the result is a permutation. */
  lemma {:induction false} FisherYatesPermutes<T>(s: Stream, a: seq<T>, i: int)
    requires i < |a|
    ensures multiset(FisherYates(s, a, i).value) == multiset(a)
    decreases i
  {
    if i > 0 {
      var d := Next(s);
      var b := Swap(a, i, Scale(d.value, i + 1));
      FisherYatesPermutes(d.rest, b, i - 1);
      SwapPermutes(a, i, Scale(d.value, i + 1));
    }
  }

  /** One pass of `shuffle`, unfolded. */
  lemma FisherYatesStep<T>(s: Stream, a: seq<T>, i: int)
    requires 0 < i < |a|
    ensures FisherYates(s, a, i)
      == FisherYates(Next(s).rest, Swap(a, i, Scale(Next(s).value, i + 1)), i - 1)
  {
  }

  lemma AdvanceFirst(s: Stream, n: nat)
    ensures Advance(Next(s).rest, n) == Advance(s, n + 1)
  {
  }

  /**
   * `shuffle(rng, arr)`: copies the input into a fresh array and shuffles the copy in
   * place. The result is a permutation of the input, which is left as it was, and
   * `arr.length - 1` draws are consumed (none for an empty or one-element input).
   */
  method Shuffle<T>(s: Stream, arr: seq<T>) returns (r: seq<T>, s': Stream)
    ensures |r| == |arr| && multiset(r) == multiset(arr)
    ensures s' == Advance(s, if |arr| > 0 then |arr| - 1 else 0)
    ensures Drawn(r, s') == FisherYates(s, arr, |arr| - 1)
  {
    var a := new T[|arr|](k requires 0 <= k < |arr| => arr[k]);
    assert a[..] == arr;
    s' := ShuffleInPlace(a, s);
    r := a[..];
    FisherYatesPermutes(s, arr, |arr| - 1);
  }

  /** The loop of `shuffle`, from the last index down to 1, on the array `a`. */
  method ShuffleInPlace<T>(a: array<T>, s: Stream) returns (s': Stream)
    modifies a
    ensures Drawn(a[..], s') == FisherYates(s, old(a[..]), a.Length - 1)
  {
    ghost var goal := FisherYates(s, a[..], a.Length - 1);
    var i := a.Length - 1;
    s' := s;
    while i > 0
      invariant i < a.Length
      invariant FisherYates(s', a[..], i) == goal
    {
      s' := ShufflePass(a, i, s');
      i := i - 1;
    }
  }

  /** The body of the loop of `shuffle` for index `i`: one draw, one exchange. */
  method ShufflePass<T>(a: array<T>, i: int, t: Stream) returns (t': Stream)
    requires 0 < i < a.Length
    modifies a
    ensures FisherYates(t', a[..], i - 1) == old(FisherYates(t, a[..], i))
  {
    var d := Next(t);
    var j := Scale(d.value, i + 1);
    FisherYatesStep(t, a[..], i);
    var tmp := a[i];
    a[i] := a[j];
    a[j] := tmp;
    t' := d.rest;
  }

  /** Divisibility on the integers: `n % d === 0`, with only 0 a multiple of 0. */
  predicate Divides(d: nat, n: int) {
    if d == 0 then n == 0 else n % d == 0
  }

  /** Euclid's algorithm on natural numbers, as the loop of `gcd` runs it. */
  function Euclid(a: nat, b: nat): nat
    decreases b
  {
    if b == 0 then a else Euclid(b, a % b)
  }

  /** The value `gcd(a, b)` returns: Euclid on the absolute values of `a | 0` and `b | 0`. */
  function GcdOf(a: int, b: int): nat {
    Euclid(Abs(ToInt32(a)), Abs(ToInt32(b)))
  }

  lemma MultipleMod(d: int, k: int)
    requires d > 0
    ensures (d * k) % d == 0 && (d * k) / d == k
  {
    var q, r := (d * k) / d, (d * k) % d;
    assert d * (k - q) == r;
    MultiplyBounds(d, k - q);
  }

  lemma MultiplyBounds(d: int, m: int)
    requires d > 0
    ensures m >= 1 ==> d * m >= d
    ensures m <= -1 ==> d * m <= -d
  {
  }

  /** A common divisor of `x` and `y` divides `q * x + y`. */
  lemma DividesCombination(d: nat, x: int, y: int, q: int)
    requires Divides(d, x) && Divides(d, y)
    ensures Divides(d, q * x + y)
  {
    if d > 0 {
      var i, j := x / d, y / d;
      assert x == d * i && y == d * j;
      assert q * x + y == d * (q * i + j);
      MultipleMod(d, q * i + j);
    }
  }

  lemma DividesTransitive(a: nat, b: nat, c: int)
    requires a > 0 && b > 0 && Divides(a, b) && Divides(b, c)
    ensures Divides(a, c)
  {
    var i, j := b / a, c / b;
    assert b == a * i && c == b * j;
    assert c == a * (i * j);
    MultipleMod(a, i * j);
  }

  lemma {:induction false} EuclidDivides(a: nat, b: nat)
    ensures Divides(Euclid(a, b), a) && Divides(Euclid(a, b), b)
    decreases b
  {
    if b == 0 {
      if a > 0 {
        MultipleMod(a, 1);
      }
    } else {
      EuclidDivides(b, a % b);
      var g := Euclid(b, a % b);
      assert a == (a / b) * b + a % b;
      DividesCombination(g, b, a % b, a / b);
    }
  }

  lemma {:induction false} EuclidGreatest(a: nat, b: nat, d: nat)
    requires Divides(d, a) && Divides(d, b)
    ensures Divides(d, Euclid(a, b))
    decreases b
  {
    if b > 0 {
      assert a % b == -(a / b) * b + a;
      DividesCombination(d, b, a, -(a / b));
      EuclidGreatest(b, a % b, d);
    }
  }

  lemma {:induction false} EuclidZero(a: nat, b: nat)
    ensures Euclid(a, b) == 0 <==> a == 0 && b == 0
    decreases b
  {
    if b > 0 {
      EuclidZero(b, a % b);
    }
  }

  /**
   * `gcd(a, b)`: the loop of Euclid's algorithm on `|a | 0|` and `|b | 0|`. The result is
   * the greatest common divisor of the truncated operands: it divides both, every common
   * divisor divides it, and it is 0 only for two zero operands.
   */
  method Gcd(a: int, b: int) returns (g: nat)
    ensures g == GcdOf(a, b)
    ensures Divides(g, Abs(ToInt32(a))) && Divides(g, Abs(ToInt32(b)))
    ensures forall d: nat :: Divides(d, Abs(ToInt32(a))) && Divides(d, Abs(ToInt32(b))) ==> Divides(d, g)
    ensures g == 0 <==> ToInt32(a) == 0 && ToInt32(b) == 0
  {
    var x: nat := Abs(ToInt32(a));
    var y: nat := Abs(ToInt32(b));
    while y != 0
      invariant Euclid(x, y) == GcdOf(a, b)
      decreases y
    {
      var t := y;
      y := x % y;
      x := t;
    }
    g := x;
    EuclidDivides(Abs(ToInt32(a)), Abs(ToInt32(b)));
    EuclidZero(Abs(ToInt32(a)), Abs(ToInt32(b)));
    forall d: nat | Divides(d, Abs(ToInt32(a))) && Divides(d, Abs(ToInt32(b)))
      ensures Divides(d, g)
    {
      EuclidGreatest(Abs(ToInt32(a)), Abs(ToInt32(b)), d);
    }
  }

  /** The two values the tests of the runtime check: gcd(54, 24) = 6 and gcd(0, 0) = 0. */
  lemma GcdExamples()
    ensures GcdOf(54, 24) == 6 && GcdOf(0, 0) == 0
  {
  }

  /**
   * `lcm(a, b)`: 0 when either operand is 0, else `|a * b| / gcd(a, b)`. (When both
   * operands truncate to 0 under `| 0` without being 0, JavaScript divides by 0; the
   * model yields 0 there.)
   */
  function Lcm(a: int, b: int): (l: int)
    ensures l >= 0
    ensures a == 0 || b == 0 ==> l == 0
  {
    if a == 0 || b == 0 then 0
    else
      var g := GcdOf(a, b);
      var p := Abs(a * b);
      if g == 0 then 0 else p / g
  }

  /** For positive 32-bit operands, lcm is a common multiple and lcm * gcd = a * b. */
  lemma LcmProperties(a: int, b: int)
    requires 1 <= a <= INT32_MAX && 1 <= b <= INT32_MAX
    ensures Lcm(a, b) * GcdOf(a, b) == a * b
    ensures Divides(a, Lcm(a, b)) && Divides(b, Lcm(a, b))
    ensures 1 <= Lcm(a, b) <= a * b
  {
    var g := GcdOf(a, b);
    EuclidDivides(a, b);
    EuclidZero(a, b);
    var i, j := a / g, b / g;
    CofactorProduct(a, b, g, i, j);
  }

  /** The arithmetic behind LcmProperties, for `a = g * i` and `b = g * j` with `g > 0`. */
  lemma CofactorProduct(a: int, b: int, g: int, i: int, j: int)
    requires 1 <= a && 1 <= b && g > 0 && a == g * i && b == g * j
    ensures (a * b) / g == i * b == a * j
    ensures ((a * b) / g) * g == a * b
    ensures Divides(a, (a * b) / g) && Divides(b, (a * b) / g)
    ensures 1 <= (a * b) / g <= a * b
  {
    ProductOverDivisor(a, b, g, i);
    ProductOverDivisor(b, a, g, j);
    MultipleMod(a, j);
    MultipleMod(b, i);
    CofactorBounds(a, b, g, i);
  }

  /** `(a * b) / g == i * b` and `i * b * g == a * b` when `a == g * i`. */
  lemma ProductOverDivisor(a: int, b: int, g: int, i: int)
    requires g > 0 && a == g * i
    ensures a * b == g * (i * b) && (a * b) / g == i * b && (i * b) * g == a * b
  {
    var m := i * b;
    assert a * b == g * m;
    MultipleMod(g, m);
  }

  lemma CofactorBounds(a: int, b: int, g: int, i: int)
    requires 1 <= a && 1 <= b && g > 0 && a == g * i
    ensures 1 <= i * b <= a * b
  {
    MultiplyBounds(g, i);
    assert i >= 1;
    assert a - i == (g - 1) * i;
    MultiplyNonnegative(g - 1, i);
    assert a * b - i * b == (a - i) * b;
    MultiplyNonnegative(a - i, b);
    MultiplyBounds(b, i);
  }

  lemma AbsProduct(a: int, b: int)
    ensures Abs(a * b) == Abs(a) * Abs(b)
  {
    if a < 0 && b >= 0 {
      assert a * b == -((-a) * b);
      MultiplyNonnegative(-a, b);
    } else if a >= 0 && b < 0 {
      assert a * b == -(a * (-b));
      MultiplyNonnegative(a, -b);
    } else if a < 0 && b < 0 {
      assert a * b == (-a) * (-b);
      MultiplyNonnegative(-a, -b);
    } else {
      MultiplyNonnegative(a, b);
    }
  }

  /** lcm is 0 exactly when an operand is 0 (for 32-bit operands). */
  lemma LcmZero(a: int, b: int)
    requires INT32_MIN <= a <= INT32_MAX && INT32_MIN <= b <= INT32_MAX
    ensures Lcm(a, b) == 0 <==> a == 0 || b == 0
  {
    if a != 0 && b != 0 {
      var g := GcdOf(a, b);
      EuclidZero(Abs(a), Abs(b));
      EuclidDivides(Abs(a), Abs(b));
      var i := Abs(a) / g;
      assert Abs(a) == g * i;
      AbsProduct(a, b);
      CofactorBounds(Abs(a), Abs(b), g, i);
      ProductOverDivisor(Abs(a), Abs(b), g, i);
    }
  }

  /** The values the tests of the runtime check: lcm(6, 8) = 24 and lcm(0, 5) = 0. */
  lemma LcmExamples()
    ensures Lcm(6, 8) == 24 && Lcm(0, 5) == 0
  {
  }
}

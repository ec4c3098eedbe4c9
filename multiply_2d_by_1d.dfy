/**
 * The multiplication template (src/templates/arithmetic/multiply_2d_by_1d.js): a two-digit
 * factor drawn first, a one-digit factor drawn second, and their product as the answer.
 */
module Multiply2dBy1d {
  import opened Wrappers
  import opened Js
  import opened Rng
  import opened Cards

  const ID: string := "arithmetic/multiply_2d_by_1d"

  const WARNING: string := "operands out of range or non-positive answer"

  /**
   * The numeric config fields; `None` is a field that is absent (undefined), which the
   * destructuring default replaces.
   */
  datatype Settings = Settings(twoDigitMin: Option<int>, twoDigitMax: Option<int>,
                               oneDigitMin: Option<int>, oneDigitMax: Option<int>)

  /** The bounds in force: each field or its default 12, 99, 2, 9. */
  datatype Bounds = Bounds(twoMin: int, twoMax: int, oneMin: int, oneMax: int)

  function OrDefault(field: Option<int>, default: int): (v: int)
    ensures field.None? ==> v == default
    ensures field.Some? ==> v == field.value
  {
    if field.Some? then field.value else default
  }

  function BoundsOf(c: Settings): Bounds {
    Bounds(OrDefault(c.twoDigitMin, 12), OrDefault(c.twoDigitMax, 99),
           OrDefault(c.oneDigitMin, 2), OrDefault(c.oneDigitMax, 9))
  }

  /** The two factors and the product. */
  datatype Problem = Problem(a: int, b: int, answer: int)

  /** `a = randInt(rng, twoDigitMin, twoDigitMax)`, then `b = randInt(rng, oneDigitMin, oneDigitMax)`. */
  function Draw(s: Stream, c: Settings): Result<Problem> {
    var bounds := BoundsOf(c);
    var a :- RandInt(s, bounds.twoMin, bounds.twoMax);
    var b :- RandInt(a.rest, bounds.oneMin, bounds.oneMax);
    Success(Problem(a.value, b.value, a.value * b.value))
  }

  /**
   * The draw fails exactly when a range is empty, the first one checked first; otherwise
   * `a` comes from the first draw and lies in the two-digit bounds, `b` from the second
   * and lies in the one-digit bounds, and the answer is `a * b`.
   */
  lemma DrawShape(s: Stream, c: Settings)
    ensures var r := Draw(s, c);
      var bounds := BoundsOf(c);
      && (r.Failure? <==> bounds.twoMax < bounds.twoMin || bounds.oneMax < bounds.oneMin)
      && (r.Failure? ==> r.error == "randInt: max < min")
      && (r.Success? ==>
          && bounds.twoMin <= r.value.a <= bounds.twoMax
          && bounds.oneMin <= r.value.b <= bounds.oneMax
          && r.value.answer == r.value.a * r.value.b
          && r.value.a == bounds.twoMin + Scale(Next(s).value, bounds.twoMax - bounds.twoMin + 1)
          && r.value.b == bounds.oneMin + Scale(Next(Advance(s, 1)).value, bounds.oneMax - bounds.oneMin + 1))
  {
    assert Advance(s, 1) == Next(s).rest;
  }

  /** The question of a card: `a × b = ` and then `answer`. */
  function Question(p: Problem, answer: string): string {
    "<div class=\"q\">" + IntToString(p.a) + " \U{D7} " + IntToString(p.b) + " = " + answer + "</div>"
  }

  /** `generate({ seed, config, side })`. */
  function Generate(seed: JsValue, c: Settings, side: JsValue): Result<Card> {
    if !IsNumberType(seed) then Failure(SEED_REQUIRED)
    else
      var p :- Draw(SeedStream(seed), c);
      if !IsBack(side) then Success(Card(Question(p, "?"), map["a" := p.a, "b" := p.b]))
      else Success(Card(Question(p, "<b>" + IntToString(p.answer) + "</b>"),
                        map["a" := p.a, "b" := p.b, "answer" := p.answer]))
  }

  /** A seed that is not a number is rejected before any draw. */
  lemma SeedRequired(seed: JsValue, c: Settings, side: JsValue)
    requires !IsNumberType(seed)
    ensures Generate(seed, c, side) == Failure(SEED_REQUIRED)
  {
  }

  /**
   * Front and back fail together or show the same factors: the front asks `a × b = ?`
   * with data `{ a, b }`, the back shows the product in bold and adds it to the data; `a`
   * and `b` are the first two draws of the stream seeded with `seed`.
   */
  lemma FrontBackParity(seed: JsValue, c: Settings)
    requires seed.Number?
    ensures var r := Draw(Seeded(seed.n), c);
      var front := Generate(seed, c, Str("front"));
      var back := Generate(seed, c, Str("back"));
      var bounds := BoundsOf(c);
      && (r.Failure? ==> front == back == Failure(r.error))
      && (r.Success? ==>
          var p := r.value;
          && front == Success(Card(Question(p, "?"), map["a" := p.a, "b" := p.b]))
          && back == Success(Card(Question(p, "<b>" + IntToString(p.a * p.b) + "</b>"),
                                  map["a" := p.a, "b" := p.b, "answer" := p.a * p.b]))
          && p.a == bounds.twoMin + Scale(NthDraw(seed.n, 0), bounds.twoMax - bounds.twoMin + 1)
          && p.b == bounds.oneMin + Scale(NthDraw(seed.n, 1), bounds.oneMax - bounds.oneMin + 1))
  {
    DrawShape(Seeded(seed.n), c);
  }

  /** `validate({ seed, config })`. */
  function Validate(seed: JsValue, c: Settings): Report {
    var bounds := BoundsOf(c);
    match Draw(SeedStream(seed), c)
    case Failure(e) => Crash([e])
    case Success(p) =>
      var ok := bounds.twoMin <= p.a <= bounds.twoMax && bounds.oneMin <= p.b <= bounds.oneMax
                && p.answer > 0;
      Report(ok, if ok then [] else [WARNING])
  }

  /**
   * `validate` reports the draw's error when a range is empty; otherwise the range checks
   * always pass, so it is ok exactly when the product is positive, which holds whenever
   * both lower bounds are positive.
   */
  lemma ValidateOk(seed: JsValue, c: Settings)
    ensures var r := Draw(SeedStream(seed), c);
      var v := Validate(seed, c);
      && (r.Failure? ==> v == Crash([r.error]))
      && (r.Success? ==> v.Report? && (v.ok <==> r.value.a * r.value.b > 0)
                         && v.warnings == (if v.ok then [] else [WARNING]))
      && (r.Success? && BoundsOf(c).twoMin > 0 && BoundsOf(c).oneMin > 0 ==> v == Report(true, []))
  {
    var r := Draw(SeedStream(seed), c);
    DrawShape(SeedStream(seed), c);
    if r.Success? && BoundsOf(c).twoMin > 0 && BoundsOf(c).oneMin > 0 {
      MultiplyMonotone(1, r.value.a, r.value.b);
    }
  }

  /**
   * With no config fields, every numeric seed gives a factor in [12, 99], a factor in
   * [2, 9], their product, and a report that is ok without warnings.
   */
  lemma DefaultConfig(seed: JsValue)
    requires seed.Number?
    ensures var c := Settings(None, None, None, None);
      var r := Draw(SeedStream(seed), c);
      && r.Success? && 12 <= r.value.a <= 99 && 2 <= r.value.b <= 9
      && r.value.answer == r.value.a * r.value.b
      && Generate(seed, c, Str("back")).Success?
      && Validate(seed, c) == Report(true, [])
  {
    var c := Settings(None, None, None, None);
    DrawShape(SeedStream(seed), c);
    ValidateOk(seed, c);
  }
}

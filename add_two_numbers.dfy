/**
 * The starter template (src/templates/_starter/add_two_numbers.js): two addends drawn from
 * the same range and their sum as the answer.
 */
module AddTwoNumbers {
  import opened Wrappers
  import opened Js
  import opened Rng
  import opened Cards

  const ID: string := "topic/add_two_numbers"

  const WARNING: string := "answer out of expected range"

  /** The numeric config fields; `None` is an absent field, replaced by its default. */
  datatype Settings = Settings(min: Option<int>, max: Option<int>)

  /** The range in force: `min` or 2, `max` or 12. */
  function Bounds(c: Settings): (r: (int, int))
    ensures r.0 == (if c.min.Some? then c.min.value else 2)
    ensures r.1 == (if c.max.Some? then c.max.value else 12)
  {
    (if c.min.Some? then c.min.value else 2, if c.max.Some? then c.max.value else 12)
  }

  /** The two addends and the sum. */
  datatype Problem = Problem(a: int, b: int, answer: int)

  /** `a = randInt(rng, min, max)`, `b = randInt(rng, min, max)`, `answer = a + b`. */
  function Draw(s: Stream, c: Settings): Result<Problem> {
    var (min, max) := Bounds(c);
    var a :- RandInt(s, min, max);
    var b := RandInt(a.rest, min, max).value;
    Success(Problem(a.value, b.value, a.value + b.value))
  }

  /**
   * The draw fails exactly when the range is empty; otherwise both addends lie in it, `a`
   * is the first draw and `b` the second, and the answer is `a + b`, so between `2 * min`
   * and `2 * max`.
   */
  lemma DrawShape(s: Stream, c: Settings)
    ensures var r := Draw(s, c);
      var (min, max) := Bounds(c);
      && (r.Failure? <==> max < min)
      && (r.Failure? ==> r.error == "randInt: max < min")
      && (r.Success? ==>
          && min <= r.value.a <= max && min <= r.value.b <= max
          && r.value.answer == r.value.a + r.value.b
          && 2 * min <= r.value.answer <= 2 * max
          && r.value.a == min + Scale(Next(s).value, max - min + 1)
          && r.value.b == min + Scale(Next(Advance(s, 1)).value, max - min + 1))
  {
    assert Advance(s, 1) == Next(s).rest;
  }

  /** The question of a card: `a + b = ` and then `answer`. */
  function Question(p: Problem, answer: string): string {
    "<div class=\"q\">" + IntToString(p.a) + " + " + IntToString(p.b) + " = " + answer + "</div>"
  }

  /** `generate({ seed, config, side })`. */
  function Generate(seed: JsValue, c: Settings, side: JsValue): Result<Card> {
    if !IsNumberType(seed) then Failure(SEED_REQUIRED)
    else
      var p :- Draw(SeedStream(seed), c);
      if !IsBack(side) then Success(Card(Question(p, "?"), map["a" := p.a, "b" := p.b]))
      else Success(Card(Question(p, "<b>" + IntToString(p.answer) + "</b>"),
                        map["a" := p.a, "b" := p.b, "answer" := p.answer]))
  }

  /** A seed that is not a number is rejected before any draw. */
  lemma SeedRequired(seed: JsValue, c: Settings, side: JsValue)
    requires !IsNumberType(seed)
    ensures Generate(seed, c, side) == Failure(SEED_REQUIRED)
  {
  }

  /**
   * Front and back fail together or show the same addends: the front asks `a + b = ?`
   * with data `{ a, b }`, the back shows the sum in bold and adds it to the data; `a` and
   * `b` are the first two draws of the stream seeded with `seed`.
   */
  lemma FrontBackParity(seed: JsValue, c: Settings)
    requires seed.Number?
    ensures var r := Draw(Seeded(seed.n), c);
      var front := Generate(seed, c, Str("front"));
      var back := Generate(seed, c, Str("back"));
      var (min, max) := Bounds(c);
      && (r.Failure? ==> front == back == Failure(r.error))
      && (r.Success? ==>
          var p := r.value;
          && front == Success(Card(Question(p, "?"), map["a" := p.a, "b" := p.b]))
          && back == Success(Card(Question(p, "<b>" + IntToString(p.a + p.b) + "</b>"),
                                  map["a" := p.a, "b" := p.b, "answer" := p.a + p.b]))
          && p.a == min + Scale(NthDraw(seed.n, 0), max - min + 1)
          && p.b == min + Scale(NthDraw(seed.n, 1), max - min + 1))
  {
    DrawShape(Seeded(seed.n), c);
  }

  /** `validate({ seed, config })`. */
  function Validate(seed: JsValue, c: Settings): Report {
    var (min, max) := Bounds(c);
    match Draw(SeedStream(seed), c)
    case Failure(e) => Crash([e])
    case Success(p) =>
      var ok := p.answer >= min * 2 && p.answer <= max * 2;
      Report(ok, if ok then [] else [WARNING])
  }

  /**
   * `validate` reports the draw's error when the range is empty, and otherwise is ok with
   * no warnings, whatever the seed.
   */
  lemma ValidateOk(seed: JsValue, c: Settings)
    ensures var r := Draw(SeedStream(seed), c);
      && (r.Failure? ==> Validate(seed, c) == Crash([r.error]))
      && (r.Success? ==> Validate(seed, c) == Report(true, []))
  {
    DrawShape(SeedStream(seed), c);
  }

  /** With no config fields, both addends lie in [2, 12] and the sum in [4, 24]. */
  lemma DefaultConfig(seed: JsValue)
    ensures var r := Draw(SeedStream(seed), Settings(None, None));
      && r.Success? && 2 <= r.value.a <= 12 && 2 <= r.value.b <= 12
      && 4 <= r.value.answer <= 24
  {
    DrawShape(SeedStream(seed), Settings(None, None));
  }
}

/**
 * Per-review seed resolution (src/runtime/reviewSeed.js): one seed shared by the front
 * and the back render of a card, handed over through a key-value store, unless a static
 * seed is configured.
 *
 * Which store `getStorage` finds is a parameter instead of being probed from the browser,
 * and the clocks and the crypto salt that `freshSeed` reads are parameters.
 */
module ReviewSeed {
  import opened Wrappers
  import opened Js
  import opened Rng

  const KEY_PREFIX: string := "anki.seed."

  /** `storageKey(templateId)`: the key the per-review seed of a template is kept under. */
  function StorageKey(templateId: string): (k: string)
    ensures |k| == |KEY_PREFIX| + |templateId|
    ensures k[..|KEY_PREFIX|] == KEY_PREFIX && k[|KEY_PREFIX|..] == templateId
  {
    KEY_PREFIX + templateId
  }

  /** Distinct templates never share a storage key. */
  lemma StorageKeyInjective(id1: string, id2: string)
    requires StorageKey(id1) == StorageKey(id2)
    ensures id1 == id2
  {
    assert id1 == StorageKey(id1)[|KEY_PREFIX|..];
  }

  /**
   * `coerceSeed(val)`: a finite number becomes `val >>> 0`; a string that is not blank
   * becomes `parseInt(val, 10) >>> 0` when it parses; anything else is `null` (None).
   */
  function CoerceSeed(val: JsValue): (r: Option<nat>)
    ensures r.Some? ==> r.value < TWO_32
    ensures val.Number? ==> r == Some(ToUint32(val.n))
    ensures val.Fractional? ==> r == Some(ToUint32(val.trunc))
    ensures val.Str? ==> (r.Some? <==> Trim(val.s) != "" && ParseInt(val.s).Some?)
    ensures val.Str? && r.Some? ==> r.value == ToUint32(ParseInt(val.s).value)
    ensures !val.Number? && !val.Fractional? && !val.Str? ==> r.None?
  {
    match val
    case Number(n) => Some(ToUint32(n))
    case Fractional(t) => Some(ToUint32(t))
    case Str(s) =>
      if Trim(s) != "" then
        match ParseInt(s)
        case Some(n) => Some(ToUint32(n))
        case None => None
      else None
    case _ => None
  }

  /** What the store holds after a front render, `String(s)`, coerces back to `s`. */
  lemma CoerceStoredSeed(s: nat)
    requires s < TWO_32
    ensures CoerceSeed(Str(NatToString(s))) == Some(s)
  {
    TrimOfNumeral(s);
    ParseIntOfNatToString(s);
  }

  /** The environment `freshSeed` reads: `Date.now()`, `performance.now()`, a crypto salt. */
  datatype Clock = Clock(now: int, highResolution: Option<int>, salt: Option<int>)

  /**
   * The seed `freshSeed` returns while the counter reads `counter`: the XOR of the wall
   * clock, the floored high-resolution clock (0 when absent), the counter and the salt
   * (0 when absent), each taken `>>> 0`, with 0 remapped to 1.
   */
  function FreshSeedValue(clock: Clock, counter: int): (s: nat)
    ensures 1 <= s < TWO_32
    ensures s == 1 || s == MixedSeed(clock, counter)
    ensures MixedSeed(clock, counter) != 0 ==> s == MixedSeed(clock, counter)
  {
    var x := MixedSeed(clock, counter);
    if x == 0 then 1 else x
  }

  function MixedSeed(clock: Clock, counter: int): Word {
    var extra := match clock.highResolution case Some(h) => ToUint32(h) case None => 0;
    var salt := match clock.salt case Some(v) => ToUint32(v) case None => 0;
    Xor32(Xor32(Xor32(ToUint32(clock.now), extra), ToUint32(counter)), salt)
  }

  /**
   * The store `getStorage()` returns: a web storage (`sessionStorage`, else `localStorage`),
   * whose items outlive the call, or else the in-memory fallback, a `Map` that every call
   * builds anew, so that nothing written to it is ever read back.
   */
  datatype Storage = WebStorage(items: map<string, string>) | MemoryFallback

  /** `store.getItem(key)`: the stored text, or `null`. */
  function GetItem(store: Storage, key: string): (v: JsValue)
    ensures store.MemoryFallback? ==> v == Null
    ensures store.WebStorage? ==> v == if key in store.items then Str(store.items[key]) else Null
  {
    if store.WebStorage? && key in store.items then Str(store.items[key]) else Null
  }

  /** `store.setItem(key, value)`: lost on the fallback. */
  function SetItem(store: Storage, key: string, value: string): (r: Storage)
    ensures r.WebStorage? <==> store.WebStorage?
    ensures r.WebStorage? ==> r.items == store.items[key := value]
  {
    match store
    case WebStorage(items) => WebStorage(items[key := value])
    case MemoryFallback => MemoryFallback
  }

  /** `store.removeItem(key)`. */
  function RemoveItem(store: Storage, key: string): (r: Storage)
    ensures r.WebStorage? <==> store.WebStorage?
    ensures r.WebStorage? ==> r.items == store.items - {key}
  {
    match store
    case WebStorage(items) => WebStorage(items - {key})
    case MemoryFallback => MemoryFallback
  }

  /**
   * Reading back: a web storage returns what was last written under a key and nothing once
   * it is removed, the fallback returns nothing, and other keys are untouched either way.
   */
  lemma ReadAfterWrite(store: Storage, key: string, other: string, value: string)
    ensures GetItem(SetItem(store, key, value), key) == if store.WebStorage? then Str(value) else Null
    ensures GetItem(RemoveItem(store, key), key) == Null
    ensures other != key ==> GetItem(SetItem(store, key, value), other) == GetItem(store, other)
    ensures other != key ==> GetItem(RemoveItem(store, key), other) == GetItem(store, other)
  {
  }

  /** The state the resolver changes: the store and the module-level `seedCounter`. */
  datatype SeedState = SeedState(store: Storage, counter: int)

  /** The seed a resolution returns (or its error) and the state after it. */
  datatype Resolution = Resolution(seed: Result<nat>, after: SeedState)

  /** `!templateId || typeof templateId !== "string"` fails. */
  predicate ValidTemplateId(templateId: JsValue) {
    templateId.Str? && templateId.s != ""
  }

  /** The side a call takes: `side = "front"` defaults an absent side to the front. */
  predicate IsFront(side: JsValue) {
    side == Undefined || side == Str("front")
  }

  /** `perReview = true` defaults an absent flag to true; otherwise its truthiness counts. */
  predicate PerReview(perReview: JsValue) {
    perReview == Undefined || Truthy(perReview)
  }

  /** The state after one `freshSeed()` call, and the seed it returns. */
  function Fresh(st: SeedState, clock: Clock): (r: Resolution)
    ensures r.seed.Success? && 1 <= r.seed.value < TWO_32
    ensures r.after == SeedState(st.store, st.counter + 1)
  {
    Resolution(Success(FreshSeedValue(clock, st.counter)), SeedState(st.store, st.counter + 1))
  }

  /** `resolveReviewSeed({templateId, seedField, side, perReview})` on the state `st`. */
  function Resolve(st: SeedState, templateId: JsValue, seedField: JsValue, side: JsValue,
                   perReview: JsValue, clock: Clock): (r: Resolution)
    ensures r.seed.Failure? <==> !ValidTemplateId(templateId)
    ensures r.seed.Success? ==> r.seed.value < TWO_32
    ensures r.after.counter == st.counter || r.after.counter == st.counter + 1
    ensures r.after.store.WebStorage? <==> st.store.WebStorage?
  {
    if !ValidTemplateId(templateId) then
      Resolution(Failure("resolveReviewSeed: templateId is required"), st)
    else
      var key := StorageKey(templateId.s);
      match CoerceSeed(seedField)
      case Some(provided) =>
        Resolution(Success(provided), SeedState(RemoveItem(st.store, key), st.counter))
      case None =>
        if !PerReview(perReview) then Fresh(st, clock)
        else if IsFront(side) then
          var r := Fresh(st, clock);
          Resolution(r.seed, SeedState(SetItem(st.store, key, NatToString(r.seed.value)), r.after.counter))
        else
          match CoerceSeed(GetItem(st.store, key))
          case Some(s) => Resolution(Success(s), SeedState(RemoveItem(st.store, key), st.counter))
          case None => Fresh(st, clock)
  }

  /** An empty or non-string template id fails before any storage access. */
  lemma InvalidTemplateId(st: SeedState, templateId: JsValue, seedField: JsValue, side: JsValue,
                          perReview: JsValue, clock: Clock)
    requires !ValidTemplateId(templateId)
    ensures Resolve(st, templateId, seedField, side, perReview, clock)
      == Resolution(Failure("resolveReviewSeed: templateId is required"), st)
  {
  }

  /**
   * Static mode: a seed field that coerces is returned as coerced whatever the side and
   * the per-review flag, its key is removed from the store and no fresh seed is drawn.
   */
  lemma StaticSeed(st: SeedState, id: string, seedField: JsValue, side: JsValue,
                   perReview: JsValue, clock: Clock)
    requires id != "" && CoerceSeed(seedField).Some?
    ensures Resolve(st, Str(id), seedField, side, perReview, clock)
      == Resolution(Success(CoerceSeed(seedField).value),
                    SeedState(RemoveItem(st.store, StorageKey(id)), st.counter))
  {
  }

  /** The static seed "123" resolves to 123 on both sides, whatever the store holds. */
  lemma StaticSeedExample(st: SeedState, st': SeedState, clock: Clock, clock': Clock)
    ensures Resolve(st, Str("t"), Str("123"), Str("front"), Undefined, clock).seed == Success(123)
    ensures Resolve(st', Str("t"), Str("123"), Str("back"), Undefined, clock').seed == Success(123)
  {
    assert NatToString(123) == "123";
    CoerceStoredSeed(123);
  }

  /** Without a usable seed field and with per-review off, a fresh seed is returned and the store is untouched. */
  lemma NotPerReview(st: SeedState, id: string, seedField: JsValue, side: JsValue,
                     perReview: JsValue, clock: Clock)
    requires id != "" && CoerceSeed(seedField).None? && !PerReview(perReview)
    ensures var r := Resolve(st, Str(id), seedField, side, perReview, clock);
      r.seed == Success(FreshSeedValue(clock, st.counter)) && r.after.store == st.store
      && r.after.counter == st.counter + 1
  {
  }

  /** A front render stores `String(s)` under the template's key and returns `s`, never 0. */
  lemma FrontStoresSeed(st: SeedState, id: string, seedField: JsValue, perReview: JsValue,
                        clock: Clock)
    requires id != "" && CoerceSeed(seedField).None? && PerReview(perReview)
    ensures var r := Resolve(st, Str(id), seedField, Str("front"), perReview, clock);
      && r.seed == Success(FreshSeedValue(clock, st.counter))
      && r.seed.value != 0
      && r.after == SeedState(SetItem(st.store, StorageKey(id), NatToString(r.seed.value)), st.counter + 1)
  {
  }

  /**
   * A back render (any side but "front") returns the stored seed and removes it when it
   * coerces; otherwise, and always on the in-memory fallback, it returns a fresh seed and
   * writes nothing.
   */
  lemma BackReadsSeed(st: SeedState, id: string, seedField: JsValue, side: JsValue,
                      perReview: JsValue, clock: Clock)
    requires id != "" && CoerceSeed(seedField).None? && PerReview(perReview) && !IsFront(side)
    ensures var key := StorageKey(id);
      var stored := CoerceSeed(GetItem(st.store, key));
      var r := Resolve(st, Str(id), seedField, side, perReview, clock);
      && (stored.Some? ==> r == Resolution(Success(stored.value), SeedState(RemoveItem(st.store, key), st.counter)))
      && (stored.None? ==> r == Fresh(st, clock) && r.after.store == st.store)
      && (st.store.MemoryFallback? ==> stored.None?)
  {
  }

  /**
   * The handover through a web storage: after a front render, a back render of the same
   * template returns the same seed, and the store ends as it was before the front render
   * minus the key.
   */
  lemma {:induction false} FrontThenBack(st: SeedState, id: string, seedField: JsValue,
                                         perReview: JsValue, back: JsValue,
                                         frontClock: Clock, backClock: Clock)
    requires id != "" && CoerceSeed(seedField).None? && PerReview(perReview) && !IsFront(back)
    requires st.store.WebStorage?
    ensures var f := Resolve(st, Str(id), seedField, Str("front"), perReview, frontClock);
      var b := Resolve(f.after, Str(id), seedField, back, perReview, backClock);
      && f.seed.Success? && b.seed == f.seed
      && b.after == SeedState(RemoveItem(st.store, StorageKey(id)), st.counter + 1)
  {
    var key := StorageKey(id);
    var f := Resolve(st, Str(id), seedField, Str("front"), perReview, frontClock);
    CoerceStoredSeed(f.seed.value);
    assert f.after.store.items[key] == NatToString(f.seed.value);
    assert f.after.store.items - {key} == st.store.items - {key};
  }

  /**
   * Without a web storage the front's seed is lost: the back render draws a fresh seed of
   * its own, from the next counter value and its own clocks, so the two sides can differ.
   */
  lemma FallbackLosesSeed(st: SeedState, id: string, seedField: JsValue, perReview: JsValue,
                          back: JsValue, frontClock: Clock, backClock: Clock)
    requires id != "" && CoerceSeed(seedField).None? && PerReview(perReview) && !IsFront(back)
    requires st.store.MemoryFallback?
    ensures var f := Resolve(st, Str(id), seedField, Str("front"), perReview, frontClock);
      var b := Resolve(f.after, Str(id), seedField, back, perReview, backClock);
      && f.seed == Success(FreshSeedValue(frontClock, st.counter))
      && b.seed == Success(FreshSeedValue(backClock, st.counter + 1))
      && b.after == SeedState(MemoryFallback, st.counter + 2)
  {
  }

  /**
   * The resolver with its store and the module-level counter of `freshSeed` as fields.
   */
  class SeedResolver {
    var store: Storage
    var seedCounter: int

    function State(): SeedState
      reads this
    {
      SeedState(store, seedCounter)
    }

    /** A resolver over the store the page provides; the counter starts at 1. */
    constructor (initial: Storage)
      ensures store == initial && seedCounter == 1
    {
      store := initial;
      seedCounter := 1;
    }

    /** `freshSeed()`: a non-zero seed; the counter advances by one. */
    method FreshSeed(clock: Clock) returns (s: nat)
      modifies this`seedCounter
      ensures s == FreshSeedValue(clock, old(seedCounter)) && 1 <= s < TWO_32
      ensures seedCounter == old(seedCounter) + 1
    {
      s := FreshSeedValue(clock, seedCounter);
      seedCounter := seedCounter + 1;
    }

    /** `resolveReviewSeed`, with its `setItem`/`removeItem` effects applied to `store`. */
    method ResolveReviewSeed(templateId: JsValue, seedField: JsValue, side: JsValue,
                             perReview: JsValue, clock: Clock) returns (r: Result<nat>)
      modifies this
      ensures Resolution(r, State()) == old(Resolve(State(), templateId, seedField, side, perReview, clock))
    {
      ghost var expected := Resolve(State(), templateId, seedField, side, perReview, clock);
      if !ValidTemplateId(templateId) {
        r := Failure("resolveReviewSeed: templateId is required");
        return;
      }
      var key := StorageKey(templateId.s);
      var provided := CoerceSeed(seedField);
      if provided.Some? {
        store := RemoveItem(store, key);
        r := Success(provided.value);
      } else if !PerReview(perReview) {
        var s := FreshSeed(clock);
        r := Success(s);
      } else if IsFront(side) {
        var s := FreshSeed(clock);
        store := SetItem(store, key, NatToString(s));
        r := Success(s);
      } else {
        var stored := CoerceSeed(GetItem(store, key));
        if stored.Some? {
          store := RemoveItem(store, key);
          r := Success(stored.value);
        } else {
          var s := FreshSeed(clock);
          r := Success(s);
        }
      }
      assert Resolution(r, State()) == expected;
    }
  }
}

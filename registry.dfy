/**
 * The template registry (src/runtime/index.js): a prototype-free dictionary from template
 * id to implementation, written by `registerTemplate` and read by `getTemplate`.
 */
module Registry {
  import opened Wrappers
  import opened Js

  /**
   * A template implementation as the registry sees it: its own id and whether its
   * `generate` and `validate` members are functions. A falsy `impl` is `None` below.
   */
  datatype Impl = Impl(id: string, generateIsFunction: bool, validateIsFunction: bool)

  type Entries = map<string, Impl>

  /** The registry after `registerTemplate(id, impl)`, or the error it throws. */
  function RegisterIn(entries: Entries, id: JsValue, impl: Option<Impl>): (r: Result<Entries>)
    ensures r.Success? <==> id.Str? && id.s != "" && impl.Some? && impl.value.generateIsFunction
    ensures r.Success? ==> r.value == entries[id.s := impl.value]
    ensures !(id.Str? && id.s != "") ==> r == Failure("registerTemplate: id must be a non-empty string")
    ensures id.Str? && id.s != "" && !(impl.Some? && impl.value.generateIsFunction) ==>
      r == Failure("registerTemplate: impl must include generate(opts)")
  {
    if !Truthy(id) || !id.Str? then Failure("registerTemplate: id must be a non-empty string")
    else if impl.None? || !impl.value.generateIsFunction then
      Failure("registerTemplate: impl must include generate(opts)")
    else Success(entries[id.s := impl.value])
  }

  /** `getTemplate(id)`: the registered implementation, or the error it throws. */
  function Lookup(entries: Entries, id: string): (r: Result<Impl>)
    ensures r.Success? <==> id in entries
    ensures r.Success? ==> r.value == entries[id]
    ensures r.Failure? ==> r.error == "Unknown template: " + id
  {
    if id in entries then Success(entries[id]) else Failure("Unknown template: " + id)
  }

  /** A registered template is what `getTemplate` returns for its id afterwards. */
  lemma RegisterThenLookup(entries: Entries, id: string, impl: Impl)
    requires id != "" && impl.generateIsFunction
    ensures RegisterIn(entries, Str(id), Some(impl)).Success?
    ensures Lookup(RegisterIn(entries, Str(id), Some(impl)).value, id) == Success(impl)
  {
  }

  /** Registering under one id leaves every other id as it was, found or unknown. */
  lemma RegisterKeepsOthers(entries: Entries, id: string, impl: Impl, other: string)
    requires id != "" && impl.generateIsFunction && other != id
    ensures Lookup(RegisterIn(entries, Str(id), Some(impl)).value, other) == Lookup(entries, other)
  {
  }

  /** Registering twice under the same id keeps the last implementation only. */
  lemma LastRegistrationWins(entries: Entries, id: string, first: Impl, second: Impl)
    requires id != "" && first.generateIsFunction && second.generateIsFunction
    ensures var once := RegisterIn(entries, Str(id), Some(first)).value;
      RegisterIn(once, Str(id), Some(second)) == RegisterIn(entries, Str(id), Some(second))
  {
    var once := RegisterIn(entries, Str(id), Some(first)).value;
    assert once[id := second] == entries[id := second];
  }

  /** The template ids of the generation core. */
  const TEMPLATE_IDS: seq<string> :=
    ["topic/add_two_numbers", "arithmetic/multiply_2d_by_1d", "number_theory/gcf_basic",
     "number_theory/lcm_basic"]

  /** Registers each implementation under its own id, in order. */
  function RegisterAll(entries: Entries, impls: seq<Impl>): Result<Entries>
    decreases |impls|
  {
    if |impls| == 0 then Success(entries)
    else
      var next :- RegisterIn(entries, Str(impls[0].id), Some(impls[0]));
      RegisterAll(next, impls[1..])
  }

  /**
   * Registering implementations with distinct non-empty ids and a `generate` function
   * succeeds, and afterwards each id looks up its own implementation.
   */
  lemma {:induction false} RegisterAllFindsEach(entries: Entries, impls: seq<Impl>)
    requires forall i :: 0 <= i < |impls| ==> impls[i].id != "" && impls[i].generateIsFunction
    requires forall i, j :: 0 <= i < j < |impls| ==> impls[i].id != impls[j].id
    ensures RegisterAll(entries, impls).Success?
    ensures forall i :: 0 <= i < |impls| ==>
      Lookup(RegisterAll(entries, impls).value, impls[i].id) == Success(impls[i])
    ensures forall other :: (forall i :: 0 <= i < |impls| ==> impls[i].id != other) ==>
      Lookup(RegisterAll(entries, impls).value, other) == Lookup(entries, other)
    decreases |impls|
  {
    if |impls| > 0 {
      var next := RegisterIn(entries, Str(impls[0].id), Some(impls[0])).value;
      RegisterAllFindsEach(next, impls[1..]);
      var all := RegisterAll(entries, impls).value;
      assert all == RegisterAll(next, impls[1..]).value;
      forall i | 0 <= i < |impls|
        ensures Lookup(all, impls[i].id) == Success(impls[i])
      {
        if i > 0 {
          assert impls[1..][i - 1] == impls[i];
        } else {
          assert forall j :: 0 <= j < |impls[1..]| ==> impls[1..][j].id != impls[0].id by {
            forall j | 0 <= j < |impls[1..]| ensures impls[1..][j].id != impls[0].id {
              assert impls[1..][j] == impls[j + 1];
            }
          }
        }
      }
      forall other | forall i :: 0 <= i < |impls| ==> impls[i].id != other
        ensures Lookup(all, other) == Lookup(entries, other)
      {
        assert forall j :: 0 <= j < |impls[1..]| ==> impls[1..][j].id != other by {
          forall j | 0 <= j < |impls[1..]| ensures impls[1..][j].id != other {
            assert impls[1..][j] == impls[j + 1];
          }
        }
      }
    }
  }

  /**
   * The four registrations the bundle makes, each template under its own id, start from an
   * empty registry and leave every one of them retrievable.
   */
  lemma CoreTemplatesRegistered(add: Impl, multiply: Impl, gcf: Impl, lcm: Impl)
    requires add.id == TEMPLATE_IDS[0] && multiply.id == TEMPLATE_IDS[1]
    requires gcf.id == TEMPLATE_IDS[2] && lcm.id == TEMPLATE_IDS[3]
    requires add.generateIsFunction && multiply.generateIsFunction
    requires gcf.generateIsFunction && lcm.generateIsFunction
    ensures var impls := [add, multiply, gcf, lcm];
      && RegisterAll(map[], impls).Success?
      && forall i :: 0 <= i < 4 ==> Lookup(RegisterAll(map[], impls).value, TEMPLATE_IDS[i]) == Success(impls[i])
  {
    var impls := [add, multiply, gcf, lcm];
    assert add.id[0] == 't' && multiply.id[0] == 'a' && gcf.id[0] == 'n' && lcm.id[0] == 'n';
    assert |add.id| == 21 && |multiply.id| == 28;
    assert gcf.id[14] == 'g' && lcm.id[14] == 'l';
    RegisterAllFindsEach(map[], impls);
  }

  /** The registry object, with its dictionary as a field. */
  class TemplateRegistry {
    var entries: Entries

    /** `Object.create(null)`: no template is registered. */
    constructor ()
      ensures entries == map[]
    {
      entries := map[];
    }

    /** `registerTemplate(id, impl)`: returns `impl` on success; the registry changes only then. */
    method Register(id: JsValue, impl: Option<Impl>) returns (r: Result<Impl>)
      modifies this
      ensures RegisterIn(old(entries), id, impl).Success? ==>
        r == Success(impl.value) && entries == RegisterIn(old(entries), id, impl).value
      ensures RegisterIn(old(entries), id, impl).Failure? ==>
        r == Failure(RegisterIn(old(entries), id, impl).error) && entries == old(entries)
    {
      if !Truthy(id) || !id.Str? {
        return Failure("registerTemplate: id must be a non-empty string");
      }
      if impl.None? || !impl.value.generateIsFunction {
        return Failure("registerTemplate: impl must include generate(opts)");
      }
      entries := entries[id.s := impl.value];
      return Success(impl.value);
    }

    /** `getTemplate(id)`. */
    method Get(id: string) returns (r: Result<Impl>)
      ensures r == Lookup(entries, id)
      ensures r.Success? <==> id in entries
    {
      if id in entries {
        return Success(entries[id]);
      }
      return Failure("Unknown template: " + id);
    }
  }
}

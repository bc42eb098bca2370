/**
 * `GlobalElaborationContext` (amigen.py:273-296), the per-object and per-class
 * hook lists, and element construction through `ElementMeta.__call__`
 * (amigen.py:149-180, 203-208). Hooks are user functions; running one is
 * recorded as an event carrying the context it was given.
 */
module Tracking {
  import opened Wrappers
  import opened Keys
  import opened Contexts
  import opened Elements

  /** What the engine does that user code can observe, in order. */
  datatype Event =
    /** a hook function called with this context (`None` outside any elaboration) */
    | HookRun(at: Option<Context>, hook: HookId)
    /** the original `create` of the element whose context this is starts */
    | Created(node: Context)
    /** `finalize` of the element whose context this is starts */
    | Finalized(node: Context)

  /** The hooks `hs`, run one after the other with context `ctx`. */
  function HookEvents(ctx: Context, hs: seq<HookId>): (r: seq<Event>)
    ensures |r| == |hs|
    ensures forall i :: 0 <= i < |hs| ==> r[i] == HookRun(Some(ctx), hs[i])
  {
    if hs == [] then [] else [HookRun(Some(ctx), hs[0])] + HookEvents(ctx, hs[1..])
  }

  /** The context an event happened in. */
  function AtOf(ev: Event): Option<Context>
  {
    match ev
    case HookRun(at, _) => at
    case Created(c) => Some(c)
    case Finalized(c) => Some(c)
  }

  /** The event happened in the context `c` or in one of its descendants. */
  predicate InSubtree(ev: Event, c: Context)
  {
    AtOf(ev).Some? && |AtOf(ev).value| >= |c| && AtOf(ev).value[|AtOf(ev).value| - |c|..] == c
  }

  /** The event belongs to the elaboration of the node with context `ctx` (visible or hidden below it). */
  predicate WithinNode(ev: Event, ctx: Context)
    requires |ctx| > 0
  {
    InSubtree(ev, ctx) || InSubtree(ev, CopyInvisible(ctx))
  }

  /** Whatever happens while elaborating a child of `c` happens below `c`. */
  lemma WithinChildIsBelow(ev: Event, f: Frame, c: Context)
    requires WithinNode(ev, [f] + c)
    ensures InSubtree(ev, c)
  {
    var at := AtOf(ev).value;
    var cc := [f] + c;
    var hidden := CopyInvisible(cc);
    assert cc[1..] == c && hidden[1..] == c;
    if InSubtree(ev, cc) {
      assert at[|at| - |cc|..][1..] == at[|at| - |c|..];
    } else {
      assert at[|at| - |hidden|..][1..] == at[|at| - |c|..];
    }
  }

  /** One statement of an element constructor's body that the engine sees. */
  datatype InitStep =
    /** `GlobalElaborationContext.with_context(hook)` */
    | Register(hook: HookId)
    /** constructing another element, e.g. a child kept for later */
    | Build(spec: ElementSpec)
    /** an exception */
    | Raise

  /** A call `Cls(..., key = key, name = name)` of an element class. */
  datatype ElementSpec = ElementSpec(
    cls: string,
    name: Option<string>,
    key: Option<Key>,
    create: seq<Action>,
    finalize: seq<Action>,
    init: seq<InitStep>)

  /** The hooks a constructor body registers for its own element, in order. */
  function Registered(init: seq<InitStep>): (r: seq<HookId>)
    ensures |r| <= |init|
  {
    if init == [] then []
    else
      var last := init[|init| - 1];
      Registered(init[..|init| - 1]) + if last.Register? then [last.hook] else []
  }

  /** The process-wide state of the engine. */
  class Tracker {
    /** `GlobalElaborationContext.current_context` */
    var currentContext: Option<Context>
    /** `GlobalElaborationContext.current_element`: the element whose constructor is running */
    var currentElement: Option<ObjId>
    /** each element's `on_context_available` */
    var instanceHooks: map<ObjId, seq<HookId>>
    /** each class's `cls_on_context_available` */
    var classHooks: map<string, seq<HookId>>
    /** the identity the next constructed object gets */
    var nextObject: ObjId
    /** the hooks run so far, and the start of each `create` and `finalize` */
    var trace: seq<Event>
    /** the elements that have an `m` attribute, i.e. whose elaboration started */
    var elaborated: set<ObjId>

    /** Hook lists exist only for objects already created, and the element under construction is one. */
    ghost predicate Valid()
      reads this
    {
      (forall o :: o in instanceHooks ==> o < nextObject)
      && (currentElement.Some? ==> currentElement.value < nextObject)
    }

    constructor ()
      ensures Valid()
      ensures currentContext == None && currentElement == None
      ensures instanceHooks == map[] && classHooks == map[] && nextObject == 0
      ensures trace == [] && elaborated == {}
    {
      currentContext := None;
      currentElement := None;
      instanceHooks := map[];
      classHooks := map[];
      nextObject := 0;
      trace := [];
      elaborated := {};
    }

    function InstanceHooksOf(o: ObjId): seq<HookId>
      reads this
    {
      if o in instanceHooks then instanceHooks[o] else []
    }

    function ClassHooksOf(cls: string): seq<HookId>
      reads this
    {
      if cls in classHooks then classHooks[cls] else []
    }

    /**
     * `with_context(hook)`: inside an element constructor the hook is kept for
     * that element; otherwise it runs once, now, with the current context.
     */
    method WithContext(hook: HookId)
      requires Valid()
      modifies this
      ensures Valid()
      ensures currentElement.Some? ==>
                var o := currentElement.value;
                instanceHooks == old(instanceHooks)[o := old(InstanceHooksOf(o)) + [hook]] && trace == old(trace)
      ensures currentElement.None? ==>
                trace == old(trace) + [HookRun(currentContext, hook)] && instanceHooks == old(instanceHooks)
      ensures currentContext == old(currentContext) && currentElement == old(currentElement)
      ensures classHooks == old(classHooks) && nextObject == old(nextObject) && elaborated == old(elaborated)
    {
      if currentElement.Some? {
        instanceHooks := instanceHooks[currentElement.value := InstanceHooksOf(currentElement.value) + [hook]];
      } else {
        trace := trace + [HookRun(currentContext, hook)];
      }
    }
    /** A hook called with `ctx`, or the start of a `create` or `finalize`. */
    method Record(ev: Event)
      modifies this
      ensures trace == old(trace) + [ev]
      ensures currentContext == old(currentContext) && currentElement == old(currentElement)
      ensures instanceHooks == old(instanceHooks) && classHooks == old(classHooks)
      ensures nextObject == old(nextObject) && elaborated == old(elaborated)
    {
      trace := trace + [ev];
    }

    /** `add_class_context_hook(hook)` on class `cls`: append to the class's list. */
    method AddClassContextHook(cls: string, hook: HookId)
      modifies this
      ensures classHooks == old(classHooks)[cls := old(ClassHooksOf(cls)) + [hook]]
      ensures currentContext == old(currentContext) && currentElement == old(currentElement)
      ensures instanceHooks == old(instanceHooks) && nextObject == old(nextObject)
      ensures trace == old(trace) && elaborated == old(elaborated)
    {
      classHooks := classHooks[cls := ClassHooksOf(cls) + [hook]];
    }

    /**
     * `ElementMeta.__call__`: a new object gets `key`, `name`, an empty hook
     * list and an empty `domain_map`, then its constructor body runs with the
     * object as `current_element`. The previous `current_element` is put back
     * only when the body returns: there is no `finally`.
     */
    method Construct(spec: ElementSpec) returns (r: Result<Element, Error>)
      requires Valid()
      modifies this
      decreases spec
      ensures Valid()
      ensures nextObject > old(nextObject)
      ensures r.Success? ==> r.value == Element(old(nextObject), spec.cls, spec.name, spec.key, [], spec.create, spec.finalize)
      ensures r.Success? ==> InstanceHooksOf(r.value.oid) == Registered(spec.init)
      ensures r.Success? ==> currentElement == old(currentElement)
      ensures r.Failure? ==> currentElement.Some? && currentElement.value >= old(nextObject)
      ensures forall o :: 0 <= o < old(nextObject) ==> InstanceHooksOf(o) == old(InstanceHooksOf(o))
      ensures currentContext == old(currentContext) && classHooks == old(classHooks)
      ensures trace == old(trace) && elaborated == old(elaborated)
    {
      var oid := nextObject;
      nextObject := nextObject + 1;
      var previous := currentElement;
      currentElement := Some(oid);
      instanceHooks := instanceHooks[oid := []];
      for i := 0 to |spec.init|
        invariant Valid()
        invariant currentElement == Some(oid) && nextObject > oid
        invariant InstanceHooksOf(oid) == Registered(spec.init[..i])
        invariant forall o :: 0 <= o < oid ==> InstanceHooksOf(o) == old(InstanceHooksOf(o))
        invariant currentContext == old(currentContext) && classHooks == old(classHooks)
        invariant trace == old(trace) && elaborated == old(elaborated)
      {
        assert spec.init[..i + 1][..i] == spec.init[..i];
        match spec.init[i]
        case Register(h) =>
          WithContext(h);
        case Build(inner) =>
          var built := Construct(inner);
          if built.Failure? {
            return Failure(built.error);
          }
        case Raise =>
          return Failure(ConstructorRaised(oid));
      }
      assert spec.init[..|spec.init|] == spec.init;
      currentElement := previous;
      r := Success(Element(oid, spec.cls, spec.name, spec.key, [], spec.create, spec.finalize));
    }
  }

  /**
   * What an elaboration step leaves alone: the current context and element,
   * the class hooks, the object counter, and (outside constructors) the
   * instance hooks; the trace and the set of elaborated elements only grow.
   */
  twostate predicate Steady(t: Tracker)
    reads t
  {
    && t.currentContext == old(t.currentContext) && t.currentElement == old(t.currentElement)
    && t.classHooks == old(t.classHooks) && t.nextObject == old(t.nextObject)
    && (t.currentElement.None? ==> t.instanceHooks == old(t.instanceHooks))
    && |t.trace| >= |old(t.trace)| && t.trace[..|old(t.trace)|] == old(t.trace)
    && old(t.elaborated) <= t.elaborated
  }
}

/**
 * The first prototype of the engine (a.py): keys, ancestor lookup without
 * visibility, a `create` -> children -> `finalize` walk that never restores the
 * global context, and the `Ila` probe-routing element.
 *
 * `Key` and `GlobalKey` (a.py:9-23) are the same as in amigen.py and are modelled
 * by module `Keys`; the contexts reuse the frames of module `Contexts`, every
 * frame visible, with no element names.
 */
module Prototype {
  import opened Wrappers
  import opened Keys
  import opened Contexts

  /** The exceptions the prototype raises. */
  datatype PError =
    /** AttributeError: reading an attribute the object does not have */
    | MissingAttribute(attr: string)
    /** the RuntimeError of `Element.elaborate` */
    | ElaborateOnElement

  /** An argument of `add_probe`: a signal, or an element object. */
  datatype Value = SignalValue(id: nat) | ElementValue(info: ElemInfo)

  /** A statement added to `m.d.sync`. */
  datatype Stmt =
    /** a statement of the element's own code */
    | UserStatement(id: nat)
    /** `probe_storage.eq(Cat(probe, probe_storage))`, with `probe_storage` a fresh signal */
    | ProbeShift(storage: nat, probe: Option<Value>)

  /** What a `create` or `finalize` body does that the prototype can observe. */
  datatype PAction =
    /** `self.m.submodules += [child]` */
    | AppendChild(child: PElement)
    /** `self.m.d.sync += ...` */
    | AddStatement(id: nat)
    /** `Ila.add_probe(v)` */
    | ProbeViaIla(v: Value)
    /** `context.find_by_key(key).add_probe(v)` */
    | ProbeByKey(key: Option<Key>, v: Value)

  /** An element object: an `Ila` around its child, or an element of another class with its two scripts. */
  datatype PElement =
    | Ila(oid: ObjId, key: Option<Key>, child: PElement)
    | Plain(oid: ObjId, cls: string, key: Option<Key>, create: seq<PAction>, finalize: seq<PAction>)

  /** A `ModuleWrapper`: the `submodules` list, the modules added with `_add_submodule`, and the statements. */
  datatype PModule = PModule(submodules: seq<PElement>, converted: seq<PModule>, statements: seq<Stmt>)

  /** The moments at which an element's two phases start. */
  datatype PEvent = Created(oid: ObjId) | Finalized(oid: ObjId)

  /**
   * The state shared by the whole walk: `GlobalElaborationContext.current_context`
   * (`None` while unset), each `Ila`'s `probes` list, the next fresh signal, and
   * the phases started so far.
   */
  datatype PState = PState(current: Option<Context>, probes: map<ObjId, seq<Option<Value>>>, nextSignal: nat, trace: seq<PEvent>)

  /** What an operation leaves behind: its result or the exception it raised, and the state at that point. */
  datatype Outcome<T> = Outcome(r: Result<T, PError>, s: PState)

  function IlaClass(): ClassRef
  {
    ClassRef("Ila", {})
  }

  /** What a context frame records of an element. */
  function PInfo(e: PElement): ElemInfo
  {
    match e
    case Ila(oid, key, _) => ElemInfo(oid, "Ila", "", key)
    case Plain(oid, cls, key, _, _) => ElemInfo(oid, cls, "", key)
  }

  // ---------------------------------------------------------------- construction (a.py:30-35)

  /** One step of an `__init__` body, as far as the `key` attribute goes. */
  datatype InitStep = ReadKey | AssignKey(k: Option<Key>) | OtherInit

  /** `__init__` reads `self.key` before anything assigns it. */
  ghost predicate ReadsUnsetKey(steps: seq<InitStep>)
  {
    exists i :: 0 <= i < |steps| && steps[i].ReadKey? && forall j :: 0 <= j < i ==> !steps[j].AssignKey?
  }

  /** Whether `__init__` reads an unset key depends on its first step and, past that, on the rest. */
  lemma ReadsUnsetKeyFirst(steps: seq<InitStep>)
    requires steps != []
    ensures ReadsUnsetKey(steps) <==> steps[0].ReadKey? || (!steps[0].AssignKey? && ReadsUnsetKey(steps[1..]))
  {
    var rest := steps[1..];
    if ReadsUnsetKey(steps) && !steps[0].ReadKey? {
      var i :| 0 <= i < |steps| && steps[i].ReadKey? && forall j :: 0 <= j < i ==> !steps[j].AssignKey?;
      assert rest[i - 1].ReadKey? && forall j :: 0 <= j < i - 1 ==> !rest[j].AssignKey?;
    }
    if !steps[0].AssignKey? && ReadsUnsetKey(rest) {
      var i :| 0 <= i < |rest| && rest[i].ReadKey? && forall j :: 0 <= j < i ==> !rest[j].AssignKey?;
      assert steps[i + 1].ReadKey? && forall j :: 0 <= j < i + 1 ==> !steps[j].AssignKey?;
    }
    if steps[0].ReadKey? {
      var first := 0;
      assert steps[first].ReadKey?;
    }
  }

  /** Run `__init__`, with the `key` attribute set or not: the AttributeError it raises, if any. */
  function RunInit(steps: seq<InitStep>, keySet: bool): (r: Option<PError>)
    ensures r.Some? <==> !keySet && ReadsUnsetKey(steps)
    ensures r.Some? ==> r.value == MissingAttribute("key")
  {
    if steps == [] then None
    else
      ReadsUnsetKeyFirst(steps);
      if steps[0].ReadKey? && !keySet then Some(MissingAttribute("key"))
      else RunInit(steps[1..], keySet || steps[0].AssignKey?)
  }

  /**
   * `ElementMeta.__call__(cls, ..., key=key)`: `__init__` runs first, without
   * the `key` keyword and before `key` is set, then `key` is assigned; the
   * object's key is `key` whatever `__init__` assigned.
   */
  function Construct(steps: seq<InitStep>, key: Option<Key>): (r: Result<Option<Key>, PError>)
    ensures r.Failure? <==> ReadsUnsetKey(steps)
    ensures r.Failure? ==> r.error == MissingAttribute("key")
    ensures r.Success? ==> r.value == key
  {
    match RunInit(steps, false)
    case Some(err) => Failure(err)
    case None => Success(key)
  }

  /** A constructor that assigns `self.key` itself before reading it succeeds, and the meta-class overwrites that key. */
  lemma AssignedKeyIsOverwritten(mine: Option<Key>, key: Option<Key>)
    ensures Construct([AssignKey(mine), ReadKey], key) == Success(key)
  {
    assert !ReadsUnsetKey([AssignKey(mine), ReadKey]) by {
      var steps := [AssignKey(mine), ReadKey];
      forall i | 0 <= i < |steps| && steps[i].ReadKey? ensures exists j :: 0 <= j < i && steps[j].AssignKey? {
        assert steps[0].AssignKey?;
      }
    }
  }

  /** `Element.elaborate` (a.py:47-48): handing an element to the backend unconverted always raises. */
  function DirectElaborate(e: PElement): (r: Result<PModule, PError>)
    ensures r.Failure? && r.error == ElaborateOnElement
  {
    Failure(ElaborateOnElement)
  }

  // ---------------------------------------------------------------- lookup (a.py:91-101)

  /** The test inside the two search loops of the prototype: no visibility. */
  predicate PMatches(f: Frame, q: Query)
  {
    match q
    case OfClass(c) => IsInstance(f.elem.cls, c)
    case WithKey(k) => ElementKeyEquals(f.elem.key, k)
  }

  /** The search loop standing at `ctx[i]`: step to the parent, test it, until the root is passed. */
  function ProtoSearchFrom(ctx: Context, q: Query, i: nat): (r: Option<nat>)
    requires i < |ctx|
    ensures r.Some? ==> i < r.value < |ctx| && PMatches(ctx[r.value], q)
    ensures r.Some? ==> forall j :: i < j < r.value ==> !PMatches(ctx[j], q)
    ensures r.None? ==> forall j :: i < j < |ctx| ==> !PMatches(ctx[j], q)
    decreases |ctx| - i
  {
    if i + 1 == |ctx| then None
    else if PMatches(ctx[i + 1], q) then Some(i + 1)
    else ProtoSearchFrom(ctx, q, i + 1)
  }

  function ProtoLookup(ctx: Context, q: Query): (r: Option<nat>)
    ensures r.Some? ==> 1 <= r.value < |ctx| && PMatches(ctx[r.value], q)
    ensures r.Some? ==> forall j :: 1 <= j < r.value ==> !PMatches(ctx[j], q)
    ensures r.None? <==> forall j :: 1 <= j < |ctx| ==> !PMatches(ctx[j], q)
  {
    if ctx == [] then None else ProtoSearchFrom(ctx, q, 0)
  }

  /** `context.find(cls)`: the nearest strict ancestor that is an instance of `cls`, visible or not. */
  function ProtoFind(ctx: Context, cls: ClassRef): (r: Option<nat>)
    ensures r.Some? ==> 1 <= r.value < |ctx| && IsInstance(ctx[r.value].elem.cls, cls)
    ensures r.Some? ==> forall j :: 1 <= j < r.value ==> !IsInstance(ctx[j].elem.cls, cls)
    ensures r.None? <==> forall j :: 1 <= j < |ctx| ==> !IsInstance(ctx[j].elem.cls, cls)
  {
    ProtoLookup(ctx, OfClass(cls))
  }

  /** `context.find_by_key(key)`: the nearest strict ancestor whose key equals `key`, visible or not. */
  function ProtoFindByKey(ctx: Context, key: Option<Key>): (r: Option<nat>)
    ensures r.Some? ==> 1 <= r.value < |ctx| && ctx[r.value].elem.key == key
    ensures r.Some? ==> forall j :: 1 <= j < r.value ==> ctx[j].elem.key != key
    ensures r.None? <==> forall j :: 1 <= j < |ctx| ==> ctx[j].elem.key != key
  {
    var r := ProtoLookup(ctx, WithKey(key));
    forall j | 0 <= j < |ctx| ensures PMatches(ctx[j], WithKey(key)) <==> ctx[j].elem.key == key {
      ElementKeyEqualsIsEquality(ctx[j].elem.key, key);
    }
    r
  }

  /** The same context with every frame visible. */
  function ShowAll(ctx: Context): (r: Context)
    ensures |r| == |ctx|
    ensures forall i :: 0 <= i < |ctx| ==> r[i] == ctx[i].(visible := true)
  {
    if ctx == [] then [] else [ctx[0].(visible := true)] + ShowAll(ctx[1..])
  }

  /** The prototype's searches are the later engine's searches with every frame visible. */
  lemma ProtoLookupIsLookup(ctx: Context, q: Query)
    requires |ctx| > 0
    ensures ProtoLookup(ctx, q) == Lookup(ShowAll(ctx), q)
  {
    var all := ShowAll(ctx);
    assert forall j :: 0 <= j < |ctx| ==> (Matches(all[j], q) <==> PMatches(ctx[j], q));
    NearestMatchUnique(all, q, ProtoLookup(ctx, q), Lookup(all, q));
  }

  /** On a context whose frames are all visible, the prototype's `find` and the engine's agree. */
  lemma ProtoFindAgreesWhenVisible(ctx: Context, cls: ClassRef, key: Option<Key>)
    requires |ctx| > 0 && forall i :: 0 <= i < |ctx| ==> ctx[i].visible
    ensures ProtoFind(ctx, cls) == Find(ctx, cls)
    ensures ProtoFindByKey(ctx, key) == FindByKey(ctx, key)
  {
    assert ShowAll(ctx) == ctx;
    ProtoLookupIsLookup(ctx, OfClass(cls));
    ProtoLookupIsLookup(ctx, WithKey(key));
  }

  // ---------------------------------------------------------------- probes (a.py:51-68)

  /** `ila.probes`; an `Ila` that has no entry yet has the empty list of its `__init__`. */
  function ProbesOf(s: PState, oid: ObjId): seq<Option<Value>>
  {
    if oid in s.probes then s.probes[oid] else []
  }

  /** `ila.probes.append(p)` */
  function WithProbe(s: PState, oid: ObjId, p: Option<Value>): PState
  {
    s.(probes := s.probes[oid := ProbesOf(s, oid) + [p]])
  }

  /** Appending a probe extends that `Ila`'s list by it and changes no other list and nothing else. */
  lemma WithProbeEffects(s: PState, oid: ObjId, p: Option<Value>)
    ensures var r := WithProbe(s, oid, p);
            && ProbesOf(r, oid) == ProbesOf(s, oid) + [p]
            && (forall o :: o != oid ==> ProbesOf(r, o) == ProbesOf(s, o))
            && r.current == s.current && r.nextSignal == s.nextSignal && r.trace == s.trace
  {
  }

  predicate IsIla(v: Value)
  {
    v.ElementValue? && IsInstance(v.info.cls, IlaClass())
  }

  /**
   * `Ila.add_probe(self, signal)`: a call on something other than an `Ila`
   * without a signal forwards `self` to the nearest `Ila` above the current
   * context; a call on an `Ila` appends `signal` (even `None`); a call on
   * anything else with a signal fails on `self.probes`.
   */
  function AddProbeResult(s: PState, self: Value, signal: Option<Value>): Result<PState, PError>
  {
    if signal.None? && !IsIla(self) then
      if s.current.None? then Failure(MissingAttribute("current_context"))
      else
        match ProtoFind(s.current.value, IlaClass())
        case None => Failure(MissingAttribute("add_probe"))
        case Some(i) => Success(WithProbe(s, s.current.value[i].elem.oid, Some(self)))
    else if IsIla(self) then Success(WithProbe(s, self.info.oid, signal))
    else Failure(MissingAttribute("probes"))
  }

  /**
   * `Ila.add_probe(v)` on a value that is not an `Ila`: it succeeds exactly when
   * some ancestor of the current context is an `Ila`, and then appends `v` to
   * the probes of the nearest one and changes nothing else.
   */
  lemma ForwardedProbe(s: PState, v: Value)
    requires !IsIla(v) && s.current.Some?
    ensures var ctx := s.current.value;
            AddProbeResult(s, v, None).Success? <==> exists j :: 1 <= j < |ctx| && IsInstance(ctx[j].elem.cls, IlaClass())
    ensures var ctx := s.current.value;
            var r := AddProbeResult(s, v, None);
            r.Success? ==> exists i :: && 1 <= i < |ctx| && IsInstance(ctx[i].elem.cls, IlaClass())
                                      && (forall j :: 1 <= j < i ==> !IsInstance(ctx[j].elem.cls, IlaClass()))
                                      && r.value == WithProbe(s, ctx[i].elem.oid, Some(v))
  {
    var ctx := s.current.value;
    var f := ProtoFind(ctx, IlaClass());
    if f.Some? {
      assert AddProbeResult(s, v, None).value == WithProbe(s, ctx[f.value].elem.oid, Some(v));
    }
  }

  /** `ila.add_probe(signal)` on an `Ila` always appends, whatever `signal` is. */
  lemma ProbeOnIla(s: PState, ila: ElemInfo, signal: Option<Value>)
    requires IsInstance(ila.cls, IlaClass())
    ensures AddProbeResult(s, ElementValue(ila), signal).Success?
    ensures ProbesOf(AddProbeResult(s, ElementValue(ila), signal).value, ila.oid) == ProbesOf(s, ila.oid) + [signal]
  {
  }

  /** `add_probe(v, signal)` with a signal on anything but an `Ila` raises and so changes nothing. */
  lemma ProbeWithSignalOnNonIla(s: PState, v: Value, signal: Value)
    requires !IsIla(v)
    ensures AddProbeResult(s, v, Some(signal)) == Failure(MissingAttribute("probes"))
  {
  }

  /** The statements `Ila.finalize` adds, one per probe, each with its own fresh storage signal. */
  function ProbeStatements(probes: seq<Option<Value>>, next: nat): seq<Stmt>
  {
    if probes == [] then [] else ProbeStatements(probes[..|probes| - 1], next) + [ProbeShift(next + |probes| - 1, probes[|probes| - 1])]
  }

  /** The `i`-th probe is shifted into the `i`-th signal allocated from `next`. */
  lemma {:induction false} ProbeStatementsShape(probes: seq<Option<Value>>, next: nat)
    ensures var r := ProbeStatements(probes, next);
            && |r| == |probes|
            && forall i :: 0 <= i < |probes| ==> r[i] == ProbeShift(next + i, probes[i])
  {
    if probes != [] {
      ProbeStatementsShape(probes[..|probes| - 1], next);
    }
  }

  /** No two probe statements share a storage signal, and none uses a signal allocated before. */
  lemma ProbeStoragesFresh(probes: seq<Option<Value>>, next: nat)
    ensures var r := ProbeStatements(probes, next);
            forall i, j :: 0 <= i < j < |r| ==> r[i].ProbeShift? && r[j].ProbeShift? && r[i].storage != r[j].storage && r[i].storage >= next
  {
    ProbeStatementsShape(probes, next);
  }

  // ---------------------------------------------------------------- the walk (a.py:108-120)

  /** The elements a script appends to `m.submodules`, in order. */
  function Appended(acts: seq<PAction>): seq<PElement>
  {
    if acts == [] then []
    else Appended(acts[..|acts| - 1]) + (if acts[|acts| - 1].AppendChild? then [acts[|acts| - 1].child] else [])
  }

  /** The statements a script adds itself. */
  function UserStatements(acts: seq<PAction>): seq<Stmt>
  {
    if acts == [] then []
    else UserStatements(acts[..|acts| - 1]) + (if acts[|acts| - 1].AddStatement? then [UserStatement(acts[|acts| - 1].id)] else [])
  }

  /** One action of a body; `ctx` is the `context` argument the body was given. */
  function StepResult(a: PAction, ctx: Context, m: PModule, s: PState): Outcome<PModule>
  {
    match a
    case AppendChild(c) => Outcome(Success(m.(submodules := m.submodules + [c])), s)
    case AddStatement(id) => Outcome(Success(m.(statements := m.statements + [UserStatement(id)])), s)
    case ProbeViaIla(v) => Probed(m, s, AddProbeResult(s, v, None))
    case ProbeByKey(k, v) =>
      match ProtoFindByKey(ctx, k)
      case None => Outcome(Failure(MissingAttribute("add_probe")), s)
      case Some(i) =>
        if IsInstance(ctx[i].elem.cls, IlaClass()) then Probed(m, s, AddProbeResult(s, ElementValue(ctx[i].elem), Some(v)))
        else Outcome(Failure(MissingAttribute("add_probe")), s)
  }

  function Probed(m: PModule, s: PState, r: Result<PState, PError>): Outcome<PModule>
  {
    match r
    case Success(s1) => Outcome(Success(m), s1)
    case Failure(err) => Outcome(Failure(err), s)
  }

  /** An action changes the module only by the child or the statement it adds, and the state only in its probes. */
  lemma StepEffects(a: PAction, ctx: Context, m: PModule, s: PState)
    ensures var o := StepResult(a, ctx, m, s);
            && (o.r.Success? ==>
                  && o.r.value.submodules == m.submodules + (if a.AppendChild? then [a.child] else [])
                  && o.r.value.statements == m.statements + (if a.AddStatement? then [UserStatement(a.id)] else [])
                  && o.r.value.converted == m.converted)
            && o.s.current == s.current && o.s.nextSignal == s.nextSignal && o.s.trace == s.trace
  {
  }

  /** A body run action by action; the first exception stops it. */
  function ScriptResult(acts: seq<PAction>, ctx: Context, m: PModule, s: PState): Outcome<PModule>
    decreases |acts|
  {
    if acts == [] then Outcome(Success(m), s)
    else
      var o := ScriptResult(acts[..|acts| - 1], ctx, m, s);
      if o.r.Failure? then o else StepResult(acts[|acts| - 1], ctx, o.r.value, o.s)
  }

  /**
   * A body only appends, in order, the children and statements its actions
   * add, and changes the shared state only in the probe lists.
   */
  lemma {:induction false} ScriptEffects(acts: seq<PAction>, ctx: Context, m: PModule, s: PState)
    ensures var o := ScriptResult(acts, ctx, m, s);
            && (o.r.Success? ==>
                  && o.r.value.submodules == m.submodules + Appended(acts)
                  && o.r.value.statements == m.statements + UserStatements(acts)
                  && o.r.value.converted == m.converted)
            && o.s.current == s.current && o.s.nextSignal == s.nextSignal && o.s.trace == s.trace
    decreases |acts|
  {
    if acts != [] {
      var n := |acts|;
      var o := ScriptResult(acts[..n - 1], ctx, m, s);
      ScriptEffects(acts[..n - 1], ctx, m, s);
      if o.r.Success? {
        var a := acts[n - 1];
        assert ScriptResult(acts, ctx, m, s) == StepResult(a, ctx, o.r.value, o.s);
        StepEffects(a, ctx, o.r.value, o.s);
        var added := if a.AppendChild? then [a.child] else [];
        var stmts := if a.AddStatement? then [UserStatement(a.id)] else [];
        assert m.submodules + Appended(acts[..n - 1]) + added == m.submodules + Appended(acts);
        assert m.statements + UserStatements(acts[..n - 1]) + stmts == m.statements + UserStatements(acts);
      }
    }
  }

  /** Once a prefix of a body has raised, the rest of the body does not run. */
  lemma {:induction false} ScriptStops(acts: seq<PAction>, k: nat, ctx: Context, m: PModule, s: PState)
    requires k <= |acts| && ScriptResult(acts[..k], ctx, m, s).r.Failure?
    ensures ScriptResult(acts, ctx, m, s) == ScriptResult(acts[..k], ctx, m, s)
    decreases |acts| - k
  {
    if k < |acts| {
      var n := |acts|;
      assert acts[..n - 1][..k] == acts[..k];
      ScriptStops(acts[..n - 1], k, ctx, m, s);
    } else {
      assert acts[..k] == acts;
    }
  }

  /** A termination measure: the number of elements in the tree. */
  function PSize(e: PElement): nat
  {
    match e
    case Ila(_, _, c) => 1 + PSize(c)
    case Plain(_, _, _, create, finalize) => 1 + ActsSize(create) + ActsSize(finalize)
  }

  function ActsSize(acts: seq<PAction>): nat
  {
    if acts == [] then 0 else ActsSize(acts[..|acts| - 1]) + ActSize(acts[|acts| - 1])
  }

  function ActSize(a: PAction): nat
  {
    match a
    case AppendChild(c) => PSize(c)
    case _ => 0
  }

  /** Every element a script appends is at most as large as the script. */
  lemma {:induction false} AppendedWithin(acts: seq<PAction>)
    ensures forall c :: c in Appended(acts) ==> PSize(c) <= ActsSize(acts)
  {
    if acts != [] {
      AppendedWithin(acts[..|acts| - 1]);
    }
  }

  /** The children an element's `create` leaves in `m.submodules`. */
  function Children(e: PElement): seq<PElement>
  {
    match e
    case Ila(_, _, c) => [c]
    case Plain(_, _, _, create, _) => Appended(create)
  }

  lemma ChildrenSmaller(e: PElement)
    ensures forall c :: c in Children(e) ==> PSize(c) < PSize(e)
  {
    if e.Plain? {
      AppendedWithin(e.create);
    }
  }

  lemma ChildSmaller(e: PElement, i: nat)
    requires i < |Children(e)|
    ensures PSize(Children(e)[i]) < PSize(e)
  {
    ChildrenSmaller(e);
    assert Children(e)[i] in Children(e);
  }

  /** The context an element is converted in: its own frame on top of its parent's context. */
  function OwnContext(e: PElement, parent: Context): Context
  {
    [Frame(PInfo(e), true)] + parent
  }

  /** `element.create(context)` on a fresh module: `Ila.create` appends its child. */
  function CreatePhase(e: PElement, ctx: Context, s: PState): Outcome<PModule>
  {
    match e
    case Ila(_, _, c) => Outcome(Success(PModule([c], [], [])), s)
    case Plain(_, _, _, create, _) => ScriptResult(create, ctx, PModule([], [], []), s)
  }

  /** After `create`, `m.submodules` holds exactly the element's children and nothing is converted yet. */
  lemma CreateEffects(e: PElement, ctx: Context, s: PState)
    ensures var o := CreatePhase(e, ctx, s);
            && (o.r.Success? ==> o.r.value.submodules == Children(e) && o.r.value.converted == [])
            && o.s.current == s.current && o.s.nextSignal == s.nextSignal && o.s.trace == s.trace
  {
    if e.Plain? {
      ScriptEffects(e.create, ctx, PModule([], [], []), s);
    }
  }

  /** `element.finalize(context)`: `Ila.finalize` adds one statement per probe. */
  function FinalizePhase(e: PElement, ctx: Context, m: PModule, s: PState): Outcome<PModule>
  {
    match e
    case Ila(oid, _, _) =>
      var ps := ProbesOf(s, oid);
      Outcome(Success(m.(statements := m.statements + ProbeStatements(ps, s.nextSignal))), s.(nextSignal := s.nextSignal + |ps|))
    case Plain(_, _, _, _, finalize) => ScriptResult(finalize, ctx, m, s)
  }

  /**
   * `finalize` keeps the converted modules and appends its children unconverted;
   * an `Ila`'s adds exactly its probe statements.
   */
  lemma FinalizeEffects(e: PElement, ctx: Context, m: PModule, s: PState)
    ensures var o := FinalizePhase(e, ctx, m, s);
            && (o.r.Success? ==> o.r.value.converted == m.converted)
            && (o.r.Success? ==> o.r.value.submodules == m.submodules + (if e.Plain? then Appended(e.finalize) else []))
            && o.s.current == s.current && o.s.trace == s.trace
            && (e.Ila? ==> o.r == Success(m.(statements := m.statements + ProbeStatements(ProbesOf(s, e.oid), s.nextSignal))))
  {
    if e.Plain? {
      ScriptEffects(e.finalize, ctx, m, s);
    }
  }

  /**
   * `element_to_module(element, parent)`: make the element's context the
   * global one, then run its phases in that context.
   */
  function Convert(e: PElement, parent: Context, s: PState): Outcome<PModule>
    decreases PSize(e), 2, 0
  {
    var ctx := OwnContext(e, parent);
    Phases(e, ctx, s.(current := Some(ctx), trace := s.trace + [Created(PInfo(e).oid)]))
  }

  /**
   * The rest of `element_to_module` in context `ctx`: run `create`, convert
   * every entry `create` left in `m.submodules` (the element's children, by
   * `CreateEffects`) in order, run `finalize`.
   */
  function Phases(e: PElement, ctx: Context, s: PState): Outcome<PModule>
    decreases PSize(e), 1, 0
  {
    var c := CreatePhase(e, ctx, s);
    if c.r.Failure? then c
    else
      var k := ConvertAll(e, |Children(e)|, ctx, c.s);
      if k.r.Failure? then Outcome(Failure(k.r.error), k.s)
      else FinalizePhase(e, ctx, c.r.value.(converted := k.r.value), k.s.(trace := k.s.trace + [Finalized(PInfo(e).oid)]))
  }

  /** The loop `for submodule in module.submodules` over the first `n` children of `e`. */
  function ConvertAll(e: PElement, n: nat, ctx: Context, s: PState): Outcome<seq<PModule>>
    requires n <= |Children(e)|
    decreases PSize(e), 0, n
  {
    if n == 0 then Outcome(Success([]), s)
    else
      var o := ConvertAll(e, n - 1, ctx, s);
      if o.r.Failure? then o
      else
        ChildSmaller(e, n - 1);
        var x := Convert(Children(e)[n - 1], ctx, o.s);
        match x.r
        case Failure(err) => Outcome(Failure(err), x.s)
        case Success(sub) => Outcome(Success(o.r.value + [sub]), x.s)
  }

  /** A successful loop over the children yields one module per child. */
  lemma {:induction false} ConvertAllLength(e: PElement, n: nat, ctx: Context, s: PState)
    requires n <= |Children(e)| && ConvertAll(e, n, ctx, s).r.Success?
    ensures |ConvertAll(e, n, ctx, s).r.value| == n
  {
    if n > 0 {
      ConvertAllLength(e, n - 1, ctx, s);
    }
  }

  /**
   * A successful conversion converts exactly the children `create` added;
   * those that `finalize` appends stay in `m.submodules` unconverted.
   */
  lemma ConvertShape(e: PElement, parent: Context, s: PState)
    requires Convert(e, parent, s).r.Success?
    ensures |Convert(e, parent, s).r.value.converted| == |Children(e)|
    ensures Convert(e, parent, s).r.value.submodules == Children(e) + (if e.Plain? then Appended(e.finalize) else [])
  {
    var ctx := OwnContext(e, parent);
    var s1 := s.(current := Some(ctx), trace := s.trace + [Created(PInfo(e).oid)]);
    var c := CreatePhase(e, ctx, s1);
    PhasesUnfold(e, ctx, s1);
    CreateEffects(e, ctx, s1);
    var k := ConvertAll(e, |Children(e)|, ctx, c.s);
    ConvertAllLength(e, |Children(e)|, ctx, c.s);
    FinalizeEffects(e, ctx, c.r.value.(converted := k.r.value), k.s.(trace := k.s.trace + [Finalized(PInfo(e).oid)]));
  }

  /** Once converting a child has raised, the remaining children are not converted. */
  lemma {:induction false} ConvertAllStops(e: PElement, n: nat, k: nat, ctx: Context, s: PState)
    requires k <= n <= |Children(e)| && ConvertAll(e, k, ctx, s).r.Failure?
    ensures ConvertAll(e, n, ctx, s) == ConvertAll(e, k, ctx, s)
  {
    if k < n {
      ConvertAllStops(e, n - 1, k, ctx, s);
    }
  }

  /** Successful phases are a successful `create`, a successful loop over the children and the `finalize`. */
  lemma PhasesUnfold(e: PElement, ctx: Context, s: PState)
    requires Phases(e, ctx, s).r.Success?
    ensures var c := CreatePhase(e, ctx, s);
            var k := ConvertAll(e, |Children(e)|, ctx, c.s);
            && c.r.Success?
            && k.r.Success?
            && Phases(e, ctx, s) == FinalizePhase(e, ctx, c.r.value.(converted := k.r.value), k.s.(trace := k.s.trace + [Finalized(PInfo(e).oid)]))
  {
  }

  /** A successful loop is a successful loop over all but the last child, then a successful conversion of the last. */
  lemma ConvertAllUnfold(e: PElement, n: nat, ctx: Context, s: PState)
    requires 0 < n <= |Children(e)| && ConvertAll(e, n, ctx, s).r.Success?
    ensures var o := ConvertAll(e, n - 1, ctx, s);
            && o.r.Success?
            && Convert(Children(e)[n - 1], ctx, o.s).r.Success?
            && ConvertAll(e, n, ctx, s).s.trace == Convert(Children(e)[n - 1], ctx, o.s).s.trace
            && ConvertAll(e, n, ctx, s).s.current == Convert(Children(e)[n - 1], ctx, o.s).s.current
  {
  }

  /**
   * `acc` followed by the phases of `e`'s subtree in the order a walk starts
   * them: `e`'s `create`, then each child's subtree in list order, then `e`'s
   * `finalize`.
   */
  function TraceAfter(acc: seq<PEvent>, e: PElement): seq<PEvent>
    decreases PSize(e), 1, 0
  {
    TraceAfterAll(acc + [Created(PInfo(e).oid)], e, |Children(e)|) + [Finalized(PInfo(e).oid)]
  }

  function TraceAfterAll(acc: seq<PEvent>, e: PElement, n: nat): seq<PEvent>
    requires n <= |Children(e)|
    decreases PSize(e), 0, n
  {
    if n == 0 then acc
    else
      ChildSmaller(e, n - 1);
      TraceAfter(TraceAfterAll(acc, e, n - 1), Children(e)[n - 1])
  }

  /** A successful conversion starts the phases of the tree in the order `TraceAfter` lists them. */
  lemma {:induction false} ConvertOrder(e: PElement, parent: Context, s: PState)
    requires Convert(e, parent, s).r.Success?
    ensures Convert(e, parent, s).s.trace == TraceAfter(s.trace, e)
    decreases PSize(e), 2, 0, 0
  {
    var ctx := OwnContext(e, parent);
    PhasesOrder(e, ctx, s.(current := Some(ctx), trace := s.trace + [Created(PInfo(e).oid)]));
  }

  lemma {:induction false} PhasesOrder(e: PElement, ctx: Context, s: PState)
    requires Phases(e, ctx, s).r.Success?
    ensures Phases(e, ctx, s).s.trace == TraceAfterAll(s.trace, e, |Children(e)|) + [Finalized(PInfo(e).oid)]
    decreases PSize(e), 1, 0, 0
  {
    var c := CreatePhase(e, ctx, s);
    PhasesUnfold(e, ctx, s);
    CreateEffects(e, ctx, s);
    var k := ConvertAll(e, |Children(e)|, ctx, c.s);
    ConvertAllOrder(e, |Children(e)|, ctx, c.s);
    FinalizeEffects(e, ctx, c.r.value.(converted := k.r.value), k.s.(trace := k.s.trace + [Finalized(PInfo(e).oid)]));
  }

  lemma {:induction false} ConvertAllOrder(e: PElement, n: nat, ctx: Context, s: PState)
    requires n <= |Children(e)| && ConvertAll(e, n, ctx, s).r.Success?
    ensures ConvertAll(e, n, ctx, s).s.trace == TraceAfterAll(s.trace, e, n)
    decreases PSize(e), 0, n, 1
  {
    if n > 0 {
      ConvertAllStepOrder(e, n, ctx, s);
      ConvertAllOrder(e, n - 1, ctx, s);
      ChildSmaller(e, n - 1);
      assert TraceAfterAll(s.trace, e, n) == TraceAfter(TraceAfterAll(s.trace, e, n - 1), Children(e)[n - 1]);
    }
  }

  lemma {:induction false} ConvertAllStepOrder(e: PElement, n: nat, ctx: Context, s: PState)
    requires 0 < n <= |Children(e)| && ConvertAll(e, n, ctx, s).r.Success?
    ensures var o := ConvertAll(e, n - 1, ctx, s);
            o.r.Success? && ConvertAll(e, n, ctx, s).s.trace == TraceAfter(o.s.trace, Children(e)[n - 1])
    decreases PSize(e), 0, n, 0
  {
    var o := ConvertAll(e, n - 1, ctx, s);
    ConvertAllUnfold(e, n, ctx, s);
    ChildSmaller(e, n - 1);
    ConvertOrder(Children(e)[n - 1], ctx, o.s);
  }

  /**
   * The context the walk leaves in `current_context` after converting `e`: that
   * of the last element it visited, which lies strictly below `parent`.
   */
  function LastContext(e: PElement, parent: Context): (r: Context)
    ensures |r| > |parent| && r[|r| - |parent|..] == parent
    decreases PSize(e)
  {
    var cs := Children(e);
    if cs == [] then OwnContext(e, parent)
    else
      ChildSmaller(e, |cs| - 1);
      LastContext(cs[|cs| - 1], OwnContext(e, parent))
  }

  /**
   * `current_context` is overwritten for every element and never restored:
   * after a successful conversion it is the context of the last element the
   * walk visited.
   */
  lemma {:induction false} ConvertLeavesContext(e: PElement, parent: Context, s: PState)
    requires Convert(e, parent, s).r.Success?
    ensures Convert(e, parent, s).s.current == Some(LastContext(e, parent))
    decreases PSize(e), 2, 0
  {
    var ctx := OwnContext(e, parent);
    PhasesLeaveContext(e, ctx, s.(current := Some(ctx), trace := s.trace + [Created(PInfo(e).oid)]));
  }

  lemma {:induction false} PhasesLeaveContext(e: PElement, ctx: Context, s: PState)
    requires Phases(e, ctx, s).r.Success?
    ensures var cs := Children(e);
            Phases(e, ctx, s).s.current == if cs == [] then s.current else Some(LastContext(cs[|cs| - 1], ctx))
    decreases PSize(e), 1, 0
  {
    var c := CreatePhase(e, ctx, s);
    PhasesUnfold(e, ctx, s);
    CreateEffects(e, ctx, s);
    var n := |Children(e)|;
    var k := ConvertAll(e, n, ctx, c.s);
    FinalizeEffects(e, ctx, c.r.value.(converted := k.r.value), k.s.(trace := k.s.trace + [Finalized(PInfo(e).oid)]));
    if n == 0 {
      assert k.s.current == c.s.current;
    } else {
      ConvertAllLeavesContext(e, n, ctx, c.s);
    }
  }

  lemma {:induction false} ConvertAllLeavesContext(e: PElement, n: nat, ctx: Context, s: PState)
    requires 0 < n <= |Children(e)| && ConvertAll(e, n, ctx, s).r.Success?
    ensures ConvertAll(e, n, ctx, s).s.current == Some(LastContext(Children(e)[n - 1], ctx))
    decreases PSize(e), 0, n
  {
    var o := ConvertAll(e, n - 1, ctx, s);
    ConvertAllUnfold(e, n, ctx, s);
    ChildSmaller(e, n - 1);
    ConvertLeavesContext(Children(e)[n - 1], ctx, o.s);
  }

  /**
   * An element with children runs its `finalize` with `current_context` still
   * pointing below it: an `Ila.add_probe` there searches from a descendant.
   */
  lemma FinalizeSeesDescendantContext(e: PElement, parent: Context)
    requires Children(e) != []
    ensures var last, own := LastContext(e, parent), OwnContext(e, parent);
            |last| > |own| && last[|last| - |own|..] == own && last != own
  {
    var cs := Children(e);
    LastContextOfLastChild(e, parent);
    var last := LastContext(cs[|cs| - 1], OwnContext(e, parent));
    assert |last| > |OwnContext(e, parent)|;
  }

  /** With children, the last context is the one the last child reaches below `e`'s own. */
  lemma LastContextOfLastChild(e: PElement, parent: Context)
    requires Children(e) != []
    ensures LastContext(e, parent) == LastContext(Children(e)[|Children(e)| - 1], OwnContext(e, parent))
  {
    ChildSmaller(e, |Children(e)| - 1);
  }


  /**
   * `Test.create` (a.py:72-79) under an `Ila` keyed `k` holding an unkeyed `Ila`:
   * `Ila.add_probe(a)` reaches the inner `Ila`, `find_by_key(k).add_probe(b)`
   * the outer one.
   */
  lemma TestProbesRouted(s: PState, k: Key, a: nat, b: nat)
    requires s.current == Some(TestContext(k))
    ensures var o := ScriptResult(TestCreate(a, b, k), TestContext(k), PModule([], [], []), s);
            && o.r.Success?
            && ProbesOf(o.s, 1) == ProbesOf(s, 1) + [Some(SignalValue(a))]
            && ProbesOf(o.s, 0) == ProbesOf(s, 0) + [Some(SignalValue(b))]
  {
    var ctx := TestContext(k);
    var acts := TestCreate(a, b, k);
    assert ProtoFind(ctx, IlaClass()) == Some(1);
    assert ctx[1].elem.key != Some(k) && ctx[2].elem.key == Some(k);
    assert ProtoFindByKey(ctx, Some(k)) == Some(2);
    var s1 := WithProbe(s, 1, Some(SignalValue(a)));
    var s2 := WithProbe(s1, 0, Some(SignalValue(b)));
    var m := PModule([], [], []);
    assert acts[..1] == [acts[0]] && acts[..2][..1] == acts[..1] && acts[..3][..2] == acts[..2] && acts[..3] == acts;
    assert AddProbeResult(s, SignalValue(a), None) == Success(s1);
    assert StepResult(acts[0], ctx, m, s) == Outcome(Success(m), s1);
    assert acts[..1][..0] == [];
    assert ScriptResult(acts[..1], ctx, m, s) == Outcome(Success(m), s1);
    assert AddProbeResult(s1, ElementValue(ctx[2].elem), Some(SignalValue(b))) == Success(s2);
    assert StepResult(acts[1], ctx, m, s1) == Outcome(Success(m), s2);
    assert ScriptResult(acts[..2], ctx, m, s) == Outcome(Success(m), s2);
    assert StepResult(acts[2], ctx, m, s2).s == s2;
  }

  /** The three elements of the demonstration tree, outermost last. */
  function TestContext(k: Key): Context
  {
    [Frame(ElemInfo(2, "Test", "", None), true), Frame(ElemInfo(1, "Ila", "", None), true), Frame(ElemInfo(0, "Ila", "", Some(k)), true)]
  }

  /** `Test.create` */
  function TestCreate(a: nat, b: nat, k: Key): seq<PAction>
  {
    [ProbeViaIla(SignalValue(a)), ProbeByKey(Some(k), SignalValue(b)), AddStatement(0)]
  }

  // ---------------------------------------------------------------- the same, step by step

  /** The prototype's global state: `GlobalElaborationContext`, the `Ila`s' probe lists and the signal allocator. */
  class ProtoRuntime {
    var current: Option<Context>
    var probes: map<ObjId, seq<Option<Value>>>
    var nextSignal: nat
    var trace: seq<PEvent>

    function State(): PState
      reads this
    {
      PState(current, probes, nextSignal, trace)
    }

    constructor (firstSignal: nat)
      ensures State() == PState(None, map[], firstSignal, [])
    {
      current := None;
      probes := map[];
      nextSignal := firstSignal;
      trace := [];
    }

    /** `Ila.add_probe(self, signal)` */
    method AddProbe(self: Value, signal: Option<Value>) returns (err: Option<PError>)
      modifies this
      ensures AddProbeResult(old(State()), self, signal) == if err.None? then Success(State()) else Failure(err.value)
      ensures err.Some? ==> State() == old(State())
    {
      err := None;
      if signal.None? && !IsIla(self) {
        if current.None? {
          err := Some(MissingAttribute("current_context"));
        } else {
          var ctx := current.value;
          var f := ProtoFind(ctx, IlaClass());
          if f.None? {
            err := Some(MissingAttribute("add_probe"));
          } else {
            var oid := ctx[f.value].elem.oid;
            probes := probes[oid := ProbesOf(State(), oid) + [Some(self)]];
          }
        }
      } else if IsIla(self) {
        probes := probes[self.info.oid := ProbesOf(State(), self.info.oid) + [signal]];
      } else {
        err := Some(MissingAttribute("probes"));
      }
    }

    /** `Signal(10)`: a signal no earlier call returned. */
    method NewSignal() returns (id: nat)
      modifies this
      ensures id == old(nextSignal) && State() == old(State()).(nextSignal := id + 1)
    {
      id := nextSignal;
      nextSignal := nextSignal + 1;
    }

    /** One action of a body. */
    method Step(a: PAction, ctx: Context, m: PModule) returns (r: Result<PModule, PError>)
      modifies this
      ensures Outcome(r, State()) == StepResult(a, ctx, m, old(State()))
    {
      match a
      case AppendChild(c) =>
        r := Success(m.(submodules := m.submodules + [c]));
      case AddStatement(id) =>
        r := Success(m.(statements := m.statements + [UserStatement(id)]));
      case ProbeViaIla(v) =>
        var err := AddProbe(v, None);
        r := if err.None? then Success(m) else Failure(err.value);
      case ProbeByKey(k, v) =>
        var f := ProtoFindByKey(ctx, k);
        if f.None? {
          r := Failure(MissingAttribute("add_probe"));
        } else if IsInstance(ctx[f.value].elem.cls, IlaClass()) {
          var err := AddProbe(ElementValue(ctx[f.value].elem), Some(v));
          r := if err.None? then Success(m) else Failure(err.value);
        } else {
          r := Failure(MissingAttribute("add_probe"));
        }
    }

    /** A `create` or `finalize` body, stopped by the first exception. */
    method RunScript(acts: seq<PAction>, ctx: Context, m: PModule) returns (r: Result<PModule, PError>)
      modifies this
      ensures Outcome(r, State()) == ScriptResult(acts, ctx, m, old(State()))
    {
      ghost var s0 := State();
      r := Success(m);
      var i := 0;
      while i < |acts|
        invariant 0 <= i <= |acts|
        invariant Outcome(r, State()) == ScriptResult(acts[..i], ctx, m, s0)
      {
        assert acts[..i + 1][..i] == acts[..i];
        if r.Failure? {
          ScriptStops(acts, i, ctx, m, s0);
          return;
        }
        r := Step(acts[i], ctx, r.value);
        i := i + 1;
      }
      assert acts[..i] == acts;
    }

    /** `Ila.finalize`: for each probe, a fresh 10-bit storage signal shifted in on `sync`. */
    method IlaFinalize(oid: ObjId, m: PModule) returns (m': PModule)
      modifies this
      ensures m' == m.(statements := m.statements + ProbeStatements(ProbesOf(old(State()), oid), old(nextSignal)))
      ensures State() == old(State()).(nextSignal := old(nextSignal) + |ProbesOf(old(State()), oid)|)
    {
      var ps := ProbesOf(State(), oid);
      ghost var next0 := nextSignal;
      m' := m;
      var i := 0;
      while i < |ps|
        invariant 0 <= i <= |ps| && ps == ProbesOf(State(), oid)
        invariant nextSignal == next0 + i
        invariant m' == m.(statements := m.statements + ProbeStatements(ps[..i], next0))
        invariant State() == old(State()).(nextSignal := next0 + i)
      {
        var storage := NewSignal();
        assert ps[..i + 1][..i] == ps[..i];
        m' := m'.(statements := m'.statements + [ProbeShift(storage, ps[i])]);
        i := i + 1;
      }
      assert ps[..i] == ps;
    }

    /** `element.create(context)` on a fresh module. */
    method CreateStage(e: PElement, ctx: Context) returns (r: Result<PModule, PError>)
      modifies this
      ensures Outcome(r, State()) == CreatePhase(e, ctx, old(State()))
    {
      match e {
        case Ila(_, _, c) =>
          r := Success(PModule([c], [], []));
        case Plain(_, _, _, create, _) =>
          r := RunScript(create, ctx, PModule([], [], []));
      }
    }

    /** `element.finalize(context)` */
    method FinalizeStage(e: PElement, ctx: Context, m: PModule) returns (r: Result<PModule, PError>)
      modifies this
      ensures Outcome(r, State()) == FinalizePhase(e, ctx, m, old(State()))
    {
      match e {
        case Ila(oid, _, _) =>
          var finalized := IlaFinalize(oid, m);
          r := Success(finalized);
        case Plain(_, _, _, _, finalize) =>
          r := RunScript(finalize, ctx, m);
      }
    }

    /** `for submodule in module.submodules: element_to_module(submodule, context)`, where `cs` are the children of `e`. */
    method ConvertChildren(e: PElement, cs: seq<PElement>, ctx: Context) returns (r: Result<seq<PModule>, PError>)
      requires cs == Children(e)
      modifies this
      ensures Outcome(r, State()) == ConvertAll(e, |cs|, ctx, old(State()))
      decreases PSize(e), 0
    {
      ghost var s0 := State();
      var done: seq<PModule> := [];
      var i := 0;
      while i < |cs|
        invariant 0 <= i <= |cs|
        invariant Outcome(Success(done), State()) == ConvertAll(e, i, ctx, s0)
      {
        ChildSmaller(e, i);
        var sub := ElementToModule(cs[i], ctx);
        if sub.Failure? {
          ConvertAllStops(e, |cs|, i + 1, ctx, s0);
          return Failure(sub.error);
        }
        done := done + [sub.value];
        i := i + 1;
      }
      r := Success(done);
    }

    /** `element_to_module(element, parent)` */
    method ElementToModule(e: PElement, parent: Context) returns (r: Result<PModule, PError>)
      modifies this
      ensures Outcome(r, State()) == Convert(e, parent, old(State()))
      decreases PSize(e), 2
    {
      var ctx := OwnContext(e, parent);
      current := Some(ctx);
      trace := trace + [Created(PInfo(e).oid)];
      r := RunPhases(e, ctx);
    }

    /** `create`, the children and `finalize` of `e` in its context `ctx`. */
    method RunPhases(e: PElement, ctx: Context) returns (r: Result<PModule, PError>)
      modifies this
      ensures Outcome(r, State()) == Phases(e, ctx, old(State()))
      decreases PSize(e), 1
    {
      ghost var s1 := State();
      var created := CreateStage(e, ctx);
      if created.Failure? {
        return created;
      }
      CreateEffects(e, ctx, s1);
      var m := created.value;
      var done := ConvertChildren(e, m.submodules, ctx);
      if done.Failure? {
        return Failure(done.error);
      }
      trace := trace + [Finalized(PInfo(e).oid)];
      r := FinalizeStage(e, ctx, m.(converted := done.value));
    }
  }
}

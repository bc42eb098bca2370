/**
 * `element_to_module` (amigen.py:298-369): the recursive walk that runs each
 * element's hooks, `create`, its create-phase children, `finalize`, the
 * renaming of drivers and its finalize-phase children, inside
 * `GlobalElaborationContext.context_for` (amigen.py:286-296).
 */
module Elaboration {
  import opened Wrappers
  import opened Dicts
  import opened Contexts
  import opened Elements
  import opened Registry
  import opened Domains
  import opened Scripts
  import opened Tracking
  import opened Outcomes

  // ---------------------------------------------------------------- trace shapes

  /** Every event in `tr[lo..hi]` happened in context `c` or below it. */
  ghost predicate AllIn(tr: seq<Event>, lo: nat, hi: nat, c: Context)
    requires lo <= hi <= |tr|
  {
    forall i :: lo <= i < hi ==> InSubtree(tr[i], c)
  }

  /** Every event in `tr[lo..hi]` happened in exactly the context `ctx`. */
  ghost predicate AllOwn(tr: seq<Event>, lo: nat, hi: nat, ctx: Context)
    requires lo <= hi <= |tr|
  {
    forall i :: lo <= i < hi ==> AtOf(tr[i]) == Some(ctx)
  }

  /** After `finalize` starts: the element's own context, or below its invisible copy. */
  predicate AfterFinalize(ev: Event, ctx: Context)
    requires |ctx| > 0
  {
    AtOf(ev) == Some(ctx) || InSubtree(ev, CopyInvisible(ctx))
  }

  /**
   * The events of one element's elaboration, starting at `start` in the trace:
   * its hooks `hs` with its context, then the start of `create`; everything
   * after happens within the element. When the elaboration finished, the start
   * of `finalize` splits the rest: before it every event is below the visible
   * context, after it only the element's own context or below its invisible copy.
   */
  ghost predicate NodeTrace(tr: seq<Event>, start: nat, ctx: Context, hs: seq<HookId>, finished: bool)
    requires |ctx| > 0
  {
    && start + |hs| < |tr|
    && tr[start..start + |hs|] == HookEvents(ctx, hs)
    && tr[start + |hs|] == Created(ctx)
    && (forall i :: start <= i < |tr| ==> WithinNode(tr[i], ctx))
    && (finished ==>
          exists f :: start + |hs| < f < |tr| && tr[f] == Finalized(ctx)
            && (forall i :: start + |hs| < i < f ==> InSubtree(tr[i], ctx))
            && (forall i :: f < i < |tr| ==> AfterFinalize(tr[i], ctx)))
  }

  lemma OwnIsInSubtree(ev: Event, ctx: Context)
    requires AtOf(ev) == Some(ctx)
    ensures InSubtree(ev, ctx)
  {
    assert ctx[0..] == ctx;
  }

  /** A prefix of a prefix is a prefix. */
  lemma PrefixTrans(a: seq<Event>, b: seq<Event>, c: seq<Event>)
    requires |c| <= |b| <= |a| && a[..|b|] == b && b[..|c|] == c
    ensures a[..|c|] == c
  {
    assert a[..|c|] == a[..|b|][..|c|];
  }

  /**
   * The opening of one element's trace at `start`: its hooks `hs` with its
   * context, the start of `create`, then only events below its context.
   */
  ghost predicate Opened(tr: seq<Event>, start: nat, ctx: Context, hs: seq<HookId>)
    requires |ctx| > 0
  {
    && start + |hs| < |tr|
    && tr[start..start + |hs|] == HookEvents(ctx, hs)
    && tr[start + |hs|] == Created(ctx)
    && AllIn(tr, start + |hs| + 1, |tr|, ctx)
  }

  /**
   * Put together the trace of one element: its opening `before`, then possibly
   * the start of `finalize` and events that may follow it.
   */
  lemma AssembleNodeTrace(before: seq<Event>, tr: seq<Event>, start: nat, ctx: Context, hs: seq<HookId>, finished: bool)
    requires |ctx| > 0 && Opened(before, start, ctx, hs) && |before| <= |tr| && tr[..|before|] == before
    requires |before| < |tr| ==> tr[|before|] == Finalized(ctx)
    requires |before| < |tr| ==> AllAfterFinalize(tr, |before| + 1, |tr|, ctx)
    requires finished ==> |before| < |tr|
    ensures NodeTrace(tr, start, ctx, hs, finished)
  {
    var f := |before|;
    assert tr[start..start + |hs|] == before[start..start + |hs|];
    assert tr[start + |hs|] == before[start + |hs|];
    forall i | start <= i < |tr| ensures WithinNode(tr[i], ctx) {
      if i < f {
        assert tr[i] == before[i];
      }
      if i < start + |hs| {
        assert tr[i] == tr[start..start + |hs|][i - start];
        OwnIsInSubtree(tr[i], ctx);
      } else if i == start + |hs| || i == f {
        OwnIsInSubtree(tr[i], ctx);
      } else if i > f && AtOf(tr[i]) == Some(ctx) {
        OwnIsInSubtree(tr[i], ctx);
      }
    }
    if finished {
      forall i | start + |hs| < i < f ensures InSubtree(tr[i], ctx) {
        assert tr[i] == before[i];
      }
    }
  }

  // ---------------------------------------------------------------- hooks and bodies

  /** The patched `create`: instance hooks in order, then class hooks, each called with the context. */
  method RunHooks(t: Tracker, ctx: Context, hs: seq<HookId>)
    modifies t
    ensures t.trace == old(t.trace) + HookEvents(ctx, hs)
    ensures t.currentContext == old(t.currentContext) && t.currentElement == old(t.currentElement)
    ensures t.instanceHooks == old(t.instanceHooks) && t.classHooks == old(t.classHooks)
    ensures t.nextObject == old(t.nextObject) && t.elaborated == old(t.elaborated)
  {
    for i := 0 to |hs|
      invariant t.trace == old(t.trace) + HookEvents(ctx, hs[..i])
      invariant t.currentContext == old(t.currentContext) && t.currentElement == old(t.currentElement)
      invariant t.instanceHooks == old(t.instanceHooks) && t.classHooks == old(t.classHooks)
      invariant t.nextObject == old(t.nextObject) && t.elaborated == old(t.elaborated)
    {
      assert HookEvents(ctx, hs[..i + 1]) == HookEvents(ctx, hs[..i]) + [HookRun(Some(ctx), hs[i])];
      t.Record(HookRun(Some(ctx), hs[i]));
    }
    assert hs[..|hs|] == hs;
  }

  /**
   * One action of a body against the element's module: it behaves as the
   * script function `Step` says, and a hook it registers or runs gets the
   * element's own context.
   */
  method RunAction(t: Tracker, w: ModuleWrapper, a: Action) returns (err: Option<Error>)
    requires t.Valid() && w.Valid() && t.currentContext == Some(w.scope)
    modifies t, w, w.submodules
    ensures t.Valid() && w.Valid() && Steady(t) && t.elaborated == old(t.elaborated)
    ensures w.attached == old(w.attached)
    ensures var step := Step(w.scope, w.topForNmigen, t.currentElement.Some?, old(w.State()), a);
            && (step.Success? ==> err == None && w.State() == step.value)
            && (step.Failure? ==> err == Some(step.error))
    ensures AllOwn(t.trace, |old(t.trace)|, |t.trace|, w.scope)
  {
    err := None;
    match a {
      case AddDomain(arg) =>
        err := w.AddDomain(arg);
      case SetDomain(attr, arg) =>
        err := w.SetDomain(attr, arg);
      case Drive(s, d) =>
        err := w.Drive(s, d);
      case AddSubmodule(c) =>
        err := w.AddSubmodule(c);
      case SetSubmodule(slot, c) =>
        err := w.SetSubmodule(slot, c);
      case WithContext(h) =>
        t.WithContext(h);
      case ReadClock(n) =>
        // `ClockSignal` reads `current_context.domains`, the table of this element's context
        var s := ClockSignal(n, w.contextDomains, t.currentElement.Some?);
        if s.Failure? {
          err := Some(s.error);
        }
      case ReadReset(n) =>
        var s := ResetSignal(n, w.contextDomains, t.currentElement.Some?);
        if s.Failure? {
          err := Some(s.error);
        }
    }
  }

  /** A stretch of events in one context followed by another stretch in it. */
  lemma ExtendAllOwn(before: seq<Event>, tr: seq<Event>, lo: nat, ctx: Context)
    requires lo <= |before| <= |tr| && tr[..|before|] == before
    requires AllOwn(before, lo, |before|, ctx) && AllOwn(tr, |before|, |tr|, ctx)
    ensures AllOwn(tr, lo, |tr|, ctx)
  {
    forall i | lo <= i < |before| ensures AtOf(tr[i]) == Some(ctx) {
      assert tr[i] == tr[..|before|][i];
    }
  }

  /**
   * Run a `create` or `finalize` body against the element's module, stopping
   * at the first action that raises; it behaves as the script function `Run`
   * says, and every hook it runs gets the element's own context.
   */
  method RunActions(t: Tracker, w: ModuleWrapper, acts: seq<Action>) returns (err: Option<Error>)
    requires t.Valid() && w.Valid() && t.currentContext == Some(w.scope)
    modifies t, w, w.submodules
    ensures t.Valid() && w.Valid() && Steady(t) && t.elaborated == old(t.elaborated)
    ensures w.attached == old(w.attached)
    ensures var run := Run(w.scope, w.topForNmigen, t.currentElement.Some?, old(w.State()), acts);
            && (run.Success? ==> err == None && w.State() == run.value)
            && (run.Failure? ==> err == Some(run.error))
    ensures AllOwn(t.trace, |old(t.trace)|, |t.trace|, w.scope)
  {
    ghost var constructing := t.currentElement.Some?;
    for i := 0 to |acts|
      invariant t.Valid() && w.Valid() && Steady(t) && t.elaborated == old(t.elaborated)
      invariant w.attached == old(w.attached)
      invariant Run(w.scope, w.topForNmigen, constructing, old(w.State()), acts)
                == Run(w.scope, w.topForNmigen, constructing, w.State(), acts[i..])
      invariant AllOwn(t.trace, |old(t.trace)|, |t.trace|, w.scope)
    {
      assert acts[i..][0] == acts[i] && acts[i..][1..] == acts[i + 1..];
      ghost var before := w.State();
      ghost var tr := t.trace;
      var e := RunAction(t, w, acts[i]);
      PrefixTrans(t.trace, tr, old(t.trace));
      ExtendAllOwn(tr, t.trace, |old(t.trace)|, w.scope);
      assert acts[i..] != [];
      assert Run(w.scope, w.topForNmigen, constructing, before, acts[i..])
             == match Step(w.scope, w.topForNmigen, constructing, before, acts[i])
                case Failure(x) => Failure(x)
                case Success(l1) => Run(w.scope, w.topForNmigen, constructing, l1, acts[i + 1..]);
      if e.Some? {
        return e;
      }
    }
    err := None;
  }

  /**
   * The translation of `module._driving` to physical domain names
   * (amigen.py:351-357). `_driving` has one entry per signal, so assigning to
   * `sig` rewrites the entry being visited.
   */
  method RenameDrivers(w: ModuleWrapper) returns (err: Option<Error>)
    modifies w
    ensures var rd := ResolveDrivers(old(w.driving), old(w.contextDomains), ScopeName(w.scope));
            && (rd.Success? ==> err == None && w.driving == rd.value)
            && (rd.Failure? ==> err == Some(rd.error))
    ensures w.contextDomains == old(w.contextDomains) && w.domains == old(w.domains)
    ensures w.bridges == old(w.bridges) && w.attached == old(w.attached)
  {
    var path := ScopeName(w.scope);
    ghost var d := w.driving;
    for i := 0 to |w.driving|
      invariant |w.driving| == |d|
      invariant forall j :: 0 <= j < i ==>
                  Resolvable(d[j], w.contextDomains) && w.driving[j] == (d[j].0, ResolvedDriver(d[j].1, w.contextDomains))
      invariant w.driving[i..] == d[i..]
      invariant w.contextDomains == old(w.contextDomains) && w.domains == old(w.domains)
      invariant w.bridges == old(w.bridges) && w.attached == old(w.attached)
    {
      assert w.driving[i] == w.driving[i..][0];
      var (sig, name) := w.driving[i];
      if name.Some? {
        if !HasKey(w.contextDomains, name.value) {
          return Some(UnknownDriver(sig, name.value, path));
        }
        w.driving := w.driving[i := (sig, Some(Get(w.contextDomains, name.value).value.name))];
      }
      assert w.driving[i + 1..] == d[i + 1..] by {
        assert forall j :: i + 1 <= j < |d| ==> w.driving[j] == w.driving[i..][j - i];
      }
    }
    err := None;
  }

  // ---------------------------------------------------------------- attaching children

  /**
   * `add_submodule(name, submodule, context)` with `context` = `at`: an element
   * (named after its slot if it has no name) is elaborated below `at` with the
   * table `domain_map` makes of the context's domains; a backend-native module
   * is remembered in `done_submodules` (hashing it) and renamed into the
   * context's physical domains; anything else raises.
   */
  method AddSubmodule(t: Tracker, w: ModuleWrapper, slot: string, c: Child, at: Context, forNmigen: bool,
                      done: set<ObjId>, ghost bound: nat)
    returns (err: Option<Error>, done': set<ObjId>)
    requires t.Valid() && w.Valid()
    requires c.ElementChild? ==> Size(c.e) < bound
    modifies t, w
    decreases bound, 0
    ensures t.Valid() && w.Valid() && Steady(t) && w.State() == old(w.State())
    ensures AttachChild(slot, c, at, w.contextDomains, forNmigen, t.currentElement.Some?,
                        Pass(None, old(w.attached), old(t.elaborated), done), bound)
            == Pass(err, w.attached, t.elaborated, done')
    ensures AllIn(t.trace, |old(t.trace)|, |t.trace|, at)
  {
    done' := done;
    match c
    case ElementChild(x) =>
      var child := WithName(x, slot);
      var table := ChildDomains(w.contextDomains, child.domainMap);
      ghost var start := |t.trace|;
      var m := Walk(t, child, at, table, false, forNmigen);
      forall i | start <= i < |t.trace| ensures InSubtree(t.trace[i], at) {
        WithinChildIsBelow(t.trace[i], Frame(Info(child), true), at);
      }
      if m.Failure? {
        return Some(m.error), done';
      }
      w.Attach(slot, Nested(m.value));
      err := None;
    case Raw(oid, cls, hashable) =>
      if !hashable {
        return Some(UnhashableSubmodule(cls)), done';
      }
      done' := done + {oid};
      w.Attach(slot, Native(oid, RenameMap(w.contextDomains)));
      err := None;
    case Unsupported(_, _, _) =>
      err := Some(UnsupportedSubmodule(slot));
  }

  /** `for name, submodule in module.submodules: add_submodule(name, submodule, context)` after `create`. */
  method FirstPass(t: Tracker, w: ModuleWrapper, e: Element, forNmigen: bool) returns (err: Option<Error>, done: set<ObjId>)
    requires t.Valid() && w.Valid()
    requires forall j :: 0 <= j < |w.submodules.storage| ==> Mentions(e.create, w.submodules.storage[j].1)
    modifies t, w
    decreases Size(e), 1
    ensures t.Valid() && w.Valid() && Steady(t) && w.State() == old(w.State())
    ensures AllIn(t.trace, |old(t.trace)|, |t.trace|, w.scope)
    ensures Children(e, w.scope, w.submodules.storage, w.contextDomains, forNmigen, t.currentElement.Some?, 0, false,
                     Pass(None, old(w.attached), old(t.elaborated), {}))
            == Pass(err, w.attached, t.elaborated, done)
  {
    var entries := w.submodules.storage;
    ghost var constructing := t.currentElement.Some?;
    ghost var spec := Children(e, w.scope, entries, w.contextDomains, forNmigen, constructing, 0, false,
                               Pass(None, w.attached, t.elaborated, {}));
    done := {};
    err := None;
    for i := 0 to |entries|
      invariant t.Valid() && w.Valid() && Steady(t) && w.State() == old(w.State())
      invariant AllIn(t.trace, |old(t.trace)|, |t.trace|, w.scope)
      invariant err == None
      invariant spec == Children(e, w.scope, entries, w.contextDomains, forNmigen, constructing, i, false,
                                 Pass(None, w.attached, t.elaborated, done))
    {
      var (slot, c) := entries[i];
      StoredChildIsSmaller(e, c);
      ghost var tr := t.trace;
      ghost var before := Pass(None, w.attached, t.elaborated, done);
      assert Entry(e, w.scope, entries, w.contextDomains, forNmigen, constructing, i, false, before)
             == AttachChild(slot, c, w.scope, w.contextDomains, forNmigen, constructing, before, Size(e));
      err, done := AddSubmodule(t, w, slot, c, w.scope, forNmigen, done, Size(e));
      PrefixTrans(t.trace, tr, old(t.trace));
      ExtendAllIn(tr, t.trace, |old(t.trace)|, w.scope);
      if err.Some? {
        return;
      }
    }
    assert spec == Pass(None, w.attached, t.elaborated, done);
  }

  /**
   * One entry of the second loop over `module.submodules`, at `j`: skipped when
   * the child already has an `m`; otherwise hashed, which raises for an
   * unhashable child, and skipped when in `done_submodules`; otherwise attached
   * under the invisible copy of the context.
   */
  method SecondPassEntry(t: Tracker, w: ModuleWrapper, e: Element, forNmigen: bool, j: nat, done: set<ObjId>)
    returns (err: Option<Error>, done': set<ObjId>)
    requires t.Valid() && w.Valid() && j < |w.submodules.storage|
    requires Mentions(e.create, w.submodules.storage[j].1) || Mentions(e.finalize, w.submodules.storage[j].1)
    modifies t, w
    decreases Size(e), 1
    ensures t.Valid() && w.Valid() && Steady(t) && w.State() == old(w.State())
    ensures AllIn(t.trace, |old(t.trace)|, |t.trace|, CopyInvisible(w.scope))
    ensures Entry(e, CopyInvisible(w.scope), w.submodules.storage, w.contextDomains, forNmigen, t.currentElement.Some?, j, true,
                  Pass(None, old(w.attached), old(t.elaborated), done))
            == Pass(err, w.attached, t.elaborated, done')
  {
    var (slot, c) := w.submodules.storage[j];
    done' := done;
    err := None;
    if HasModule(c, t.elaborated) {
      return;
    }
    if !Hashable(c) {
      return Some(UnhashableSubmodule(ClassName(c))), done';
    }
    if ChildId(c) in done {
      return;
    }
    StoredChildIsSmaller(e, c);
    err, done' := AddSubmodule(t, w, slot, c, CopyInvisible(w.scope), forNmigen, done, Size(e));
  }

  /**
   * The second loop over `module.submodules`, under the invisible copy of the
   * context: entries with no `m` that are not in `done_submodules`.
   */
  method SecondPass(t: Tracker, w: ModuleWrapper, e: Element, forNmigen: bool, done: set<ObjId>)
    returns (err: Option<Error>)
    requires t.Valid() && w.Valid()
    requires forall j :: 0 <= j < |w.submodules.storage| ==>
               Mentions(e.create, w.submodules.storage[j].1) || Mentions(e.finalize, w.submodules.storage[j].1)
    modifies t, w
    decreases Size(e), 2
    ensures t.Valid() && w.Valid() && Steady(t) && w.State() == old(w.State())
    ensures AllIn(t.trace, |old(t.trace)|, |t.trace|, CopyInvisible(w.scope))
    ensures var q := Children(e, CopyInvisible(w.scope), w.submodules.storage, w.contextDomains, forNmigen,
                              t.currentElement.Some?, 0, true, Pass(None, old(w.attached), old(t.elaborated), done));
            err == q.err && w.attached == q.subs && t.elaborated == q.elaborated
  {
    var entries := w.submodules.storage;
    ghost var constructing := t.currentElement.Some?;
    ghost var spec := Children(e, CopyInvisible(w.scope), entries, w.contextDomains, forNmigen, constructing, 0, true,
                               Pass(None, w.attached, t.elaborated, done));
    var done' := done;
    err := None;
    for j := 0 to |entries|
      invariant t.Valid() && w.Valid() && Steady(t) && w.State() == old(w.State())
      invariant AllIn(t.trace, |old(t.trace)|, |t.trace|, CopyInvisible(w.scope))
      invariant err == None
      invariant spec == Children(e, CopyInvisible(w.scope), entries, w.contextDomains, forNmigen, constructing, j, true,
                                 Pass(None, w.attached, t.elaborated, done'))
    {
      ghost var tr := t.trace;
      err, done' := SecondPassEntry(t, w, e, forNmigen, j, done');
      PrefixTrans(t.trace, tr, old(t.trace));
      ExtendAllIn(tr, t.trace, |old(t.trace)|, CopyInvisible(w.scope));
      if err.Some? {
        return;
      }
    }
    assert spec == Pass(None, w.attached, t.elaborated, done');
  }

  // ---------------------------------------------------------------- one element

  /** Every event in `tr[lo..hi]` may follow the start of `finalize` of the element with context `ctx`. */
  ghost predicate AllAfterFinalize(tr: seq<Event>, lo: nat, hi: nat, ctx: Context)
    requires lo <= hi <= |tr| && |ctx| > 0
  {
    forall i :: lo <= i < hi ==> AfterFinalize(tr[i], ctx)
  }

  /** A property of a stretch of the trace survives the trace growing, and extends over the next stretch. */
  lemma ExtendAllIn(before: seq<Event>, tr: seq<Event>, lo: nat, c: Context)
    requires lo <= |before| <= |tr| && tr[..|before|] == before
    requires AllIn(before, lo, |before|, c) && AllIn(tr, |before|, |tr|, c)
    ensures AllIn(tr, lo, |tr|, c)
  {
    forall i | lo <= i < |before| ensures InSubtree(tr[i], c) {
      assert tr[i] == tr[..|before|][i];
    }
  }

  lemma ExtendAllAfterFinalize(before: seq<Event>, tr: seq<Event>, lo: nat, ctx: Context)
    requires |ctx| > 0 && lo <= |before| <= |tr| && tr[..|before|] == before
    requires AllAfterFinalize(before, lo, |before|, ctx) && AllAfterFinalize(tr, |before|, |tr|, ctx)
    ensures AllAfterFinalize(tr, lo, |tr|, ctx)
  {
    forall i | lo <= i < |before| ensures AfterFinalize(tr[i], ctx) {
      assert tr[i] == tr[..|before|][i];
    }
  }

  lemma OwnIsAfterFinalize(tr: seq<Event>, lo: nat, hi: nat, ctx: Context)
    requires |ctx| > 0 && lo <= hi <= |tr| && AllOwn(tr, lo, hi, ctx)
    ensures AllAfterFinalize(tr, lo, hi, ctx)
  {
  }

  lemma OwnIsAllIn(tr: seq<Event>, lo: nat, hi: nat, ctx: Context)
    requires lo <= hi <= |tr| && AllOwn(tr, lo, hi, ctx)
    ensures AllIn(tr, lo, hi, ctx)
  {
    forall i | lo <= i < hi ensures InSubtree(tr[i], ctx) {
      OwnIsInSubtree(tr[i], ctx);
    }
  }

  /**
   * `element_to_module_inner` inside `context_for`: the element's context is
   * current for the duration and the previous one is restored however the
   * elaboration ends; the element gets its `m` first. The result is what
   * `Outcomes.Elaborated` says.
   */
  method Walk(t: Tracker, e: Element, parent: Context, inherited: Dict<string, Domain>, top: bool, forNmigen: bool)
    returns (r: Result<Module, Error>)
    requires t.Valid() && e.name.Some?
    modifies t
    decreases Size(e), 6
    ensures t.Valid() && Steady(t)
    ensures NodeTrace(t.trace, |old(t.trace)|, [Frame(Info(e), true)] + parent,
                      old(t.InstanceHooksOf(e.oid)) + old(t.ClassHooksOf(e.cls)), r.Success?)
    ensures Walked(r, t.elaborated)
            == Elaborated(e, parent, inherited, top, forNmigen, t.currentElement.Some?, old(t.elaborated))
  {
    var ctx := [Frame(Info(e), true)] + parent;
    var saved := t.currentContext;
    t.currentContext := Some(ctx);
    t.elaborated := t.elaborated + {e.oid};
    var w := new ModuleWrapper(ctx, top && forNmigen, inherited);
    r := Body(t, w, e, top, forNmigen, inherited);
    t.currentContext := saved;
  }

  /** An opening stays one when more events below the context follow it. */
  lemma OpenedGrows(before: seq<Event>, tr: seq<Event>, start: nat, ctx: Context, hs: seq<HookId>)
    requires |ctx| > 0 && Opened(before, start, ctx, hs) && |before| <= |tr| && tr[..|before|] == before
    requires AllIn(tr, |before|, |tr|, ctx)
    ensures Opened(tr, start, ctx, hs)
  {
    assert tr[start..start + |hs|] == before[start..start + |hs|];
    assert tr[start + |hs|] == before[start + |hs|];
    forall i | start + |hs| + 1 <= i < |before| ensures InSubtree(tr[i], ctx) {
      assert tr[i] == before[i];
    }
  }

  /**
   * The patched `create` (hooks, then the original body) and the default `sync`
   * domain of a top element whose `create` declared none.
   */
  method OpenElement(t: Tracker, w: ModuleWrapper, e: Element, top: bool, ghost inherited: Dict<string, Domain>, hs: seq<HookId>)
    returns (err: Option<Error>)
    requires t.Valid() && w.Valid() && t.currentContext == Some(w.scope)
    requires w.State() == Fresh(inherited) && w.attached == []
    modifies t, w, w.submodules
    ensures t.Valid() && w.Valid() && Steady(t) && t.elaborated == old(t.elaborated) && w.attached == []
    ensures Opened(t.trace, |old(t.trace)|, w.scope, hs)
    ensures var c := CreatePhase(w.scope, w.topForNmigen, t.currentElement.Some?, top, inherited, e.create);
            && (c.Failure? ==> err == Some(c.error))
            && (c.Success? ==> err == None && w.State() == c.value)
  {
    ghost var start := |t.trace|;
    RunHooks(t, w.scope, hs);
    t.Record(Created(w.scope));
    ghost var t1 := t.trace;
    assert t1[start..start + |hs|] == HookEvents(w.scope, hs);
    err := RunActions(t, w, e.create);
    OwnIsAllIn(t.trace, |t1|, |t.trace|, w.scope);
    assert t.trace[start..start + |hs|] == t1[start..start + |hs|];
    assert t.trace[start + |hs|] == t1[start + |hs|];
    if err.Some? {
      return;
    }
    if top && |w.contextDomains| == 0 {
      var _ := w.AddDomain(ClockDomain("sync", false));
    }
  }

  /**
   * The first half of `element_to_module_inner`: the element is opened, then the
   * children present after `create` are attached in table order below the
   * visible context, as the first loop of `Outcomes.Stages` says.
   */
  method CreateStage(t: Tracker, w: ModuleWrapper, e: Element, top: bool, forNmigen: bool,
                     ghost inherited: Dict<string, Domain>, hs: seq<HookId>)
    returns (err: Option<Error>, done: set<ObjId>)
    requires t.Valid() && w.Valid() && t.currentContext == Some(w.scope)
    requires w.State() == Fresh(inherited) && w.attached == [] && w.topForNmigen == (top && forNmigen)
    modifies t, w, w.submodules
    decreases Size(e), 2
    ensures t.Valid() && w.Valid() && Steady(t)
    ensures Opened(t.trace, |old(t.trace)|, w.scope, hs)
    ensures var c := CreatePhase(w.scope, top && forNmigen, t.currentElement.Some?, top, inherited, e.create);
            && (c.Failure? ==> err == Some(c.error) && t.elaborated == old(t.elaborated))
            && (c.Success? ==>
                  && w.State() == c.value
                  && (forall j :: 0 <= j < |c.value.storage| ==> Mentions(e.create, c.value.storage[j].1))
                  && Children(e, w.scope, c.value.storage, c.value.table, forNmigen, t.currentElement.Some?, 0, false,
                              Pass(None, [], old(t.elaborated), {}))
                     == Pass(err, w.attached, t.elaborated, done))
  {
    done := {};
    err := OpenElement(t, w, e, top, inherited, hs);
    if err.Some? {
      return;
    }
    CreatedEntries(w.scope, top && forNmigen, t.currentElement.Some?, top, inherited, e);
    ghost var t2 := t.trace;
    err, done := FirstPass(t, w, e, forNmigen);
    OpenedGrows(t2, t.trace, |old(t.trace)|, w.scope, hs);
  }

  /**
   * The original `finalize` once it has been announced, then the renaming of
   * drivers: the module is what the script function `Run` says, with its
   * drivers resolved, or the error of either step.
   */
  method FinalizeBody(t: Tracker, w: ModuleWrapper, e: Element, ghost created: Local)
    returns (err: Option<Error>)
    requires t.Valid() && w.Valid() && t.currentContext == Some(w.scope) && w.State() == created
    modifies t, w, w.submodules
    ensures t.Valid() && w.Valid() && Steady(t) && t.elaborated == old(t.elaborated) && w.attached == old(w.attached)
    ensures AllAfterFinalize(t.trace, |old(t.trace)|, |t.trace|, w.scope)
    ensures var f := Run(w.scope, w.topForNmigen, t.currentElement.Some?, created, e.finalize);
            && (f.Failure? ==> err == Some(f.error))
            && (f.Success? ==>
                  var rd := ResolveDrivers(f.value.driving, f.value.table, ScopeName(w.scope));
                  && (rd.Failure? ==> err == Some(rd.error))
                  && (rd.Success? ==>
                        && err == None && w.domains == f.value.domains && w.bridges == f.value.bridges
                        && w.contextDomains == f.value.table && w.submodules.storage == f.value.storage
                        && w.driving == rd.value))
  {
    err := RunActions(t, w, e.finalize);
    OwnIsAfterFinalize(t.trace, |old(t.trace)|, |t.trace|, w.scope);
    if err.Some? {
      return;
    }
    err := RenameDrivers(w);
  }

  /**
   * The second half of `element_to_module_inner`, once `finalize` has been
   * announced: the original `finalize`, the renaming of drivers and the children
   * added since `create`, attached below the invisible copy of the context. The
   * error, or the module, is what `Outcomes.Finish` says.
   */
  method FinalizeStage(t: Tracker, w: ModuleWrapper, e: Element, forNmigen: bool, done: set<ObjId>, ghost created: Local)
    returns (err: Option<Error>)
    requires t.Valid() && w.Valid() && t.currentContext == Some(w.scope) && w.State() == created
    requires forall j :: 0 <= j < |created.storage| ==> Mentions(e.create, created.storage[j].1)
    modifies t, w, w.submodules
    decreases Size(e), 3
    ensures t.Valid() && w.Valid() && Steady(t)
    ensures AllAfterFinalize(t.trace, |old(t.trace)|, |t.trace|, w.scope)
    ensures Finish(e, w.scope, w.topForNmigen, forNmigen, t.currentElement.Some?, created,
                   Pass(None, old(w.attached), old(t.elaborated), done))
            == Walked(if err.Some? then Failure(err.value) else Success(w.Freeze()), t.elaborated)
  {
    ghost var constructing := t.currentElement.Some?;
    err := FinalizeBody(t, w, e, created);
    if err.Some? {
      return;
    }
    ghost var t4 := t.trace;
    FinalizedEntries(w.scope, w.topForNmigen, constructing, e, created);
    err := SecondPass(t, w, e, forNmigen, done);
    ExtendAllAfterFinalize(t4, t.trace, |old(t.trace)|, w.scope);
  }

  /**
   * The body of `element_to_module_inner`, with the element's context current:
   * the result is what `Outcomes.Stages` says.
   */
  method Body(t: Tracker, w: ModuleWrapper, e: Element, top: bool, forNmigen: bool, ghost inherited: Dict<string, Domain>)
    returns (r: Result<Module, Error>)
    requires t.Valid() && w.Valid() && t.currentContext == Some(w.scope)
    requires w.State() == Fresh(inherited) && w.attached == [] && w.topForNmigen == (top && forNmigen)
    modifies t, w, w.submodules
    decreases Size(e), 5
    ensures t.Valid() && Steady(t)
    ensures NodeTrace(t.trace, |old(t.trace)|, w.scope, old(t.InstanceHooksOf(e.oid)) + old(t.ClassHooksOf(e.cls)), r.Success?)
    ensures Walked(r, t.elaborated) == Stages(e, w.scope, inherited, top, forNmigen, t.currentElement.Some?, old(t.elaborated))
  {
    var hs := t.InstanceHooksOf(e.oid) + t.ClassHooksOf(e.cls);
    var err, done := CreateStage(t, w, e, top, forNmigen, inherited, hs);
    if err.Some? {
      AssembleNodeTrace(t.trace, t.trace, |old(t.trace)|, w.scope, hs, false);
      return Failure(err.value);
    }
    r := FinishStage(t, w, e, top, forNmigen, done, w.State(), hs, |old(t.trace)|);
  }

  /**
   * The rest of `element_to_module_inner` once `create` and the first loop are
   * done: `finalize` is announced, the second half runs, and the module is
   * frozen.
   */
  method FinishStage(t: Tracker, w: ModuleWrapper, e: Element, top: bool, forNmigen: bool, done: set<ObjId>,
                     ghost created: Local, ghost hs: seq<HookId>, ghost start: nat)
    returns (r: Result<Module, Error>)
    requires t.Valid() && w.Valid() && t.currentContext == Some(w.scope) && w.State() == created
    requires w.topForNmigen == (top && forNmigen)
    requires forall j :: 0 <= j < |created.storage| ==> Mentions(e.create, created.storage[j].1)
    requires Opened(t.trace, start, w.scope, hs)
    modifies t, w, w.submodules
    decreases Size(e), 4
    ensures t.Valid() && Steady(t)
    ensures NodeTrace(t.trace, start, w.scope, hs, r.Success?)
    ensures Walked(r, t.elaborated)
            == Finish(e, w.scope, top && forNmigen, forNmigen, t.currentElement.Some?, created,
                      Pass(None, old(w.attached), old(t.elaborated), done))
  {
    ghost var before := t.trace;
    t.Record(Finalized(w.scope));
    ghost var t3 := t.trace;
    var err := FinalizeStage(t, w, e, forNmigen, done, created);
    PrefixTrans(t.trace, t3, before);
    assert t.trace[|before|] == t.trace[..|t3|][|before|];
    AssembleNodeTrace(before, t.trace, start, w.scope, hs, err.None?);
    if err.Some? {
      return Failure(err.value);
    }
    r := Success(w.Freeze());
  }

  // ---------------------------------------------------------------- the whole tree

  /**
   * The top element of a tree whose `create` declares no domain ends up with the
   * domain `_internal_<top name>_sync` among the domains of its module.
   */
  lemma TopModuleHasSync(r: Result<Module, Error>, picked: seq<nat>, root: Element, forNmigen: bool,
                         constructing: bool, elaborated: set<ObjId>)
    requires root.name.Some?
    requires Outcome(r, picked, [Frame(Info(root), true)], true, forNmigen, constructing, [], root, elaborated)
    requires r.Success? && !DeclaresDomain(root.create)
    ensures Domain("_internal_" + root.name.value + "_sync", false) in r.value.domains
  {
    DefaultSyncDeclared(r, picked, root, forNmigen, constructing, elaborated);
    ScopeNameOfRoot(Frame(Info(root), true));
    assert DefaultSync([Frame(Info(root), true)]).name == "_internal_" + root.name.value + "_sync";
  }

  /** The top's default `sync` domain stays among its module's domains through `finalize`. */
  lemma DefaultSyncDeclared(r: Result<Module, Error>, picked: seq<nat>, root: Element, forNmigen: bool,
                            constructing: bool, elaborated: set<ObjId>)
    requires root.name.Some?
    requires Outcome(r, picked, [Frame(Info(root), true)], true, forNmigen, constructing, [], root, elaborated)
    requires r.Success? && !DeclaresDomain(root.create)
    ensures DefaultSync([Frame(Info(root), true)]) in r.value.domains
  {
    var ctx := [Frame(Info(root), true)];
    OutcomeDomains(r, picked, ctx, true, forNmigen, constructing, [], root, elaborated);
    var l1 := Run(ctx, forNmigen, constructing, Fresh([]), root.create).value;
    TopGetsDefaultSync(ctx, forNmigen, constructing, root.create);
    var c := WithDefaultSync(ctx, forNmigen, true, l1);
    assert c.domains == l1.domains + [DefaultSync(ctx)];
    RunKeepsDomains(ctx, forNmigen, constructing, c, root.finalize);
    var ds := r.value.domains;
    assert ds[|l1.domains|] == ds[..|c.domains|][|l1.domains|];
  }


  /**
   * `element_to_module(element, top_name=..., for_nmigen=...)`: the element,
   * named `top_name` if it has no name, is elaborated as the top of a tree with
   * no inherited domains and no parent context. The result is what
   * `Outcomes.Elaborated` says, and is built as `Outcomes.Outcome` describes.
   */
  method ElementToModule(t: Tracker, e: Element, topName: string, forNmigen: bool)
    returns (r: Result<Module, Error>, ghost picked: seq<nat>)
    requires t.Valid()
    modifies t
    ensures t.Valid() && Steady(t)
    ensures var root := WithName(e, topName);
            var ctx := [Frame(Info(root), true)];
            && NodeTrace(t.trace, |old(t.trace)|, ctx, old(t.InstanceHooksOf(e.oid)) + old(t.ClassHooksOf(e.cls)), r.Success?)
            && Walked(r, t.elaborated) == Elaborated(root, [], [], true, forNmigen, t.currentElement.Some?, old(t.elaborated))
            && Outcome(r, picked, ctx, true, forNmigen, t.currentElement.Some?, [], root, t.elaborated)
    ensures r.Success? && !DeclaresDomain(e.create) ==>
              Domain("_internal_" + WithName(e, topName).name.value + "_sync", false) in r.value.domains
  {
    var root := WithName(e, topName);
    assert [Frame(Info(root), true)] + [] == [Frame(Info(root), true)];
    r := Walk(t, root, [], [], true, forNmigen);
    picked := ElaborateOutcome(root, [], [], true, forNmigen, t.currentElement.Some?, old(t.elaborated));
    if r.Success? && !DeclaresDomain(e.create) {
      TopModuleHasSync(r, picked, root, forNmigen, t.currentElement.Some?, t.elaborated);
    }
  }

  /** `Element.elaborate(platform)`: the element as the top of its own tree, named after its class, for the backend. */
  method Elaborate(t: Tracker, e: Element) returns (r: Result<Module, Error>, ghost picked: seq<nat>)
    requires t.Valid()
    modifies t
    ensures t.Valid() && Steady(t)
    ensures var root := WithName(e, e.cls);
            && Walked(r, t.elaborated) == Elaborated(root, [], [], true, true, t.currentElement.Some?, old(t.elaborated))
            && Outcome(r, picked, [Frame(Info(root), true)], true, true, t.currentElement.Some?, [], root, t.elaborated)
  {
    r, picked := ElementToModule(t, e, e.cls, true);
  }
}

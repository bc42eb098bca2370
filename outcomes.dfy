/**
 * What `element_to_module_inner` (amigen.py:298-364) yields for one element,
 * as ghost functions that follow the code step by step: the create phase, the
 * first loop over `module.submodules`, `finalize`, the renaming of drivers and
 * the second loop, each stopping at the first error. The methods of the walk
 * are proved equal to these functions; the lemmas below describe the module
 * they build.
 */
module Outcomes {
  import opened Wrappers
  import opened Dicts
  import opened Contexts
  import opened Elements
  import opened Registry
  import opened Domains
  import opened Scripts

  /**
   * `if element.name == None: element.name = name`, as done to a child before it
   * is elaborated (amigen.py:317-318) and to the top element (amigen.py:366-367).
   */
  function WithName(e: Element, name: string): (n: Element)
    ensures n.name.Some? && n.name.value == (if e.name.Some? then e.name.value else name)
    ensures n.oid == e.oid && n.cls == e.cls && n.key == e.key && n.domainMap == e.domainMap
    ensures n.create == e.create && n.finalize == e.finalize
  {
    if e.name.None? then e.(name := Some(name)) else e
  }

  /** The outcome of `create` and the default `sync` domain for an element with context `ctx`. */
  ghost function CreatePhase(ctx: Context, topForNmigen: bool, constructing: bool, top: bool,
                             inherited: Dict<string, Domain>, create: seq<Action>): Result<Local, Error>
  {
    match Run(ctx, topForNmigen, constructing, Fresh(inherited), create)
    case Success(l) => Success(WithDefaultSync(ctx, topForNmigen, top, l))
    case Failure(x) => Failure(x)
  }

  /** `hasattr(submodule, "m")`: an element whose elaboration has started. */
  predicate HasModule(c: Child, elaborated: set<ObjId>)
  {
    c.ElementChild? && c.e.oid in elaborated
  }

  // ---------------------------------------------------------------- the walk, as functions

  /**
   * Where one loop over `module.submodules` stands: the error that stopped it,
   * if any, the children attached to the module so far, the elements that have
   * an `m`, and `done_submodules`.
   */
  datatype Pass = Pass(err: Option<Error>, subs: seq<(string, Sub)>, elaborated: set<ObjId>, done: set<ObjId>)

  /** The result of elaborating one element, and the elements that have an `m` afterwards. */
  datatype Walked = Walked(r: Result<Module, Error>, elaborated: set<ObjId>)

  /**
   * `add_submodule(slot, c, at)` in an element whose context has the domain
   * table `table`: an element child, named after its slot if it has no name,
   * is elaborated below `at` with the table its `domain_map` makes of `table`,
   * and its module is attached; a backend-native child is added to
   * `done_submodules`, which raises when it cannot be hashed, and attached under
   * the renaming of `table`; anything else raises.
   */
  ghost function AttachChild(slot: string, c: Child, at: Context, table: Dict<string, Domain>, forNmigen: bool,
                             constructing: bool, p: Pass, bound: nat): (q: Pass)
    requires c.ElementChild? ==> Size(c.e) < bound
    decreases bound, 0
    ensures p.elaborated <= q.elaborated
    ensures c.ElementChild? ==> c.e.oid in q.elaborated
  {
    match c
    case ElementChild(x) =>
      var w := Elaborated(WithName(x, slot), at, ChildTable(table, x.domainMap), false, forNmigen, constructing, p.elaborated);
      (match w.r
       case Failure(err) => p.(err := Some(err), elaborated := w.elaborated)
       case Success(m) => p.(subs := p.subs + [(slot, Nested(m))], elaborated := w.elaborated))
    case Raw(oid, cls, hashable) =>
      if !hashable then p.(err := Some(UnhashableSubmodule(cls)))
      else p.(subs := p.subs + [(slot, Native(oid, RenameMap(table)))], done := p.done + {oid})
    case Unsupported(_, _, _) => p.(err := Some(UnsupportedSubmodule(slot)))
  }

  /**
   * The entry at `j` of element `e`'s submodule table in one of the two loops:
   * the second loop skips a child that has an `m`, then hashes the child to test
   * `done_submodules`, raising for an unhashable one, and skips it when found.
   */
  ghost function Entry(e: Element, at: Context, entries: Dict<string, Child>, table: Dict<string, Domain>,
                       forNmigen: bool, constructing: bool, j: nat, second: bool, p: Pass): (q: Pass)
    requires j < |entries| && (Mentions(e.create, entries[j].1) || Mentions(e.finalize, entries[j].1))
    decreases Size(e), 1
    ensures p.elaborated <= q.elaborated
  {
    var (slot, c) := entries[j];
    if second && HasModule(c, p.elaborated) then p
    else if second && !Hashable(c) then p.(err := Some(UnhashableSubmodule(ClassName(c))))
    else if second && ChildId(c) in p.done then p
    else
      StoredChildIsSmaller(e, c);
      AttachChild(slot, c, at, table, forNmigen, constructing, p, Size(e))
  }

  /** One loop over `module.submodules`, from entry `i` on, stopping at the first error. */
  ghost function Children(e: Element, at: Context, entries: Dict<string, Child>, table: Dict<string, Domain>,
                          forNmigen: bool, constructing: bool, i: nat, second: bool, p: Pass): (q: Pass)
    requires i <= |entries|
    requires forall j :: 0 <= j < |entries| ==> Mentions(e.create, entries[j].1) || Mentions(e.finalize, entries[j].1)
    decreases Size(e), 2, |entries| - i
    ensures p.elaborated <= q.elaborated
  {
    if i == |entries| then p
    else
      var q := Entry(e, at, entries, table, forNmigen, constructing, i, second, p);
      if q.err.Some? then q else Children(e, at, entries, table, forNmigen, constructing, i + 1, second, q)
  }

  /**
   * After the create phase left `created` and the first loop `p`: `finalize`,
   * the renaming of the drivers, the second loop under the invisible copy of
   * the context, and the module they make.
   */
  ghost function Finish(e: Element, ctx: Context, topForNmigen: bool, forNmigen: bool, constructing: bool,
                        created: Local, p: Pass): (w: Walked)
    requires |ctx| > 0
    requires forall j :: 0 <= j < |created.storage| ==> Mentions(e.create, created.storage[j].1)
    decreases Size(e), 3
    ensures p.elaborated <= w.elaborated
  {
    match Run(ctx, topForNmigen, constructing, created, e.finalize)
    case Failure(x) => Walked(Failure(x), p.elaborated)
    case Success(f) =>
      match ResolveDrivers(f.driving, f.table, ScopeName(ctx))
      case Failure(x) => Walked(Failure(x), p.elaborated)
      case Success(drivers) =>
        FinalizedEntries(ctx, topForNmigen, constructing, e, created);
        var q := Children(e, CopyInvisible(ctx), f.storage, f.table, forNmigen, constructing, 0, true, p);
        match q.err
        case Some(x) => Walked(Failure(x), q.elaborated)
        case None => Walked(Success(Module(f.domains, f.bridges, drivers, q.subs)), q.elaborated)
  }

  /** The body of `element_to_module_inner` for element `e` with context `ctx`. */
  ghost function Stages(e: Element, ctx: Context, inherited: Dict<string, Domain>, top: bool, forNmigen: bool,
                        constructing: bool, elaborated: set<ObjId>): (w: Walked)
    requires |ctx| > 0
    decreases Size(e), 4
    ensures elaborated <= w.elaborated
  {
    match CreatePhase(ctx, top && forNmigen, constructing, top, inherited, e.create)
    case Failure(x) => Walked(Failure(x), elaborated)
    case Success(created) =>
      CreatedEntries(ctx, top && forNmigen, constructing, top, inherited, e);
      var p := Children(e, ctx, created.storage, created.table, forNmigen, constructing, 0, false, Pass(None, [], elaborated, {}));
      match p.err
      case Some(x) => Walked(Failure(x), p.elaborated)
      case None => Finish(e, ctx, top && forNmigen, forNmigen, constructing, created, p)
  }

  /**
   * `element_to_module_inner(e, top, inherited, parent)`: the element gets its
   * context below `parent` and its `m`, then its body runs. `constructing` says
   * whether an element constructor is running.
   */
  ghost function Elaborated(e: Element, parent: Context, inherited: Dict<string, Domain>, top: bool, forNmigen: bool,
                           constructing: bool, elaborated: set<ObjId>): (w: Walked)
    requires e.name.Some?
    decreases Size(e), 5
    ensures elaborated + {e.oid} <= w.elaborated
  {
    Stages(e, [Frame(Info(e), true)] + parent, inherited, top, forNmigen, constructing, elaborated + {e.oid})
  }

  /** The children in the table after `create` are named by `create`. */
  lemma CreatedEntries(ctx: Context, topForNmigen: bool, constructing: bool, top: bool,
                       inherited: Dict<string, Domain>, e: Element)
    requires CreatePhase(ctx, topForNmigen, constructing, top, inherited, e.create).Success?
    ensures var s := CreatePhase(ctx, topForNmigen, constructing, top, inherited, e.create).value.storage;
            forall j :: 0 <= j < |s| ==> Mentions(e.create, s[j].1)
  {
    RunExtendsStorage(ctx, topForNmigen, constructing, Fresh(inherited), e.create);
  }

  /**
   * After `finalize`, the submodule table is the one `create` left with the
   * children `finalize` stored after it.
   */
  lemma FinalizedEntries(ctx: Context, topForNmigen: bool, constructing: bool, e: Element, created: Local)
    requires Run(ctx, topForNmigen, constructing, created, e.finalize).Success?
    requires forall j :: 0 <= j < |created.storage| ==> Mentions(e.create, created.storage[j].1)
    ensures var s := Run(ctx, topForNmigen, constructing, created, e.finalize).value.storage;
            && |created.storage| <= |s| && s[..|created.storage|] == created.storage
            && forall j :: 0 <= j < |s| ==> Mentions(e.create, s[j].1) || Mentions(e.finalize, s[j].1)
  {
    RunExtendsStorage(ctx, topForNmigen, constructing, created, e.finalize);
    var s := Run(ctx, topForNmigen, constructing, created, e.finalize).value.storage;
    forall j | 0 <= j < |created.storage| ensures s[j] == created.storage[j] {
      assert s[j] == s[..|created.storage|][j];
    }
  }

  // ---------------------------------------------------------------- the module the walk builds

  /** How a stored child ends up in its parent's module. */
  predicate AttachedAs(c: Child, s: Sub, table: Dict<string, Domain>)
  {
    match c
    case ElementChild(_) => s.Nested?
    case Raw(oid, _, _) => s == Native(oid, RenameMap(table))
    case Unsupported(_, _, _) => false
  }

  /** The backend-native children stored in a table. */
  ghost function RawIds(s: Dict<string, Child>): set<ObjId>
  {
    set k | 0 <= k < |s| && s[k].1.Raw? :: s[k].1.oid
  }

  /** The create-phase children: every entry of the table, in order. */
  ghost predicate FirstPassShape(subs: seq<(string, Sub)>, entries: Dict<string, Child>, table: Dict<string, Domain>)
  {
    |subs| == |entries|
    && forall i :: 0 <= i < |entries| ==> subs[i].0 == entries[i].0 && AttachedAs(entries[i].1, subs[i].1, table)
  }

  /**
   * The finalize-phase children, for the entries before `hi`: the entries at
   * `picked`, in table order and all added after the create phase; every other
   * later entry had a module already, or is a backend-native module stored under
   * an earlier slot too.
   */
  ghost predicate Picked(subs: seq<(string, Sub)>, entries: Dict<string, Child>, first: nat, picked: seq<nat>, hi: nat,
                         table: Dict<string, Domain>, elaborated: set<ObjId>)
    requires hi <= |entries|
  {
    && |subs| == |picked|
    && (forall k :: 0 <= k < |picked| ==> first <= picked[k] < hi)
    && (forall k, k' :: 0 <= k < k' < |picked| ==> picked[k] < picked[k'])
    && (forall k :: 0 <= k < |picked| ==>
          subs[k].0 == entries[picked[k]].0 && AttachedAs(entries[picked[k]].1, subs[k].1, table))
    && (forall j :: first <= j < hi && j !in picked ==>
          HasModule(entries[j].1, elaborated) || ChildId(entries[j].1) in RawIds(entries[..j]))
  }

  /**
   * The module of an element whose state after the create phase is `created` and
   * after `finalize` is `finalized`: the domains and bridges it declared, the
   * drivers renamed to physical domains, and its children attached in the two
   * loops.
   */
  ghost predicate BuiltFrom(m: Module, ctx: Context, created: Local, finalized: Local, picked: seq<nat>, elaborated: set<ObjId>)
  {
    && m.domains == finalized.domains && m.bridges == finalized.bridges
    && ResolveDrivers(finalized.driving, finalized.table, ScopeName(ctx)) == Success(m.driving)
    && |m.subs| >= |created.storage|
    && FirstPassShape(m.subs[..|created.storage|], created.storage, created.table)
    && |created.storage| <= |finalized.storage|
    && Picked(m.subs[|created.storage|..], finalized.storage, |created.storage|, picked, |finalized.storage|, finalized.table, elaborated)
  }

  /**
   * What elaborating element `e` with context `ctx` yields, described by its
   * stages: the error of its `create` if that raises, and on success the module
   * built from its two bodies.
   */
  ghost predicate Outcome(r: Result<Module, Error>, picked: seq<nat>, ctx: Context, top: bool, forNmigen: bool,
                          constructing: bool, inherited: Dict<string, Domain>, e: Element, elaborated: set<ObjId>)
  {
    var c := CreatePhase(ctx, top && forNmigen, constructing, top, inherited, e.create);
    && (c.Failure? ==> r == Failure(c.error))
    && (r.Success? ==>
          c.Success?
          && var f := Run(ctx, top && forNmigen, constructing, c.value, e.finalize);
          f.Success? && BuiltFrom(r.value, ctx, c.value, f.value, picked, elaborated))
  }

  /**
   * A child that `add_submodule` attaches is attached as `AttachedAs` says, at
   * the end of the module's children; an element child has an `m` afterwards and
   * a backend-native one is in `done_submodules`.
   */
  lemma AttachChildShape(slot: string, c: Child, at: Context, table: Dict<string, Domain>, forNmigen: bool,
                         constructing: bool, p: Pass, bound: nat)
    requires c.ElementChild? ==> Size(c.e) < bound
    ensures var q := AttachChild(slot, c, at, table, forNmigen, constructing, p, bound);
            && (c.Unsupported? ==> q.err == Some(UnsupportedSubmodule(slot)))
            && (c.Raw? && !c.hashable ==> q.err == Some(UnhashableSubmodule(c.cls)))
            && (q.err.None? ==>
                  |q.subs| == |p.subs| + 1 && q.subs[..|p.subs|] == p.subs
                  && q.subs[|p.subs|].0 == slot && AttachedAs(c, q.subs[|p.subs|].1, table))
            && q.done == (if c.Raw? && c.hashable then p.done + {c.oid} else p.done)
            && (c.ElementChild? ==> HasModule(c, q.elaborated))
  {
    var q := AttachChild(slot, c, at, table, forNmigen, constructing, p, bound);
    if q.err.None? {
      assert q.subs[..|p.subs|] == p.subs;
    }
  }

  /**
   * An element child that `add_submodule` attaches is attached as the module
   * that elaborating it yields: named after its slot if it has no name, below
   * the given context, with the table its `domain_map` makes of the parent's.
   */
  lemma AttachedElementOutcome(slot: string, x: Element, at: Context, table: Dict<string, Domain>, forNmigen: bool,
                               constructing: bool, p: Pass, bound: nat)
    returns (picked: seq<nat>)
    requires Size(x) < bound
    requires AttachChild(slot, ElementChild(x), at, table, forNmigen, constructing, p, bound).err.None?
    ensures var q := AttachChild(slot, ElementChild(x), at, table, forNmigen, constructing, p, bound);
            var child := WithName(x, slot);
            && |q.subs| == |p.subs| + 1 && q.subs[|p.subs|].1.Nested?
            && Outcome(Success(q.subs[|p.subs|].1.m), picked, [Frame(Info(child), true)] + at, false, forNmigen,
                       constructing, ChildTable(table, x.domainMap), child, q.elaborated)
  {
    var child := WithName(x, slot);
    picked := ElaborateOutcome(child, at, ChildTable(table, x.domainMap), false, forNmigen, constructing, p.elaborated);
  }

  /** The native children stored before `i + 1` are those stored before `i`, and the one at `i` if it is native. */
  lemma RawIdsStep(s: Dict<string, Child>, i: nat)
    requires i < |s|
    ensures RawIds(s[..i]) <= RawIds(s[..i + 1])
    ensures s[i].1.Raw? ==> s[i].1.oid in RawIds(s[..i + 1])
  {
    assert forall k :: 0 <= k < i ==> s[..i + 1][k] == s[..i][k];
    assert s[..i + 1][i] == s[i];
  }

  /** Attaching the entry at `i` extends the create-phase children by one. */
  lemma FirstPassShapeStep(subs: seq<(string, Sub)>, entries: Dict<string, Child>, i: nat, table: Dict<string, Domain>, sub: Sub)
    requires i < |entries| && FirstPassShape(subs, entries[..i], table) && AttachedAs(entries[i].1, sub, table)
    ensures FirstPassShape(subs + [(entries[i].0, sub)], entries[..i + 1], table)
  {
    assert forall k :: 0 <= k < i ==> entries[..i + 1][k] == entries[..i][k];
    assert entries[..i + 1][i] == entries[i];
  }

  /**
   * The first loop, when it ends without error, attaches every entry in table
   * order; afterwards every entry has an `m` or is in `done_submodules`, which
   * holds only backend-native children of the table.
   */
  lemma {:induction false} FirstLoopShape(e: Element, at: Context, entries: Dict<string, Child>, table: Dict<string, Domain>,
                                          forNmigen: bool, constructing: bool, i: nat, p: Pass)
    requires i <= |entries|
    requires forall j :: 0 <= j < |entries| ==> Mentions(e.create, entries[j].1) || Mentions(e.finalize, entries[j].1)
    requires FirstPassShape(p.subs, entries[..i], table) && p.done <= RawIds(entries[..i])
    requires forall j :: 0 <= j < i ==> HasModule(entries[j].1, p.elaborated) || ChildId(entries[j].1) in p.done
    decreases |entries| - i
    ensures var q := Children(e, at, entries, table, forNmigen, constructing, i, false, p);
            q.err.None? ==>
              && FirstPassShape(q.subs, entries, table) && q.done <= RawIds(entries)
              && forall j :: 0 <= j < |entries| ==> HasModule(entries[j].1, q.elaborated) || ChildId(entries[j].1) in q.done
  {
    if i == |entries| {
      assert entries[..i] == entries;
    } else {
      var (slot, c) := entries[i];
      StoredChildIsSmaller(e, c);
      var q1 := Entry(e, at, entries, table, forNmigen, constructing, i, false, p);
      assert q1 == AttachChild(slot, c, at, table, forNmigen, constructing, p, Size(e));
      AttachChildShape(slot, c, at, table, forNmigen, constructing, p, Size(e));
      if q1.err.None? {
        RawIdsStep(entries, i);
        FirstPassShapeStep(p.subs, entries, i, table, q1.subs[|p.subs|].1);
        assert q1.subs == p.subs + [(slot, q1.subs[|p.subs|].1)];
        FirstLoopShape(e, at, entries, table, forNmigen, constructing, i + 1, q1);
      }
    }
  }

  /** An entry the second loop skips. */
  lemma PickedSkip(subs: seq<(string, Sub)>, entries: Dict<string, Child>, first: nat, picked: seq<nat>, hi: nat,
                   table: Dict<string, Domain>, elaborated: set<ObjId>)
    requires hi < |entries| && Picked(subs, entries, first, picked, hi, table, elaborated)
    requires first <= hi ==> HasModule(entries[hi].1, elaborated) || ChildId(entries[hi].1) in RawIds(entries[..hi])
    ensures Picked(subs, entries, first, picked, hi + 1, table, elaborated)
  {
  }

  /** An entry the second loop attaches. */
  lemma PickedTake(subs: seq<(string, Sub)>, entries: Dict<string, Child>, first: nat, picked: seq<nat>, hi: nat,
                   table: Dict<string, Domain>, elaborated: set<ObjId>, sub: Sub)
    requires first <= hi < |entries| && Picked(subs, entries, first, picked, hi, table, elaborated)
    requires AttachedAs(entries[hi].1, sub, table)
    ensures Picked(subs + [(entries[hi].0, sub)], entries, first, picked + [hi], hi + 1, table, elaborated)
  {
  }

  /** More elements with a module keep every skip justified. */
  lemma PickedGrows(subs: seq<(string, Sub)>, entries: Dict<string, Child>, first: nat, picked: seq<nat>, hi: nat,
                    table: Dict<string, Domain>, elaborated: set<ObjId>, more: set<ObjId>)
    requires hi <= |entries| && Picked(subs, entries, first, picked, hi, table, elaborated) && elaborated <= more
    ensures Picked(subs, entries, first, picked, hi, table, more)
  {
  }

  /** The native children of a prefix of the table are native children of a longer prefix. */
  lemma RawIdsWithin(s: Dict<string, Child>, i: nat, k: nat)
    requires i <= k <= |s|
    ensures RawIds(s[..i]) <= RawIds(s[..k])
  {
    assert forall j :: 0 <= j < i ==> s[..i][j] == s[..k][j];
  }

  /**
   * One entry of the second loop: what held of the entries before `i` holds of
   * those before `i + 1` when the entry is skipped or attached without error.
   */
  lemma SecondLoopStep(e: Element, at: Context, entries: Dict<string, Child>, table: Dict<string, Domain>,
                       forNmigen: bool, constructing: bool, first: nat, i: nat, p: Pass, n0: nat, picked: seq<nat>)
    returns (next: seq<nat>)
    requires first <= |entries| && i < |entries| && n0 <= |p.subs|
    requires forall j :: 0 <= j < |entries| ==> Mentions(e.create, entries[j].1) || Mentions(e.finalize, entries[j].1)
    requires forall j :: 0 <= j < first ==> HasModule(entries[j].1, p.elaborated) || ChildId(entries[j].1) in p.done
    requires p.done <= RawIds(entries[..if i < first then first else i])
    requires Picked(p.subs[n0..], entries, first, picked, i, table, p.elaborated)
    ensures var q := Entry(e, at, entries, table, forNmigen, constructing, i, true, p);
            q.err.None? ==>
              && |q.subs| >= |p.subs| && q.subs[..|p.subs|] == p.subs
              && (forall j :: 0 <= j < first ==> HasModule(entries[j].1, q.elaborated) || ChildId(entries[j].1) in q.done)
              && q.done <= RawIds(entries[..if i + 1 < first then first else i + 1])
              && Picked(q.subs[n0..], entries, first, next, i + 1, table, q.elaborated)
  {
    var (slot, c) := entries[i];
    var q := Entry(e, at, entries, table, forNmigen, constructing, i, true, p);
    RawIdsStep(entries, i);
    RawIdsWithin(entries, if i < first then first else i, if i + 1 < first then first else i + 1);
    next := picked;
    if HasModule(c, p.elaborated) || (Hashable(c) && ChildId(c) in p.done) {
      assert q == p;
      assert p.subs[..|p.subs|] == p.subs;
      PickedSkip(p.subs[n0..], entries, first, picked, i, table, p.elaborated);
    } else if !Hashable(c) {
      assert q.err.Some?;
    } else {
      StoredChildIsSmaller(e, c);
      assert q == AttachChild(slot, c, at, table, forNmigen, constructing, p, Size(e));
      AttachChildShape(slot, c, at, table, forNmigen, constructing, p, Size(e));
      if q.err.None? {
        var sub := q.subs[|p.subs|].1;
        assert q.subs == p.subs + [(slot, sub)];
        assert q.subs[n0..] == p.subs[n0..] + [(slot, sub)];
        PickedGrows(p.subs[n0..], entries, first, picked, i, table, p.elaborated, q.elaborated);
        PickedTake(p.subs[n0..], entries, first, picked, i, table, q.elaborated, sub);
        next := picked + [i];
      }
    }
  }

  /**
   * The second loop, when it ends without error, attaches after the first loop's
   * children exactly the entries it picks, all of them added after the create
   * phase (`first` entries), in table order; every entry it skips had an `m` or
   * is a backend-native module stored under an earlier slot too.
   */
  lemma {:induction false} SecondLoopShape(e: Element, at: Context, entries: Dict<string, Child>, table: Dict<string, Domain>,
                                           forNmigen: bool, constructing: bool, first: nat, i: nat, p: Pass,
                                           n0: nat, picked: seq<nat>)
    returns (picked': seq<nat>)
    requires first <= |entries| && i <= |entries| && n0 <= |p.subs|
    requires forall j :: 0 <= j < |entries| ==> Mentions(e.create, entries[j].1) || Mentions(e.finalize, entries[j].1)
    requires forall j :: 0 <= j < first ==> HasModule(entries[j].1, p.elaborated) || ChildId(entries[j].1) in p.done
    requires p.done <= RawIds(entries[..if i < first then first else i])
    requires Picked(p.subs[n0..], entries, first, picked, i, table, p.elaborated)
    decreases |entries| - i
    ensures var q := Children(e, at, entries, table, forNmigen, constructing, i, true, p);
            q.err.None? ==>
              && |q.subs| >= |p.subs| && q.subs[..|p.subs|] == p.subs
              && Picked(q.subs[n0..], entries, first, picked', |entries|, table, q.elaborated)
  {
    picked' := picked;
    if i == |entries| {
      assert p.subs[..|p.subs|] == p.subs;
    } else {
      var q1 := Entry(e, at, entries, table, forNmigen, constructing, i, true, p);
      var next := SecondLoopStep(e, at, entries, table, forNmigen, constructing, first, i, p, n0, picked);
      if q1.err.None? {
        picked' := SecondLoopShape(e, at, entries, table, forNmigen, constructing, first, i + 1, q1, n0, next);
        var q := Children(e, at, entries, table, forNmigen, constructing, i + 1, true, q1);
        if q.err.None? {
          assert q.subs[..|p.subs|] == q.subs[..|q1.subs|][..|p.subs|];
        }
      }
    }
  }

  /**
   * When the first loop attached every entry `create` left, what `Finish`
   * yields on success is the module built from the two bodies and the two loops.
   */
  lemma FinishOutcome(e: Element, ctx: Context, topForNmigen: bool, forNmigen: bool, constructing: bool,
                      created: Local, p: Pass)
    returns (picked: seq<nat>)
    requires |ctx| > 0 && p.err.None?
    requires forall j :: 0 <= j < |created.storage| ==> Mentions(e.create, created.storage[j].1)
    requires FirstPassShape(p.subs, created.storage, created.table) && p.done <= RawIds(created.storage)
    requires forall j :: 0 <= j < |created.storage| ==>
               HasModule(created.storage[j].1, p.elaborated) || ChildId(created.storage[j].1) in p.done
    ensures var w := Finish(e, ctx, topForNmigen, forNmigen, constructing, created, p);
            w.r.Success? ==>
              var f := Run(ctx, topForNmigen, constructing, created, e.finalize);
              f.Success? && BuiltFrom(w.r.value, ctx, created, f.value, picked, w.elaborated)
  {
    picked := [];
    var f := Run(ctx, topForNmigen, constructing, created, e.finalize);
    if f.Failure? || ResolveDrivers(f.value.driving, f.value.table, ScopeName(ctx)).Failure? {
      return;
    }
    FinalizedEntries(ctx, topForNmigen, constructing, e, created);
    var entries := f.value.storage;
    var first := |created.storage|;
    assert entries[..first] == created.storage;
    forall j | 0 <= j < first ensures HasModule(entries[j].1, p.elaborated) || ChildId(entries[j].1) in p.done {
      assert entries[j] == created.storage[j];
    }
    assert p.subs[|p.subs|..] == [];
    picked := SecondLoopShape(e, CopyInvisible(ctx), entries, f.value.table, forNmigen, constructing, first, 0, p, |p.subs|, []);
    var q := Children(e, CopyInvisible(ctx), entries, f.value.table, forNmigen, constructing, 0, true, p);
    if q.err.None? {
      assert q.subs[..first] == p.subs;
    }
  }

  /**
   * What `Elaborated` yields is the outcome its stages describe: the error of
   * `create` when that raises, and otherwise, on success, the module built from
   * the two bodies and the two loops.
   */
  lemma ElaborateOutcome(e: Element, parent: Context, inherited: Dict<string, Domain>, top: bool, forNmigen: bool,
                         constructing: bool, elaborated: set<ObjId>)
    returns (picked: seq<nat>)
    requires e.name.Some?
    ensures var w := Elaborated(e, parent, inherited, top, forNmigen, constructing, elaborated);
            Outcome(w.r, picked, [Frame(Info(e), true)] + parent, top, forNmigen, constructing, inherited, e, w.elaborated)
  {
    picked := [];
    var ctx := [Frame(Info(e), true)] + parent;
    var el := elaborated + {e.oid};
    var w := Elaborated(e, parent, inherited, top, forNmigen, constructing, elaborated);
    assert w == Stages(e, ctx, inherited, top, forNmigen, constructing, el);
    var c := CreatePhase(ctx, top && forNmigen, constructing, top, inherited, e.create);
    if c.Failure? {
      return;
    }
    var created := c.value;
    CreatedEntries(ctx, top && forNmigen, constructing, top, inherited, e);
    var p0 := Pass(None, [], el, {});
    assert created.storage[..0] == [];
    FirstLoopShape(e, ctx, created.storage, created.table, forNmigen, constructing, 0, p0);
    var p := Children(e, ctx, created.storage, created.table, forNmigen, constructing, 0, false, p0);
    if p.err.Some? {
      return;
    }
    assert w == Finish(e, ctx, top && forNmigen, forNmigen, constructing, created, p);
    picked := FinishOutcome(e, ctx, top && forNmigen, forNmigen, constructing, created, p);
  }

  /**
   * An element whose bodies store, declare and drive nothing is elaborated
   * without error into a module with no children and no drivers, and only it
   * gains an `m`.
   */
  lemma EmptyBodiesSucceed(e: Element, parent: Context, inherited: Dict<string, Domain>, top: bool, forNmigen: bool,
                           constructing: bool, elaborated: set<ObjId>)
    requires e.name.Some? && e.create == [] && e.finalize == []
    ensures var w := Elaborated(e, parent, inherited, top, forNmigen, constructing, elaborated);
            && w.r.Success? && w.r.value.subs == [] && w.r.value.driving == []
            && w.elaborated == elaborated + {e.oid}
  {
    var ctx := [Frame(Info(e), true)] + parent;
    var c := CreatePhase(ctx, top && forNmigen, constructing, top, inherited, e.create);
    assert c == Success(WithDefaultSync(ctx, top && forNmigen, top, Fresh(inherited)));
    var created := c.value;
    assert created.storage == [] && created.driving == [];
    CreatedEntries(ctx, top && forNmigen, constructing, top, inherited, e);
    var p := Pass(None, [], elaborated + {e.oid}, {});
    assert Children(e, ctx, created.storage, created.table, forNmigen, constructing, 0, false, p) == p;
    assert Run(ctx, top && forNmigen, constructing, created, e.finalize) == Success(created);
    assert ResolveDrivers(created.driving, created.table, ScopeName(ctx)) == Success([]);
    FinalizedEntries(ctx, top && forNmigen, constructing, e, created);
    assert Children(e, CopyInvisible(ctx), created.storage, created.table, forNmigen, constructing, 0, true, p) == p;
    assert Finish(e, ctx, top && forNmigen, forNmigen, constructing, created, p)
        == Walked(Success(Module(created.domains, created.bridges, [], [])), p.elaborated);
  }

  /**
   * The second loop, when it ends without error, met no unhashable child that
   * lacked an `m`: `submodule not in done_submodules` hashes every such child.
   */
  lemma {:induction false} SecondLoopHashes(e: Element, at: Context, entries: Dict<string, Child>, table: Dict<string, Domain>,
                                            forNmigen: bool, constructing: bool, i: nat, p: Pass)
    requires i <= |entries|
    requires forall j :: 0 <= j < |entries| ==> Mentions(e.create, entries[j].1) || Mentions(e.finalize, entries[j].1)
    decreases |entries| - i
    ensures var q := Children(e, at, entries, table, forNmigen, constructing, i, true, p);
            q.err.None? ==> forall j :: i <= j < |entries| ==> HasModule(entries[j].1, q.elaborated) || Hashable(entries[j].1)
  {
    if i < |entries| {
      var q1 := Entry(e, at, entries, table, forNmigen, constructing, i, true, p);
      if q1.err.None? {
        SecondLoopHashes(e, at, entries, table, forNmigen, constructing, i + 1, q1);
        var q := Children(e, at, entries, table, forNmigen, constructing, i + 1, true, q1);
        assert HasModule(entries[i].1, p.elaborated) || Hashable(entries[i].1);
        assert p.elaborated <= q.elaborated;
      }
    }
  }

  /** A body that only stores one non-element object puts it in the first free `Cls#n` slot of an empty table. */
  lemma StoresOneChild(ctx: Context, topForNmigen: bool, constructing: bool, l: Local, c: Child)
    requires l.storage == [] && !c.ElementChild?
    ensures Run(ctx, topForNmigen, constructing, l, [AddSubmodule(c)])
            == Success(l.(storage := [(AnonSlot([], ClassName(c)), c)]))
  {
    var f := l.(storage := [(AnonSlot([], ClassName(c)), c)]);
    assert l.storage + [(AnonSlot([], ClassName(c)), c)] == f.storage;
    assert Step(ctx, topForNmigen, constructing, l, AddSubmodule(c)) == Success(f);
    assert [AddSubmodule(c)][1..] == [];
  }

  /** The finish of an element whose `finalize` stores one unhashable object in an empty table. */
  lemma FinishUnhashable(e: Element, ctx: Context, topForNmigen: bool, forNmigen: bool, constructing: bool,
                         created: Local, p: Pass, oid: ObjId, cls: string)
    requires |ctx| > 0 && created.storage == [] && created.driving == []
    requires e.finalize == [AddSubmodule(Unsupported(oid, cls, false))]
    ensures Finish(e, ctx, topForNmigen, forNmigen, constructing, created, p).r == Failure(UnhashableSubmodule(cls))
  {
    var child := Unsupported(oid, cls, false);
    StoresOneChild(ctx, topForNmigen, constructing, created, child);
    var f := created.(storage := [(AnonSlot([], cls), child)]);
    assert ResolveDrivers(f.driving, f.table, ScopeName(ctx)) == Success([]);
    FinalizedEntries(ctx, topForNmigen, constructing, e, created);
    assert Entry(e, CopyInvisible(ctx), f.storage, f.table, forNmigen, constructing, 0, true, p)
        == p.(err := Some(UnhashableSubmodule(cls)));
    assert Children(e, CopyInvisible(ctx), f.storage, f.table, forNmigen, constructing, 0, true, p).err
        == Some(UnhashableSubmodule(cls));
  }

  /**
   * An element whose `finalize` stores one unhashable object (a list, say) and
   * whose `create` does nothing raises the `TypeError` of hashing it in the
   * second loop, not the `ValueError` of `add_submodule`.
   */
  lemma UnhashableFinalizeChildRaises(e: Element, parent: Context, inherited: Dict<string, Domain>, top: bool,
                                      forNmigen: bool, constructing: bool, elaborated: set<ObjId>, oid: ObjId, cls: string)
    requires e.name.Some? && e.create == [] && e.finalize == [AddSubmodule(Unsupported(oid, cls, false))]
    ensures Elaborated(e, parent, inherited, top, forNmigen, constructing, elaborated).r == Failure(UnhashableSubmodule(cls))
  {
    var ctx := [Frame(Info(e), true)] + parent;
    var c := CreatePhase(ctx, top && forNmigen, constructing, top, inherited, e.create);
    assert c == Success(WithDefaultSync(ctx, top && forNmigen, top, Fresh(inherited)));
    var created := c.value;
    CreatedEntries(ctx, top && forNmigen, constructing, top, inherited, e);
    var p := Pass(None, [], elaborated + {e.oid}, {});
    assert Children(e, ctx, created.storage, created.table, forNmigen, constructing, 0, false, p) == p;
    FinishUnhashable(e, ctx, top && forNmigen, forNmigen, constructing, created, p, oid, cls);
  }

  /** Two statements driving one signal from different domains: the second raises the conflict. */
  lemma ConflictingDrives(ctx: Context, topForNmigen: bool, constructing: bool, l: Local,
                          sig: SignalId, d: Option<string>, d': Option<string>)
    requires l.driving == [] && d != d'
    ensures Run(ctx, topForNmigen, constructing, l, [Drive(sig, d), Drive(sig, d')]) == Failure(DriverConflict(sig, d, d'))
  {
    var acts := [Drive(sig, d), Drive(sig, d')];
    var l1 := l.(driving := [(sig, d)]);
    assert Step(ctx, topForNmigen, constructing, l, acts[0]) == Success(l1);
    assert acts[1..][0] == Drive(sig, d') && acts[1..][1..] == [];
    assert Run(ctx, topForNmigen, constructing, l1, acts[1..]) == Failure(DriverConflict(sig, d, d'));
  }

  /**
   * An element whose `create` drives one signal from two different domains
   * fails with the backend's driver-driver conflict at the second statement.
   */
  lemma DriverConflictRaises(e: Element, parent: Context, inherited: Dict<string, Domain>, top: bool, forNmigen: bool,
                             constructing: bool, elaborated: set<ObjId>, sig: SignalId, d: Option<string>, d': Option<string>)
    requires e.name.Some? && e.create == [Drive(sig, d), Drive(sig, d')] && d != d'
    ensures Elaborated(e, parent, inherited, top, forNmigen, constructing, elaborated).r == Failure(DriverConflict(sig, d, d'))
  {
    var ctx := [Frame(Info(e), true)] + parent;
    ConflictingDrives(ctx, top && forNmigen, constructing, Fresh(inherited), sig, d, d');
  }

  /** A module that `Outcome` describes has the domains its element's `finalize` left. */
  lemma OutcomeDomains(r: Result<Module, Error>, picked: seq<nat>, ctx: Context, top: bool, forNmigen: bool,
                       constructing: bool, inherited: Dict<string, Domain>, e: Element, elaborated: set<ObjId>)
    requires Outcome(r, picked, ctx, top, forNmigen, constructing, inherited, e, elaborated) && r.Success?
    ensures var c := CreatePhase(ctx, top && forNmigen, constructing, top, inherited, e.create);
            && c.Success?
            && var f := Run(ctx, top && forNmigen, constructing, c.value, e.finalize);
            && f.Success? && r.value.domains == f.value.domains
  {
  }
}

/**
 * Worked examples from the repository's tests: the domain tables and driver
 * names of tests/clock_domains.py, lookups before and after `finalize` from
 * tests/parent_invisible_after_finalize.py, and the element paths of
 * tests/class_hooks.py.
 */
module Scenarios {
  import opened Wrappers
  import opened Dicts
  import opened Contexts
  import opened Elements
  import opened Registry
  import opened Domains
  import opened Scripts

  // ---------------------------------------------------------------- tests/clock_domains.py

  /** The top element `A`, named `top` by `element_to_module`. */
  function TopFrame(): Frame
  {
    Frame(ElemInfo(0, "A", "top", None), true)
  }

  /** `B()`, stored anonymously in `A`'s table. */
  function BFrame(): Frame
  {
    Frame(ElemInfo(1, "B", "B#0", None), true)
  }

  /** `C()`, stored anonymously in `B`'s table. */
  function CFrame(): Frame
  {
    Frame(ElemInfo(2, "C", "C#0", None), true)
  }

  function DomainA(): Domain
  {
    Domain("_internal_top_a", false)
  }

  function DomainB(): Domain
  {
    Domain("_internal_top_b", false)
  }

  /** `DomainMapper("a")(B())`, whose `create` drives signal 2 from `sync` and adds `C()`. */
  function ElementB(): Element
  {
    Element(1, "B", None, None, [("sync", "a")], [Drive(2, Some("sync")), AddSubmodule(ElementChild(ElementC()))], [])
  }

  /** `C()`, whose `create` declares `a`, drives signal 3 from `sync` and reads three clocks. */
  function ElementC(): Element
  {
    Element(2, "C", None, None, [],
            [AddDomain(ClockDomain("a", false)), Drive(3, Some("sync")), ReadClock("a"), ReadClock("b"), ReadClock("sync")], [])
  }

  /** `A.create`: declares `a` and `b`, drives signal 0 from `a` and signal 1 from `b`, and adds `B`. */
  function CreateA(): seq<Action>
  {
    [AddDomain(ClockDomain("a", false)), AddDomain(ClockDomain("b", false)),
     Drive(0, Some("a")), Drive(1, Some("b")), AddSubmodule(ElementChild(ElementB()))]
  }

  /** Declaring a domain whose logical and physical names are both new appends it to the table. */
  lemma DeclareNew(ctx: Context, l: Local, n: string)
    requires !HasKey(l.table, PhysicalName(ctx, n)) && !HasKey(l.table, n)
    ensures var d := Domain(PhysicalName(ctx, n), false);
            Declare(ctx, false, l, ClockDomain(n, false)) == Success(l.(table := l.table + [(n, d)], domains := l.domains + [d]))
  {
    var d := Domain(PhysicalName(ctx, n), false);
    var r := Declare(ctx, false, l, ClockDomain(n, false));
    assert r.Success?;
    assert r.value.table == Put(l.table, n, d);
    assert r.value.table == l.table + [(n, d)];
    assert r.value.domains == l.domains + [d];
    assert r.value.bridges == l.bridges;
    assert r.value.driving == l.driving;
    assert r.value.storage == l.storage;
  }

  /** The first anonymous child of a class goes to slot `Cls#0` of an empty table. */
  lemma AddFirstAnonymous(c: Child)
    requires !(c.ElementChild? && c.e.name.Some?)
    ensures AddChild([], c) == Success([(ClassName(c) + "#0", c)])
  {
    assert DecimalString(0) == "0";
    assert AutoName(ClassName(c), 0) == ClassName(c) + "#0";
    SmallestFreeIsUnique([], ClassName(c), 0, FreeNumFrom([], ClassName(c), 0));
    assert AnonSlot([], ClassName(c)) == ClassName(c) + "#0";
    assert [] + [(ClassName(c) + "#0", c)] == [(ClassName(c) + "#0", c)];
  }

  /** The physical names the test looks for: `_internal_top_a` and `_internal_top/B#0/C#0_a`. */
  lemma ClockDomainNames()
    ensures PhysicalName([TopFrame()], "a") == DomainA().name
    ensures PhysicalName([TopFrame()], "b") == DomainB().name
    ensures PhysicalName([CFrame(), BFrame(), TopFrame()], "a") == "_internal_top/B#0/C#0_a"
  {
    ScopeNameOfRoot(TopFrame());
    ScopeNameOfChild(BFrame(), [TopFrame()]);
    ScopeNameOfChild(CFrame(), [BFrame(), TopFrame()]);
  }

  /** The state of `A` after the first `k` actions of its `create`. */
  function TopLocal(k: nat): Local
  {
    if k == 0 then Fresh([])
    else if k == 1 then Local([("a", DomainA())], [DomainA()], [], [], [])
    else if k == 2 then Local([("a", DomainA()), ("b", DomainB())], [DomainA(), DomainB()], [], [], [])
    else if k == 3 then Local([("a", DomainA()), ("b", DomainB())], [DomainA(), DomainB()], [], [(0, Some("a"))], [])
    else if k == 4 then
      Local([("a", DomainA()), ("b", DomainB())], [DomainA(), DomainB()], [], [(0, Some("a")), (1, Some("b"))], [])
    else
      Local([("a", DomainA()), ("b", DomainB())], [DomainA(), DomainB()], [], [(0, Some("a")), (1, Some("b"))],
            [("B#0", ElementChild(ElementB()))])
  }

  lemma TopStep0()
    ensures Step([TopFrame()], false, false, TopLocal(0), CreateA()[0]) == Success(TopLocal(1))
  {
    var ctx := [TopFrame()];
    var l0 := TopLocal(0);
    ClockDomainNames();
    DeclareNew(ctx, l0, "a");
    assert l0.(table := l0.table + [("a", DomainA())], domains := l0.domains + [DomainA()]) == TopLocal(1);
  }

  lemma TopStep1()
    ensures Step([TopFrame()], false, false, TopLocal(1), CreateA()[1]) == Success(TopLocal(2))
  {
    var ctx := [TopFrame()];
    var l1 := TopLocal(1);
    ClockDomainNames();
    assert !HasKey(l1.table, DomainB().name) && !HasKey(l1.table, "b");
    DeclareNew(ctx, l1, "b");
    assert l1.(table := l1.table + [("b", DomainB())], domains := l1.domains + [DomainB()]) == TopLocal(2);
  }

  lemma TopStep2()
    ensures Step([TopFrame()], false, false, TopLocal(2), Drive(0, Some("a"))) == Success(TopLocal(3))
  {
    var l2, l3 := TopLocal(2), TopLocal(3);
    assert l2.driving == [];
    DriveStep([TopFrame()], l2, 0, Some("a"));
    assert l2.(driving := [] + [(0, Some("a"))]) == l3;
  }

  lemma TopStep3()
    ensures Step([TopFrame()], false, false, TopLocal(3), Drive(1, Some("b"))) == Success(TopLocal(4))
  {
    var l3, l4 := TopLocal(3), TopLocal(4);
    assert l3.driving == [(0, Some("a"))];
    DriveSecond([TopFrame()], l3, 0, Some("a"), 1, Some("b"));
    assert l3.(driving := [(0, Some("a")), (1, Some("b"))]) == l4;
  }

  lemma TopStep4()
    ensures Step([TopFrame()], false, false, TopLocal(4), CreateA()[4]) == Success(TopLocal(5))
  {
    AddFirstAnonymous(ElementChild(ElementB()));
    assert ClassName(ElementChild(ElementB())) + "#0" == "B#0";
    assert TopLocal(4).(storage := TopLocal(5).storage) == TopLocal(5);
  }

  /**
   * `A.create` runs to completion: `a` and `b` are declared as `_internal_top_a`
   * and `_internal_top_b`, and `B` is stored as `B#0`.
   */
  lemma TopCreateRuns()
    ensures Run([TopFrame()], false, false, Fresh([]), CreateA()) == Success(TopLocal(5))
  {
    var ctx := [TopFrame()];
    var acts := CreateA();
    TopStep0();
    TopStep1();
    TopStep2();
    assert acts[2] == Drive(0, Some("a"));
    TopStep3();
    assert acts[3] == Drive(1, Some("b"));
    TopStep4();
    assert Run(ctx, false, false, TopLocal(5), acts[5..]) == Success(TopLocal(5));
    assert Run(ctx, false, false, TopLocal(4), acts[4..]) == Success(TopLocal(5));
    assert Run(ctx, false, false, TopLocal(3), acts[3..]) == Success(TopLocal(5));
    assert Run(ctx, false, false, TopLocal(2), acts[2..]) == Success(TopLocal(5));
    assert Run(ctx, false, false, TopLocal(1), acts[1..]) == Success(TopLocal(5));
    assert acts[0..] == acts;
  }

  /** `A`'s two drivers are renamed to `_internal_top_a` and `_internal_top_b`. */
  lemma TopDrivers()
    ensures ResolveDrivers(TopLocal(5).driving, TopLocal(5).table, "top")
            == Success([(0, Some("_internal_top_a")), (1, Some("_internal_top_b"))])
  {
    var l := TopLocal(5);
    GetOfEntry(l.table, 0);
    GetOfEntry(l.table, 1);
    assert Resolvable(l.driving[0], l.table) && Resolvable(l.driving[1], l.table);
    var r := ResolveDrivers(l.driving, l.table, "top");
    assert r.Success? && |r.value| == 2;
    assert r.value[0] == (0, Some("_internal_top_a"));
    assert r.value[1] == (1, Some("_internal_top_b"));
    assert r.value == [r.value[0], r.value[1]];
  }

  /**
   * `DomainMapper("a")` hands `A`'s domain `a` to `B` as `sync`, `b` under its own
   * name, and nothing under the name `a`.
   */
  lemma TableOfB()
    ensures ChildTable([("a", DomainA()), ("b", DomainB())], [("sync", "a")]) == [("sync", DomainA()), ("b", DomainB())]
  {
    var parent := [("a", DomainA()), ("b", DomainB())];
    var dm := [("sync", "a")];
    assert dm[..0] == [];
    assert LocalNamesFor(dm, "a") == ["sync"];
    assert LocalNamesFor(dm, "b") == [];
    var one := [("sync", DomainA())];
    assert PutAll([], ["sync"], DomainA()) == one by {
      assert ["sync"][..0] == [];
    }
    assert BindParentDomain([], parent[0], dm) == one;
    assert parent[..1][..0] == [];
    assert ChildTable(parent[..1], dm) == one;
    assert !HasKey(one, "b");
    assert BindParentDomain(one, parent[1], dm) == one + [("b", DomainB())];
  }

  /** The physical domain `C` declares. */
  function DomainC(): Domain
  {
    Domain("_internal_top/B#0/C#0_a", false)
  }

  /** `B`'s table, which `C` inherits unchanged. */
  function TableB(): Dict<string, Domain>
  {
    [("sync", DomainA()), ("b", DomainB())]
  }

  /** The state of `C` once it has declared `a`. */
  function CStart(): Local
  {
    Local(TableB() + [("a", DomainC())], [DomainC()], [], [], [])
  }

  /** The state of `C` once it has also driven signal 3 from `sync`. */
  function CLocal(): Local
  {
    CStart().(driving := [(3, Some("sync"))])
  }

  lemma CDeclares()
    ensures Step([CFrame(), BFrame(), TopFrame()], false, false, Fresh(TableB()), ElementC().create[0]) == Success(CStart())
  {
    var ctx := [CFrame(), BFrame(), TopFrame()];
    var l0 := Fresh(TableB());
    ClockDomainNames();
    assert !HasKey(l0.table, DomainC().name) && !HasKey(l0.table, "a");
    DeclareNew(ctx, l0, "a");
    assert l0.(table := l0.table + [("a", DomainC())], domains := l0.domains + [DomainC()]) == CStart();
  }

  /** `C`'s three clock reads find `C`'s own `a`, `A`'s `b`, and `A`'s `a` under `sync`. */
  lemma CReads()
    ensures ClockSignal("a", CLocal().table, false) == Success(DomainC())
    ensures ClockSignal("b", CLocal().table, false) == Success(DomainB())
    ensures ClockSignal("sync", CLocal().table, false) == Success(DomainA())
  {
    GetOfEntry(CLocal().table, 0);
    GetOfEntry(CLocal().table, 1);
    GetOfEntry(CLocal().table, 2);
  }

  /** A clock read that succeeds leaves the state as it was, and the body carries on. */
  lemma ReadRun(ctx: Context, l: Local, n: string, rest: seq<Action>)
    requires ClockSignal(n, l.table, false).Success?
    ensures Run(ctx, false, false, l, [ReadClock(n)] + rest) == Run(ctx, false, false, l, rest)
  {
    assert ([ReadClock(n)] + rest)[1..] == rest;
  }

  lemma CDrivers()
    ensures ResolveDrivers(CLocal().driving, CLocal().table, "top/B#0/C#0") == Success([(3, Some("_internal_top_a"))])
  {
    var l := CLocal();
    GetOfEntry(l.table, 0);
    assert Resolvable(l.driving[0], l.table);
    var r := ResolveDrivers(l.driving, l.table, "top/B#0/C#0");
    assert r.Success? && |r.value| == 1;
    assert r.value[0] == (3, Some("_internal_top_a"));
    assert r.value == [r.value[0]];
  }

  /** The first `m.d.<domain> += ...` of a body records its driver. */
  lemma DriveStep(ctx: Context, l: Local, sig: SignalId, d: Option<string>)
    requires !HasKey(l.driving, sig)
    ensures Step(ctx, false, false, l, Drive(sig, d)) == Success(l.(driving := l.driving + [(sig, d)]))
  {
  }

  /** A second signal driven after a first, different one is recorded after it. */
  lemma DriveSecond(ctx: Context, l: Local, s0: SignalId, d0: Option<string>, sig: SignalId, d: Option<string>)
    requires l.driving == [(s0, d0)] && sig != s0
    ensures Step(ctx, false, false, l, Drive(sig, d)) == Success(l.(driving := [(s0, d0), (sig, d)]))
  {
    assert !HasKey(l.driving, sig);
    DriveStep(ctx, l, sig, d);
    assert l.driving + [(sig, d)] == [(s0, d0), (sig, d)];
  }

  /** A body whose first action succeeds continues from that action's state. */
  lemma RunCons(ctx: Context, l: Local, acts: seq<Action>, l1: Local)
    requires acts != [] && Step(ctx, false, false, l, acts[0]) == Success(l1)
    ensures Run(ctx, false, false, l, acts) == Run(ctx, false, false, l1, acts[1..])
  {
  }

  /** What follows `C`'s declaration: the driver and the three clock reads. */
  function CTail(): seq<Action>
  {
    [Drive(3, Some("sync")), ReadClock("a"), ReadClock("b"), ReadClock("sync")]
  }

  /** Three clock reads that succeed leave the state as it was. */
  lemma ThreeReadsRun(ctx: Context, l: Local, x: string, y: string, z: string)
    requires ClockSignal(x, l.table, false).Success? && ClockSignal(y, l.table, false).Success?
    requires ClockSignal(z, l.table, false).Success?
    ensures Run(ctx, false, false, l, [ReadClock(x), ReadClock(y), ReadClock(z)]) == Success(l)
  {
    ReadRun(ctx, l, z, []);
    ReadRun(ctx, l, y, [ReadClock(z)]);
    ReadRun(ctx, l, x, [ReadClock(y), ReadClock(z)]);
    assert [ReadClock(z)] + [] == [ReadClock(z)];
    assert [ReadClock(y)] + [ReadClock(z)] == [ReadClock(y), ReadClock(z)];
    assert [ReadClock(x)] + [ReadClock(y), ReadClock(z)] == [ReadClock(x), ReadClock(y), ReadClock(z)];
  }

  /** `C`'s three clock reads succeed and change nothing. */
  lemma CReadsRun(ctx: Context)
    ensures Run(ctx, false, false, CLocal(), CTail()[1..]) == Success(CLocal())
  {
    CReads();
    ThreeReadsRun(ctx, CLocal(), "a", "b", "sync");
    assert CTail()[1..] == [ReadClock("a"), ReadClock("b"), ReadClock("sync")];
  }

  /** From the declared state, the rest of `C.create` records the driver and reads without failing. */
  lemma CTailRuns(ctx: Context)
    ensures Run(ctx, false, false, CStart(), CTail()) == Success(CLocal())
  {
    DriveStep(ctx, CStart(), 3, Some("sync"));
    assert CStart().(driving := [] + [(3, Some("sync"))]) == CLocal();
    CReadsRun(ctx);
    RunCons(ctx, CStart(), CTail(), CLocal());
  }

  /** `C.create` runs to completion and ends in `CLocal()`. */
  lemma CCreateRuns(ctx: Context)
    requires ctx == [CFrame(), BFrame(), TopFrame()]
    ensures Run(ctx, false, false, Fresh(TableB()), ElementC().create) == Success(CLocal())
  {
    var acts := ElementC().create;
    CDeclares();
    CTailRuns(ctx);
    assert acts[1..] == CTail();
    RunCons(ctx, Fresh(TableB()), acts, CStart());
  }

  /**
   * In `C`, which inherits `B`'s table unchanged and declares its own `a`:
   * `sync` is still `A`'s domain `a`, `b` is `A`'s `b`, and `a` is `C`'s own
   * `_internal_top/B#0/C#0_a`; `C`'s driver follows `sync`.
   */
  lemma SignalsInC()
    ensures var inherited := ChildTable(TableB(), []);
            var r := Run([CFrame(), BFrame(), TopFrame()], false, false, Fresh(inherited), ElementC().create);
            && r.Success?
            && ClockSignal("a", r.value.table, false) == Success(Domain("_internal_top/B#0/C#0_a", false))
            && ClockSignal("b", r.value.table, false) == Success(DomainB())
            && ClockSignal("sync", r.value.table, false) == Success(DomainA())
            && ResolveDrivers(r.value.driving, r.value.table, "top/B#0/C#0") == Success([(3, Some("_internal_top_a"))])
  {
    EmptyMapCopiesTable(TableB());
    CCreateRuns([CFrame(), BFrame(), TopFrame()]);
    CReads();
    CDrivers();
  }

  // ---------------------------------------------------------------- tests/parent_invisible_after_finalize.py

  /** `class A`, `class B` and `class C` of the test, none a subclass of another. */
  function ClassA(): ClassRef
  {
    ClassRef("A", {})
  }

  /**
   * `B`, added in `A`'s `create`, finds `A`; `C`, added in `A`'s `finalize` and so
   * elaborated under the invisible copy of `A`'s context, does not.
   */
  lemma ParentInvisibleAfterFinalize()
    ensures Find([Frame(ElemInfo(1, "B", "B#0", None), true), TopFrame()], ClassA()) == Some(1)
    ensures Find([Frame(ElemInfo(2, "C", "C#0", None), true)] + CopyInvisible([TopFrame()]), ClassA()) == None
  {
    assert IsInstance("A", ClassA());
    var c := [Frame(ElemInfo(2, "C", "C#0", None), true)] + CopyInvisible([TopFrame()]);
    assert !c[1].visible;
  }

  // ---------------------------------------------------------------- tests/class_hooks.py

  /** The two anonymous `A` children of `top` see the paths `top/A#0` and `top/A#1`. */
  lemma ClassHookPaths()
    ensures ScopeName([Frame(ElemInfo(1, "A", "A#0", None), true), TopFrame()]) == "top/A#0"
    ensures ScopeName([Frame(ElemInfo(2, "A", "A#1", None), true), TopFrame()]) == "top/A#1"
  {
    ScopeNameOfRoot(TopFrame());
    ScopeNameOfChild(Frame(ElemInfo(1, "A", "A#0", None), true), [TopFrame()]);
    ScopeNameOfChild(Frame(ElemInfo(2, "A", "A#1", None), true), [TopFrame()]);
  }
}

/**
 * The module an element builds: `ModuleWrapper` (amigen.py:143-147) with its
 * `DomainSetBuilder` (amigen.py:105-141) and `SubmoduleBuilder`, and the
 * effect of a whole `create` or `finalize` body on it, as a function.
 */
module Scripts {
  import opened Wrappers
  import opened Dicts
  import opened Contexts
  import opened Elements
  import opened Registry
  import opened Domains

  /**
   * What one element's bodies build up: its context's domain table, the
   * domains added to its module, the bridge statements, the drivers
   * (`module._driving`) and the submodule table.
   */
  datatype Local = Local(
    table: Dict<string, Domain>,
    domains: seq<Domain>,
    bridges: seq<Bridge>,
    driving: Dict<SignalId, Option<string>>,
    storage: Dict<string, Child>)

  /** The module element `e` starts with, given the domain table it inherits. */
  function Fresh(inherited: Dict<string, Domain>): Local
  {
    Local(inherited, [], [], [], [])
  }

  /**
   * `m.domains += arg` in the element with context `ctx`: a non-`ClockDomain`
   * raises `TypeError`; a prefixed name already in the table raises
   * `NameError`; otherwise the physical domain is added to the module and the
   * logical name is rebound to it.
   */
  function Declare(ctx: Context, topForNmigen: bool, l: Local, arg: DomainArg): (r: Result<Local, Error>)
    ensures arg.NotAClockDomain? ==> r == Failure(NotAClockDomainError)
    ensures arg.ClockDomain? && HasKey(l.table, PhysicalName(ctx, arg.name)) ==> r == Failure(DomainExists(arg.name))
    ensures r.Success? <==> arg.ClockDomain? && !HasKey(l.table, PhysicalName(ctx, arg.name))
    ensures r.Success? ==>
              var d := Domain(PhysicalName(ctx, arg.name), arg.resetLess);
              && (forall x :: Get(r.value.table, x) == if x == arg.name then Some(d) else Get(l.table, x))
              && r.value.domains == l.domains + [d]
              && r.value.bridges == l.bridges + (if topForNmigen then BridgesFor(d.name, arg.name, arg.resetLess) else [])
              && r.value.driving == l.driving && r.value.storage == l.storage
  {
    match arg
    case NotAClockDomain(_) => Failure(NotAClockDomainError)
    case ClockDomain(n, resetLess) =>
      var physical := PhysicalName(ctx, n);
      if HasKey(l.table, physical) then Failure(DomainExists(n))
      else
        var d := Domain(physical, resetLess);
        Success(l.(table := Put(l.table, n, d),
                   domains := l.domains + [d],
                   bridges := l.bridges + if topForNmigen then BridgesFor(physical, n, resetLess) else []))
  }

  /** `m.domains.<attr> = arg`: the attribute must be the domain's own name. */
  function DeclareAs(ctx: Context, topForNmigen: bool, l: Local, attr: string, arg: DomainArg): (r: Result<Local, Error>)
    ensures arg.name != attr ==> r == Failure(DomainNameMismatch(attr, arg.name))
    ensures arg.name == attr ==> r == Declare(ctx, topForNmigen, l, arg)
  {
    if arg.name != attr then Failure(DomainNameMismatch(attr, arg.name)) else Declare(ctx, topForNmigen, l, arg)
  }

  /** A new submodule table, or the error storing the child raised. */
  function WithStorage(l: Local, s: Result<Dict<string, Child>, Error>): Result<Local, Error>
  {
    match s
    case Success(st) => Success(l.(storage := st))
    case Failure(e) => Failure(e)
  }

  /** A signal read succeeds without changing anything, or raises. */
  function AfterRead(l: Local, s: Result<Domain, Error>): Result<Local, Error>
  {
    match s
    case Success(_) => Success(l)
    case Failure(e) => Failure(e)
  }

  /**
   * `m.d.<d> += s.eq(...)` (`m.d.comb` for `None`): the backend's
   * `Module._add_statement` records the domain a signal is first driven from,
   * and raises a driver-driver conflict when a later statement drives it from
   * another domain.
   */
  function DriveFrom(l: Local, s: SignalId, d: Option<string>): (r: Result<Local, Error>)
    ensures r.Failure? <==> HasKey(l.driving, s) && Get(l.driving, s) != Some(d)
    ensures r.Failure? ==> r.error == DriverConflict(s, Get(l.driving, s).value, d)
    ensures r.Success? ==> r.value.(driving := l.driving) == l
    ensures r.Success? ==> forall x :: Get(r.value.driving, x) == if x == s then Some(d) else Get(l.driving, x)
    ensures r.Success? && HasKey(l.driving, s) ==> r.value == l
  {
    match Get(l.driving, s)
    case None => Success(l.(driving := Put(l.driving, s, d)))
    case Some(d0) => if d0 == d then Success(l) else Failure(DriverConflict(s, d0, d))
  }

  /** One action of a body; `constructing` says whether an element constructor is running. */
  ghost function Step(ctx: Context, topForNmigen: bool, constructing: bool, l: Local, a: Action): Result<Local, Error>
  {
    match a
    case AddDomain(arg) => Declare(ctx, topForNmigen, l, arg)
    case SetDomain(attr, arg) => DeclareAs(ctx, topForNmigen, l, attr, arg)
    case Drive(s, d) => DriveFrom(l, s, d)
    case AddSubmodule(c) => WithStorage(l, AddChild(l.storage, c))
    case SetSubmodule(slot, c) => WithStorage(l, SetChild(l.storage, slot, c))
    case WithContext(_) => Success(l)
    case ReadClock(n) => AfterRead(l, ClockSignal(n, l.table, constructing))
    case ReadReset(n) => AfterRead(l, ResetSignal(n, l.table, constructing))
  }

  /** A whole body: its actions in order, stopping at the first that raises. */
  ghost function Run(ctx: Context, topForNmigen: bool, constructing: bool, l: Local, acts: seq<Action>): Result<Local, Error>
    decreases |acts|
  {
    if acts == [] then Success(l)
    else match Step(ctx, topForNmigen, constructing, l, acts[0])
      case Failure(e) => Failure(e)
      case Success(l1) => Run(ctx, topForNmigen, constructing, l1, acts[1..])
  }

  /** One action appends at most the child it stores to the submodule table. */
  lemma StepExtendsStorage(ctx: Context, topForNmigen: bool, constructing: bool, l: Local, a: Action)
    requires Step(ctx, topForNmigen, constructing, l, a).Success?
    ensures var s := Step(ctx, topForNmigen, constructing, l, a).value.storage;
            |s| >= |l.storage| && s[..|l.storage|] == l.storage
            && forall j :: |l.storage| <= j < |s| ==> StoredChild(a) == Some(s[j].1)
  {
  }

  /**
   * A body only appends to the submodule table, and everything it appends is a
   * child one of its actions stores.
   */
  lemma {:induction false} RunExtendsStorage(ctx: Context, topForNmigen: bool, constructing: bool, l: Local, acts: seq<Action>)
    requires Run(ctx, topForNmigen, constructing, l, acts).Success?
    decreases |acts|
    ensures var s := Run(ctx, topForNmigen, constructing, l, acts).value.storage;
            |s| >= |l.storage| && s[..|l.storage|] == l.storage
            && forall j :: |l.storage| <= j < |s| ==> Mentions(acts, s[j].1)
  {
    if acts != [] {
      var l1 := Step(ctx, topForNmigen, constructing, l, acts[0]).value;
      StepExtendsStorage(ctx, topForNmigen, constructing, l, acts[0]);
      RunExtendsStorage(ctx, topForNmigen, constructing, l1, acts[1..]);
      var s := Run(ctx, topForNmigen, constructing, l, acts).value.storage;
      assert s == Run(ctx, topForNmigen, constructing, l1, acts[1..]).value.storage;
      forall j | |l.storage| <= j < |s| ensures Mentions(acts, s[j].1) {
        if j < |l1.storage| {
          assert s[j] == s[..|l1.storage|][j] == l1.storage[j];
          assert StoredChild(acts[0]) == Some(s[j].1);
        } else {
          var k :| 0 <= k < |acts[1..]| && StoredChild(acts[1..][k]) == Some(s[j].1);
          assert StoredChild(acts[k + 1]) == Some(s[j].1);
        }
      }
      assert s[..|l1.storage|][..|l.storage|] == s[..|l.storage|];
    }
  }

  /** One action never changes the domain of a signal already driven, and a statement leaves its signal driven from its domain. */
  lemma StepKeepsDrivers(ctx: Context, topForNmigen: bool, constructing: bool, l: Local, a: Action)
    requires Step(ctx, topForNmigen, constructing, l, a).Success?
    ensures var dr := Step(ctx, topForNmigen, constructing, l, a).value.driving;
            && (forall x :: HasKey(l.driving, x) ==> HasKey(dr, x) && Get(dr, x) == Get(l.driving, x))
            && (a.Drive? ==> HasKey(dr, a.signal) && Get(dr, a.signal) == Some(a.driver))
  {
  }

  /** A body never changes the domain of a signal already driven. */
  lemma {:induction false} RunKeepsDrivers(ctx: Context, topForNmigen: bool, constructing: bool, l: Local, acts: seq<Action>)
    requires Run(ctx, topForNmigen, constructing, l, acts).Success?
    decreases |acts|
    ensures var dr := Run(ctx, topForNmigen, constructing, l, acts).value.driving;
            forall x :: HasKey(l.driving, x) ==> HasKey(dr, x) && Get(dr, x) == Get(l.driving, x)
  {
    if acts != [] {
      var l1 := Step(ctx, topForNmigen, constructing, l, acts[0]).value;
      StepKeepsDrivers(ctx, topForNmigen, constructing, l, acts[0]);
      RunKeepsDrivers(ctx, topForNmigen, constructing, l1, acts[1..]);
    }
  }

  /** After a body that ran without error, the statement at `k` drives its signal from the domain it ends up with. */
  lemma {:induction false} RunDrivesAt(ctx: Context, topForNmigen: bool, constructing: bool, l: Local, acts: seq<Action>, k: nat)
    requires Run(ctx, topForNmigen, constructing, l, acts).Success?
    requires k < |acts| && acts[k].Drive?
    decreases k
    ensures Get(Run(ctx, topForNmigen, constructing, l, acts).value.driving, acts[k].signal) == Some(acts[k].driver)
  {
    var l1 := Step(ctx, topForNmigen, constructing, l, acts[0]).value;
    assert Run(ctx, topForNmigen, constructing, l, acts) == Run(ctx, topForNmigen, constructing, l1, acts[1..]);
    if k == 0 {
      StepKeepsDrivers(ctx, topForNmigen, constructing, l, acts[0]);
      RunKeepsDrivers(ctx, topForNmigen, constructing, l1, acts[1..]);
    } else {
      assert acts[k] == acts[1..][k - 1];
      RunDrivesAt(ctx, topForNmigen, constructing, l1, acts[1..], k - 1);
    }
  }

  /**
   * After a body that ran without error, every signal keeps the domain it was
   * driven from before, and every statement of the body drives its signal from
   * the domain the signal ends up with: no signal has two drivers.
   */
  lemma RunDrivesConsistently(ctx: Context, topForNmigen: bool, constructing: bool, l: Local, acts: seq<Action>)
    requires Run(ctx, topForNmigen, constructing, l, acts).Success?
    ensures var dr := Run(ctx, topForNmigen, constructing, l, acts).value.driving;
            && (forall x :: HasKey(l.driving, x) ==> HasKey(dr, x) && Get(dr, x) == Get(l.driving, x))
            && (forall k :: 0 <= k < |acts| && acts[k].Drive? ==> Get(dr, acts[k].signal) == Some(acts[k].driver))
  {
    RunKeepsDrivers(ctx, topForNmigen, constructing, l, acts);
    forall k | 0 <= k < |acts| && acts[k].Drive?
      ensures Get(Run(ctx, topForNmigen, constructing, l, acts).value.driving, acts[k].signal) == Some(acts[k].driver)
    {
      RunDrivesAt(ctx, topForNmigen, constructing, l, acts, k);
    }
  }

  /** A body only appends to the domains added to the module. */
  lemma {:induction false} RunKeepsDomains(ctx: Context, topForNmigen: bool, constructing: bool, l: Local, acts: seq<Action>)
    requires Run(ctx, topForNmigen, constructing, l, acts).Success?
    decreases |acts|
    ensures var ds := Run(ctx, topForNmigen, constructing, l, acts).value.domains;
            |ds| >= |l.domains| && ds[..|l.domains|] == l.domains
  {
    if acts != [] {
      var l1 := Step(ctx, topForNmigen, constructing, l, acts[0]).value;
      assert |l1.domains| >= |l.domains| && l1.domains[..|l.domains|] == l.domains;
      RunKeepsDomains(ctx, topForNmigen, constructing, l1, acts[1..]);
      var ds := Run(ctx, topForNmigen, constructing, l, acts).value.domains;
      assert ds[..|l1.domains|][..|l.domains|] == ds[..|l.domains|];
    }
  }

  /**
   * After a body that ran to completion, the domain table is empty exactly when
   * it was empty before and the body declares no domain.
   */
  lemma {:induction false} RunLeavesTableEmpty(ctx: Context, topForNmigen: bool, constructing: bool, l: Local, acts: seq<Action>)
    requires Run(ctx, topForNmigen, constructing, l, acts).Success?
    decreases |acts|
    ensures Run(ctx, topForNmigen, constructing, l, acts).value.table == [] <==> l.table == [] && !DeclaresDomain(acts)
  {
    if acts != [] {
      var l1 := Step(ctx, topForNmigen, constructing, l, acts[0]).value;
      RunLeavesTableEmpty(ctx, topForNmigen, constructing, l1, acts[1..]);
      if acts[0].AddDomain? || acts[0].SetDomain? {
        assert HasKey(l1.table, acts[0].arg.name) by {
          assert Get(l1.table, acts[0].arg.name).Some?;
        }
        assert l1.table != [];
      } else {
        assert l1.table == l.table;
      }
      assert DeclaresDomain(acts) <==> acts[0].AddDomain? || acts[0].SetDomain? || DeclaresDomain(acts[1..]) by {
        if DeclaresDomain(acts[1..]) {
          var k :| 0 <= k < |acts[1..]| && (acts[1..][k].AddDomain? || acts[1..][k].SetDomain?);
          assert acts[k + 1] == acts[1..][k];
        }
        if DeclaresDomain(acts) && !(acts[0].AddDomain? || acts[0].SetDomain?) {
          var k :| 0 <= k < |acts| && (acts[k].AddDomain? || acts[k].SetDomain?);
          assert acts[1..][k - 1] == acts[k];
        }
      }
    }
  }

  /** The domain `sync` gets when the top element declares none. */
  function DefaultSync(ctx: Context): Domain
  {
    Domain(PhysicalName(ctx, "sync"), false)
  }

  /** `if top and len(context.domains) == 0: module.domains += ClockDomain("sync")` */
  function WithDefaultSync(ctx: Context, topForNmigen: bool, top: bool, l: Local): (r: Local)
    ensures top && l.table == [] ==> Get(r.table, "sync") == Some(DefaultSync(ctx)) && |r.table| == 1
    ensures top && l.table == [] ==> r.domains == l.domains + [DefaultSync(ctx)]
    ensures !(top && l.table == []) ==> r == l
    ensures r.storage == l.storage && r.driving == l.driving
  {
    if top && |l.table| == 0 then Declare(ctx, topForNmigen, l, ClockDomain("sync", false)).value else l
  }

  /**
   * The top element gets the default `sync` domain exactly when its `create`
   * declares no domain.
   */
  lemma TopGetsDefaultSync(ctx: Context, topForNmigen: bool, constructing: bool, create: seq<Action>)
    requires Run(ctx, topForNmigen, constructing, Fresh([]), create).Success?
    ensures var l1 := Run(ctx, topForNmigen, constructing, Fresh([]), create).value;
            WithDefaultSync(ctx, topForNmigen, true, l1) != l1 <==> !DeclaresDomain(create)
    ensures var l1 := Run(ctx, topForNmigen, constructing, Fresh([]), create).value;
            !DeclaresDomain(create) ==> Get(WithDefaultSync(ctx, topForNmigen, true, l1).table, "sync") == Some(DefaultSync(ctx))
  {
    RunLeavesTableEmpty(ctx, topForNmigen, constructing, Fresh([]), create);
  }

  /** A finished module: its domains, bridges, drivers and attached submodules, by slot name. */
  datatype Module = Module(
    domains: seq<Domain>,
    bridges: seq<Bridge>,
    driving: Dict<SignalId, Option<string>>,
    subs: seq<(string, Sub)>)

  /** An attached submodule: an elaborated element, or a backend-native one under a domain rename map. */
  datatype Sub = Nested(m: Module) | Native(oid: ObjId, renames: Dict<string, string>)

  /** `ModuleWrapper`: the module being built for one element, with its builders. */
  class ModuleWrapper {
    /** the element's context, which the domain builder names domains after */
    const scope: Context
    /** `top and for_nmigen` */
    const topForNmigen: bool
    /** `m.submodules` */
    const submodules: SubmoduleBuilder
    /** `context.domains`, which `m.domains +=` rebinds */
    var contextDomains: Dict<string, Domain>
    /** the domains added to the module with `_add_domain` */
    var domains: seq<Domain>
    /** the clock and reset bridge statements */
    var bridges: seq<Bridge>
    /** `module._driving` */
    var driving: Dict<SignalId, Option<string>>
    /** `module._add_submodule` calls, in order */
    var attached: seq<(string, Sub)>

    ghost predicate Valid()
      reads this, submodules
    {
      submodules.Valid() && |scope| > 0
    }

    /** The element-level state, as the script functions see it. */
    function State(): Local
      reads this, submodules
    {
      Local(contextDomains, domains, bridges, driving, submodules.storage)
    }

    /** `ModuleWrapper(element, top)`, with the context's fresh copy of the inherited table. */
    constructor (scope: Context, topForNmigen: bool, inherited: Dict<string, Domain>)
      requires |scope| > 0
      ensures Valid() && fresh(submodules)
      ensures this.scope == scope && this.topForNmigen == topForNmigen
      ensures State() == Fresh(inherited) && attached == []
    {
      this.scope := scope;
      this.topForNmigen := topForNmigen;
      submodules := new SubmoduleBuilder();
      contextDomains := inherited;
      domains := [];
      bridges := [];
      driving := [];
      attached := [];
    }

    /** `DomainSetBuilder.__iadd__` */
    method AddDomain(arg: DomainArg) returns (err: Option<Error>)
      requires Valid()
      modifies this
      ensures Valid() && attached == old(attached)
      ensures match Declare(scope, topForNmigen, old(State()), arg)
              case Success(l) => err == None && State() == l
              case Failure(e) => err == Some(e) && State() == old(State())
    {
      if arg.NotAClockDomain? {
        return Some(NotAClockDomainError);
      }
      var physical := PhysicalName(scope, arg.name);
      if HasKey(contextDomains, physical) {
        return Some(DomainExists(arg.name));
      }
      var d := Domain(physical, arg.resetLess);
      domains := domains + [d];
      if topForNmigen {
        bridges := bridges + BridgesFor(physical, arg.name, arg.resetLess);
      }
      contextDomains := Put(contextDomains, arg.name, d);
      err := None;
    }

    /** `DomainSetBuilder.__setattr__` */
    method SetDomain(attr: string, arg: DomainArg) returns (err: Option<Error>)
      requires Valid()
      modifies this
      ensures Valid() && attached == old(attached)
      ensures match DeclareAs(scope, topForNmigen, old(State()), attr, arg)
              case Success(l) => err == None && State() == l
              case Failure(e) => err == Some(e) && State() == old(State())
    {
      if arg.name != attr {
        return Some(DomainNameMismatch(attr, arg.name));
      }
      err := AddDomain(arg);
    }
    /** `m.d.<driver> += signal.eq(...)` (`m.d.comb` for `None`), with the backend's driver-driver check. */
    method Drive(signal: SignalId, driver: Option<string>) returns (err: Option<Error>)
      requires Valid()
      modifies this
      ensures Valid() && attached == old(attached)
      ensures match DriveFrom(old(State()), signal, driver)
              case Success(l) => err == None && State() == l
              case Failure(e) => err == Some(e) && State() == old(State())
    {
      err := None;
      var current := Get(driving, signal);
      if current.None? {
        driving := Put(driving, signal, driver);
      } else if current.value != driver {
        err := Some(DriverConflict(signal, current.value, driver));
      }
    }

    /** `m.submodules += child` */
    method AddSubmodule(child: Child) returns (err: Option<Error>)
      requires Valid()
      modifies submodules
      ensures Valid()
      ensures WithStorage(old(State()), AddChild(old(submodules.storage), child))
              == if err.None? then Success(State()) else Failure(err.value)
    {
      err := submodules.Add(child);
    }

    /** `m.submodules.<slot> = child` */
    method SetSubmodule(slot: string, child: Child) returns (err: Option<Error>)
      requires Valid()
      modifies submodules
      ensures Valid()
      ensures WithStorage(old(State()), SetChild(old(submodules.storage), slot, child))
              == if err.None? then Success(State()) else Failure(err.value)
    {
      err := submodules.Set(slot, child);
    }

    /** `module._add_submodule(sub, slot)` */
    method Attach(slot: string, sub: Sub)
      modifies this
      ensures attached == old(attached) + [(slot, sub)]
      ensures contextDomains == old(contextDomains) && domains == old(domains) && bridges == old(bridges)
      ensures driving == old(driving)
    {
      attached := attached + [(slot, sub)];
    }

    /** The finished module. */
    function Freeze(): (r: Module)
      reads this
    {
      Module(domains, bridges, driving, attached)
    }
  }
}

/**
 * Clock-domain scoping: the physical names of locally declared domains
 * (amigen.py:110-134), the table a child element receives (amigen.py:320-331),
 * the rename map for backend-native children (amigen.py:337), `DomainMapper`
 * (amigen.py:220-229), `ClockSignal`/`ResetSignal` (amigen.py:29-47) and the
 * resolution of driving domains (amigen.py:350-357).
 */
module Domains {
  import opened Wrappers
  import opened Dicts
  import opened Contexts
  import opened Elements

  // ---------------------------------------------------------------- physical names

  /** `"_internal_" + "/".join(root ... self) + "_" + name`: the backend name of a domain declared by `ctx`'s element. */
  function PhysicalName(ctx: Context, local: string): string
  {
    "_internal_" + ScopeName(ctx) + "_" + local
  }

  /** One element's domains with different local names get different physical names. */
  lemma PhysicalNamesOfOneElementDiffer(ctx: Context, a: string, b: string)
    requires a != b
    ensures PhysicalName(ctx, a) != PhysicalName(ctx, b)
  {
    var p := "_internal_" + ScopeName(ctx) + "_";
    assert PhysicalName(ctx, a) == p + a && PhysicalName(ctx, b) == p + b;
    assert (p + a)[|p|..] == a && (p + b)[|p|..] == b;
  }

  /**
   * Two sibling elements (distinct names under one parent context) that declare
   * a domain with the same local name get different physical names.
   */
  lemma PhysicalNamesOfSiblingsDiffer(ctx: Context, f1: Frame, f2: Frame, local: string)
    requires |ctx| > 0 && f1.elem.name != f2.elem.name
    ensures PhysicalName([f1] + ctx, local) != PhysicalName([f2] + ctx, local)
  {
    ScopeNameOfChild(f1, ctx);
    ScopeNameOfChild(f2, ctx);
    var p := "_internal_" + ScopeName(ctx) + "/";
    var s := "_" + local;
    var a, b := f1.elem.name, f2.elem.name;
    assert PhysicalName([f1] + ctx, local) == p + a + s;
    assert PhysicalName([f2] + ctx, local) == p + b + s;
    assert (p + a + s)[|p|..|p| + |a|] == a;
    if |a| == |b| {
      assert (p + b + s)[|p|..|p| + |a|] == b;
    }
  }

  /**
   * The duplicate check of `m.domains +=` looks the prefixed name up among the
   * table's logical names, so right after `local` was declared (and bound to its
   * physical name) the same declaration again is not rejected by it.
   */
  lemma RedeclarationPassesCheck(ctx: Context, table: Dict<string, Domain>, local: string, resetLess: bool)
    requires !HasKey(table, PhysicalName(ctx, local))
    ensures !HasKey(Put(table, local, Domain(PhysicalName(ctx, local), resetLess)), PhysicalName(ctx, local))
  {
    assert |PhysicalName(ctx, local)| > |local|;
    var t := Put(table, local, Domain(PhysicalName(ctx, local), resetLess));
    assert Get(t, PhysicalName(ctx, local)) == Get(table, PhysicalName(ctx, local));
  }

  /** The statements bridging a domain declared at the backend top to the outer clock and reset. */
  datatype Bridge = ClockBridge(local: string, outer: string) | ResetBridge(local: string, outer: string)

  function BridgesFor(physical: string, local: string, resetLess: bool): (r: seq<Bridge>)
    ensures |r| == if resetLess then 1 else 2
    ensures r[0] == ClockBridge(physical, local)
    ensures !resetLess ==> r[1] == ResetBridge(physical, local)
  {
    [ClockBridge(physical, local)] + if resetLess then [] else [ResetBridge(physical, local)]
  }

  // ---------------------------------------------------------------- the child's table

  /** `domain_map_inverse[parentName]`: the child-local names mapped onto `parentName`, in `domain_map` order. */
  function LocalNamesFor(dm: Dict<string, string>, parentName: string): (r: seq<string>)
    ensures forall x :: x in r <==> exists i :: 0 <= i < |dm| && dm[i] == (x, parentName)
  {
    if dm == [] then []
    else
      var last := dm[|dm| - 1];
      var r := LocalNamesFor(dm[..|dm| - 1], parentName) + if last.1 == parentName then [last.0] else [];
      assert forall i :: 0 <= i < |dm| - 1 ==> dm[i] == dm[..|dm| - 1][i];
      r
  }

  /** `out[name] = v` for each name in order. */
  function PutAll<V>(out: Dict<string, V>, names: seq<string>, v: V): (r: Dict<string, V>)
    ensures forall x :: Get(r, x) == if x in names then Some(v) else Get(out, x)
  {
    if names == [] then out
    else
      var r := Put(PutAll(out, names[..|names| - 1], v), names[|names| - 1], v);
      assert forall x :: x in names <==> x in names[..|names| - 1] || x == names[|names| - 1] by {
        assert names == names[..|names| - 1] + [names[|names| - 1]];
      }
      r
  }

  /** One step of the loop over the parent's domains. */
  function BindParentDomain(out: Dict<string, Domain>, entry: (string, Domain), dm: Dict<string, string>): Dict<string, Domain>
  {
    var targets := LocalNamesFor(dm, entry.0);
    if targets != [] then PutAll(out, targets, entry.1) else Put(out, entry.0, entry.1)
  }

  /** `domains_for_submodule`: the loop over the parent's domains, in order. */
  function ChildTable(parent: Dict<string, Domain>, dm: Dict<string, string>): Dict<string, Domain>
  {
    if parent == [] then []
    else BindParentDomain(ChildTable(parent[..|parent| - 1], dm), parent[|parent| - 1], dm)
  }

  /** Whether the parent domain called `parentName` binds the child-local name `x`. */
  predicate Binds(dm: Dict<string, string>, parentName: string, x: string)
  {
    var targets := LocalNamesFor(dm, parentName);
    if targets != [] then x in targets else x == parentName
  }

  /** The domain of the last parent entry that binds `x` (later bindings overwrite earlier ones). */
  function LastBinding(parent: Dict<string, Domain>, dm: Dict<string, string>, x: string): Option<Domain>
  {
    if parent == [] then None
    else if Binds(dm, parent[|parent| - 1].0, x) then Some(parent[|parent| - 1].1)
    else LastBinding(parent[..|parent| - 1], dm, x)
  }

  /** The child's table binds each name to the domain of the last parent entry that binds it. */
  lemma {:induction false} ChildTableIsLastBinding(parent: Dict<string, Domain>, dm: Dict<string, string>, x: string)
    ensures Get(ChildTable(parent, dm), x) == LastBinding(parent, dm, x)
  {
    if parent != [] {
      ChildTableIsLastBinding(parent[..|parent| - 1], dm, x);
    }
  }

  /** When exactly one parent entry binds `x`, the child gets that entry's domain. */
  lemma {:induction false} LastBindingOfSoleBinder(parent: Dict<string, Domain>, dm: Dict<string, string>, x: string, i: nat)
    requires i < |parent| && Binds(dm, parent[i].0, x)
    requires forall j :: 0 <= j < |parent| && j != i ==> !Binds(dm, parent[j].0, x)
    ensures LastBinding(parent, dm, x) == Some(parent[i].1)
  {
    if i < |parent| - 1 {
      var p := parent[..|parent| - 1];
      assert forall j :: 0 <= j < |p| ==> p[j] == parent[j];
      LastBindingOfSoleBinder(p, dm, x, i);
    }
  }

  /** When no parent entry binds `x`, the child has no domain `x`. */
  lemma {:induction false} LastBindingOfNoBinder(parent: Dict<string, Domain>, dm: Dict<string, string>, x: string)
    requires forall j :: 0 <= j < |parent| ==> !Binds(dm, parent[j].0, x)
    ensures LastBinding(parent, dm, x) == None
  {
    if parent != [] {
      var p := parent[..|parent| - 1];
      assert forall j :: 0 <= j < |p| ==> p[j] == parent[j];
      LastBindingOfNoBinder(p, dm, x);
    }
  }

  /**
   * A child-local name that `domain_map` redirects to a parent domain gets
   * exactly that parent domain, unless the parent also has a domain of that very
   * name which passes through.
   */
  lemma RedirectedNameGetsParentDomain(parent: Dict<string, Domain>, dm: Dict<string, string>, x: string, target: string, d: Domain)
    requires DistinctKeys(parent) && DistinctKeys(dm)
    requires Get(dm, x) == Some(target) && Get(parent, target) == Some(d)
    requires !HasKey(parent, x) || LocalNamesFor(dm, x) != []
    ensures Get(ChildTable(parent, dm), x) == Some(d)
  {
    var i :| 0 <= i < |parent| && parent[i] == (target, d);
    assert x in LocalNamesFor(dm, target);
    forall k | 0 <= k < |dm| && dm[k].0 == x ensures dm[k].1 == target {
      GetOfEntry(dm, k);
    }
    forall j | 0 <= j < |parent| && j != i ensures !Binds(dm, parent[j].0, x) {
      GetOfEntry(parent, j);
      GetOfEntry(parent, i);
    }
    LastBindingOfSoleBinder(parent, dm, x, i);
    ChildTableIsLastBinding(parent, dm, x);
  }

  /** A parent domain that `domain_map` redirects to is not also passed under its own name (unless that name is itself mapped). */
  lemma RedirectTargetIsNotPassedThrough(parent: Dict<string, Domain>, dm: Dict<string, string>, n: string)
    requires LocalNamesFor(dm, n) != [] && !HasKey(dm, n)
    ensures !HasKey(ChildTable(parent, dm), n)
  {
    forall j | 0 <= j < |parent| ensures !Binds(dm, parent[j].0, n) {
      assert forall k :: 0 <= k < |dm| ==> dm[k].0 != n;
    }
    LastBindingOfNoBinder(parent, dm, n);
    ChildTableIsLastBinding(parent, dm, n);
  }

  /** A parent domain nothing is redirected to, and whose name is not mapped, passes through unchanged. */
  lemma UnmappedDomainPassesThrough(parent: Dict<string, Domain>, dm: Dict<string, string>, n: string, d: Domain)
    requires DistinctKeys(parent) && Get(parent, n) == Some(d)
    requires LocalNamesFor(dm, n) == [] && !HasKey(dm, n)
    ensures Get(ChildTable(parent, dm), n) == Some(d)
  {
    var i :| 0 <= i < |parent| && parent[i] == (n, d);
    forall j | 0 <= j < |parent| && j != i ensures !Binds(dm, parent[j].0, n) {
      assert forall k :: 0 <= k < |dm| ==> dm[k].0 != n;
    }
    LastBindingOfSoleBinder(parent, dm, n, i);
    ChildTableIsLastBinding(parent, dm, n);
  }

  /** Without a `domain_map` the child receives every parent domain under its own name. */
  lemma {:induction false} EmptyMapCopiesTable(parent: Dict<string, Domain>)
    requires DistinctKeys(parent)
    ensures ChildTable(parent, []) == parent
  {
    if parent != [] {
      var p := parent[..|parent| - 1];
      EmptyMapCopiesTable(p);
      assert !HasKey(p, parent[|parent| - 1].0);
      assert parent == p + [parent[|parent| - 1]];
    }
  }

  /** `domain_map_inverse`: the loop over `domain_map` that groups child names by parent name. */
  method InvertDomainMap(dm: Dict<string, string>) returns (inverse: map<string, seq<string>>)
    ensures forall n :: n in inverse <==> LocalNamesFor(dm, n) != []
    ensures forall n :: n in inverse ==> inverse[n] == LocalNamesFor(dm, n)
  {
    inverse := map[];
    for j := 0 to |dm|
      invariant forall n :: n in inverse <==> LocalNamesFor(dm[..j], n) != []
      invariant forall n :: n in inverse ==> inverse[n] == LocalNamesFor(dm[..j], n)
    {
      assert dm[..j + 1][..j] == dm[..j];
      var (local, parentName) := dm[j];
      var names := if parentName in inverse then inverse[parentName] else [];
      inverse := inverse[parentName := names + [local]];
    }
    assert dm[..|dm|] == dm;
  }

  /** The inner loop of `add_submodule`: bind every child name in `targets` to `domain`. */
  method BindTargets(out: Dict<string, Domain>, targets: seq<string>, domain: Domain) returns (r: Dict<string, Domain>)
    ensures r == PutAll(out, targets, domain)
  {
    r := out;
    for k := 0 to |targets|
      invariant r == PutAll(out, targets[..k], domain)
    {
      assert targets[..k + 1][..k] == targets[..k];
      r := Put(r, targets[k], domain);
    }
    assert targets[..|targets|] == targets;
  }

  /**
   * `domains_for_submodule` as `add_submodule` builds it: invert `domain_map`,
   * then walk the parent's domains in order.
   */
  method ChildDomains(parent: Dict<string, Domain>, dm: Dict<string, string>) returns (r: Dict<string, Domain>)
    ensures r == ChildTable(parent, dm)
  {
    var inverse := InvertDomainMap(dm);
    r := [];
    for i := 0 to |parent|
      invariant r == ChildTable(parent[..i], dm)
    {
      assert parent[..i + 1][..i] == parent[..i];
      assert ChildTable(parent[..i + 1], dm) == BindParentDomain(r, parent[i], dm);
      var (name, domain) := parent[i];
      if name in inverse {
        r := BindTargets(r, inverse[name], domain);
      } else {
        r := Put(r, name, domain);
      }
    }
    assert parent[..|parent|] == parent;
  }

  /** `{ name: domain.name for name, domain in context.domains.items() }`, the rename map for a backend-native child. */
  function RenameMap(table: Dict<string, Domain>): (r: Dict<string, string>)
    ensures |r| == |table|
    ensures forall x :: Get(r, x) == match Get(table, x) case None => None case Some(d) => Some(d.name)
  {
    if table == [] then []
    else
      var r := [(table[0].0, table[0].1.name)] + RenameMap(table[1..]);
      assert forall i :: 1 <= i < |table| ==> table[i] == table[1..][i - 1] && r[i] == RenameMap(table[1..])[i - 1];
      r
  }

  // ---------------------------------------------------------------- DomainMapper

  /** The argument of `DomainMapper(...)`: one name (meaning `sync`'s target), or a whole map. */
  datatype MapperArg = SingleName(target: string) | Mapping(m: Dict<string, string>)

  /** `DomainMapper.__init__`: a single name `s` stands for `{"sync": s}`. */
  function MapperTable(arg: MapperArg): (r: Dict<string, string>)
    ensures arg.SingleName? ==> Get(r, "sync") == Some(arg.target) && |r| == 1
    ensures arg.Mapping? ==> r == arg.m
  {
    match arg
    case SingleName(s) => [("sync", s)]
    case Mapping(m) => m
  }

  /** `dict.update(other)` */
  function UpdateAll<V>(d: Dict<string, V>, other: Dict<string, V>): (r: Dict<string, V>)
    ensures forall x :: !HasKey(other, x) ==> Get(r, x) == Get(d, x)
    ensures DistinctKeys(other) ==> forall x :: HasKey(other, x) ==> Get(r, x) == Get(other, x)
    ensures DistinctKeys(d) ==> DistinctKeys(r)
  {
    if other == [] then d
    else
      var last := other[|other| - 1];
      var front := other[..|other| - 1];
      assert other == front + [last];
      AppendEntry(front, last);
      Put(UpdateAll(d, front), last.0, last.1)
  }

  /** `DomainMapper(arg)(element)`: merge the mapping into the element's `domain_map`. */
  function ApplyDomainMapper(arg: MapperArg, e: Element): (r: Element)
    ensures r == e.(domainMap := r.domainMap)
    ensures forall x :: !HasKey(MapperTable(arg), x) ==> Get(r.domainMap, x) == Get(e.domainMap, x)
    ensures DistinctKeys(MapperTable(arg)) ==>
              forall x :: HasKey(MapperTable(arg), x) ==> Get(r.domainMap, x) == Get(MapperTable(arg), x)
  {
    e.(domainMap := UpdateAll(e.domainMap, MapperTable(arg)))
  }

  // ---------------------------------------------------------------- signals

  /**
   * `ClockSignal(name)`: the clock of the domain `name` in the current context's
   * table; the domain stands for its clock signal.
   */
  function ClockSignal(name: string, table: Dict<string, Domain>, constructing: bool): (r: Result<Domain, Error>)
    ensures constructing ==> r == Failure(SignalInConstructor)
    ensures !constructing && !HasKey(table, name) ==> r == Failure(UnknownDomain(name))
    ensures r.Success? <==> !constructing && HasKey(table, name)
    ensures r.Success? ==> Get(table, name) == Some(r.value)
  {
    if constructing then Failure(SignalInConstructor)
    else match Get(table, name)
      case Some(d) => Success(d)
      case None => Failure(UnknownDomain(name))
  }

  /** `ResetSignal(name)`: as `ClockSignal`, and a reset-less domain has no reset to give. */
  function ResetSignal(name: string, table: Dict<string, Domain>, constructing: bool): (r: Result<Domain, Error>)
    ensures constructing ==> r == Failure(SignalInConstructor)
    ensures !constructing && !HasKey(table, name) ==> r == Failure(UnknownDomain(name))
    ensures !constructing && HasKey(table, name) && Get(table, name).value.resetLess ==> r == Failure(ResetlessDomain(name))
    ensures r.Success? <==> !constructing && HasKey(table, name) && !Get(table, name).value.resetLess
    ensures r.Success? ==> Get(table, name) == Some(r.value)
  {
    if constructing then Failure(SignalInConstructor)
    else match Get(table, name)
      case Some(d) => if d.resetLess then Failure(ResetlessDomain(name)) else Success(d)
      case None => Failure(UnknownDomain(name))
  }

  // ---------------------------------------------------------------- drivers

  /** What a driving-domain entry becomes: `None` stays, a logical name becomes its domain's physical name. */
  function ResolvedDriver(driver: Option<string>, table: Dict<string, Domain>): Option<string>
    requires driver.Some? ==> HasKey(table, driver.value)
  {
    match driver
    case None => None
    case Some(n) => Some(Get(table, n).value.name)
  }

  predicate Resolvable(entry: (SignalId, Option<string>), table: Dict<string, Domain>)
  {
    entry.1.Some? ==> HasKey(table, entry.1.value)
  }

  /**
   * The translation of `module._driving` from the names used inside the module
   * to the names of the actual domains; the first entry (in dict order) naming an
   * unknown domain raises.
   */
  function ResolveDrivers(driving: Dict<SignalId, Option<string>>, table: Dict<string, Domain>, path: string)
    : (r: Result<Dict<SignalId, Option<string>>, Error>)
    ensures r.Success? <==> forall i :: 0 <= i < |driving| ==> Resolvable(driving[i], table)
    ensures r.Success? ==> |r.value| == |driving|
    ensures r.Success? ==> forall i :: 0 <= i < |driving| ==>
              r.value[i] == (driving[i].0, ResolvedDriver(driving[i].1, table))
    ensures r.Failure? ==>
              exists i :: 0 <= i < |driving| && !Resolvable(driving[i], table)
                && (forall j :: 0 <= j < i ==> Resolvable(driving[j], table))
                && r.error == UnknownDriver(driving[i].0, driving[i].1.value, path)
  {
    if driving == [] then Success([])
    else if !Resolvable(driving[0], table) then Failure(UnknownDriver(driving[0].0, driving[0].1.value, path))
    else
      assert forall i :: 1 <= i < |driving| ==> driving[i] == driving[1..][i - 1];
      match ResolveDrivers(driving[1..], table, path)
      case Failure(e) =>
        ghost var k :| 0 <= k < |driving[1..]| && !Resolvable(driving[1..][k], table)
              && (forall j :: 0 <= j < k ==> Resolvable(driving[1..][j], table))
              && e == UnknownDriver(driving[1..][k].0, driving[1..][k].1.value, path);
        assert forall j :: 0 <= j < k + 1 ==> Resolvable(driving[j], table);
        Failure(e)
      case Success(rest) => Success([(driving[0].0, ResolvedDriver(driving[0].1, table))] + rest)
  }
}

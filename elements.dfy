/**
 * Elements (amigen.py:182-218) and the backend objects the engine handles,
 * abstracted to plain data. An element's `create` and `finalize` methods are
 * user code; here each is the script of engine-visible actions it performs.
 */
module Elements {
  import opened Wrappers
  import opened Dicts
  import opened Keys
  import opened Contexts

  /** A hook function registered with `with_context` or `add_class_context_hook`. */
  type HookId = nat

  /** A backend signal. */
  type SignalId = nat

  /** A backend clock domain: its (physical) name, and whether it has no reset signal. */
  datatype Domain = Domain(name: string, resetLess: bool)

  /** The value given to `m.domains += ...`: a `ClockDomain`, or some other object with a `name`. */
  datatype DomainArg = ClockDomain(name: string, resetLess: bool) | NotAClockDomain(name: string)

  /**
   * A value stored in `m.submodules`. `hashable` says whether Python can hash
   * the object (a list or a backend `Value` cannot); elements always can.
   */
  datatype Child =
    | ElementChild(e: Element)
    /** A backend-native module: it has `elaborate`, or is a `Fragment`. */
    | Raw(oid: ObjId, cls: string, hashable: bool)
    /** Anything else. */
    | Unsupported(oid: ObjId, cls: string, hashable: bool)

  /** What the body of `create` or `finalize` does that the engine can observe. */
  datatype Action =
    /** `m.domains += arg` */
    | AddDomain(arg: DomainArg)
    /** `m.domains.<attr> = arg` */
    | SetDomain(attr: string, arg: DomainArg)
    /** `m.d.<domain> += signal.eq(...)`; `None` is `m.d.comb` */
    | Drive(signal: SignalId, driver: Option<string>)
    /** `m.submodules += child` */
    | AddSubmodule(child: Child)
    /** `m.submodules.<slot> = child` or `m.submodules[slot] = child` */
    | SetSubmodule(slot: string, child: Child)
    /** `GlobalElaborationContext.with_context(hook)` */
    | WithContext(hook: HookId)
    /** `ClockSignal(domain)` */
    | ReadClock(domain: string)
    /** `ResetSignal(domain)` */
    | ReadReset(domain: string)

  /**
   * An element object: identity, class name, `name`, `key`, `domain_map`, and
   * the scripts of its `create` and `finalize` methods.
   */
  datatype Element = Element(
    oid: ObjId,
    cls: string,
    name: Option<string>,
    key: Option<Key>,
    domainMap: Dict<string, string>,
    create: seq<Action>,
    finalize: seq<Action>)

  /** The errors the engine raises. */
  datatype Error =
    /** ValueError: a submodule slot is taken */
    | DuplicateSubmodule(name: string)
    /** ValueError: slot name and element name disagree */
    | SubmoduleNameMismatch(slot: string, elementName: string)
    /** TypeError: `m.domains +=` of something that is not a `ClockDomain` */
    | NotAClockDomainError
    /** NameError: the domain name is already declared */
    | DomainExists(name: string)
    /** NameError: `m.domains.<attr> = d` with `d.name != attr` */
    | DomainNameMismatch(attr: string, name: string)
    /** AssertionError: `ClockSignal`/`ResetSignal` inside an element constructor */
    | SignalInConstructor
    /** ValueError: `ClockSignal`/`ResetSignal` of a domain not in the table */
    | UnknownDomain(name: string)
    /** ValueError: `ResetSignal` of a reset-less domain */
    | ResetlessDomain(name: string)
    /** ValueError: a statement driven by a domain not in the table */
    | UnknownDriver(signal: SignalId, name: string, path: string)
    /** ValueError: a submodule that is neither an element nor a backend module */
    | UnsupportedSubmodule(name: string)
    /** TypeError: `done_submodules` hashes a child whose class is unhashable */
    | UnhashableSubmodule(cls: string)
    /** SyntaxError from the backend: a signal driven from two different domains */
    | DriverConflict(signal: SignalId, current: Option<string>, attempted: Option<string>)
    /** whatever an element constructor body raised */
    | ConstructorRaised(oid: ObjId)

  /** `value.__class__.__name__` */
  function ClassName(c: Child): string
  {
    match c
    case ElementChild(e) => e.cls
    case Raw(_, cls, _) => cls
    case Unsupported(_, cls, _) => cls
  }

  /** The object identity of a stored child. */
  function ChildId(c: Child): ObjId
  {
    match c
    case ElementChild(e) => e.oid
    case Raw(oid, _, _) => oid
    case Unsupported(oid, _, _) => oid
  }

  /** Whether `hash(c)` succeeds. */
  predicate Hashable(c: Child)
  {
    match c
    case ElementChild(_) => true
    case Raw(_, _, h) => h
    case Unsupported(_, _, h) => h
  }

  /** What a context frame records of a named element. */
  function Info(e: Element): ElemInfo
    requires e.name.Some?
  {
    ElemInfo(e.oid, e.cls, e.name.value, e.key)
  }

  /** The child an action stores in `m.submodules`, if any. */
  function StoredChild(a: Action): Option<Child>
  {
    match a
    case AddSubmodule(c) => Some(c)
    case SetSubmodule(_, c) => Some(c)
    case _ => None
  }

  /** The child `c` is stored by one of the actions. */
  ghost predicate Mentions(acts: seq<Action>, c: Child)
  {
    exists i :: 0 <= i < |acts| && StoredChild(acts[i]) == Some(c)
  }

  /** Whether a script declares any clock domain. */
  predicate DeclaresDomain(acts: seq<Action>)
  {
    exists i :: 0 <= i < |acts| && (acts[i].AddDomain? || acts[i].SetDomain?)
  }

  /** A termination measure for the tree walk: the number of elements in the tree. */
  function Size(e: Element): nat
  {
    1 + ActionsSize(e.create) + ActionsSize(e.finalize)
  }

  function ActionsSize(acts: seq<Action>): nat
  {
    if acts == [] then 0 else ActionSize(acts[0]) + ActionsSize(acts[1..])
  }

  function ActionSize(a: Action): nat
  {
    match a
    case AddSubmodule(c) => ChildSize(c)
    case SetSubmodule(_, c) => ChildSize(c)
    case _ => 0
  }

  function ChildSize(c: Child): nat
  {
    match c
    case ElementChild(e) => Size(e)
    case _ => 0
  }

  lemma {:induction false} ActionSizeWithin(acts: seq<Action>, i: nat)
    requires i < |acts|
    ensures ActionSize(acts[i]) <= ActionsSize(acts)
  {
    if i > 0 {
      ActionSizeWithin(acts[1..], i - 1);
    }
  }

  /** An element stored by one of `e`'s scripts is a smaller tree than `e`. */
  lemma StoredElementIsSmaller(e: Element, c: Element)
    requires Mentions(e.create, ElementChild(c)) || Mentions(e.finalize, ElementChild(c))
    ensures Size(c) < Size(e)
  {
    if Mentions(e.create, ElementChild(c)) {
      var i :| 0 <= i < |e.create| && StoredChild(e.create[i]) == Some(ElementChild(c));
      ActionSizeWithin(e.create, i);
    } else {
      var i :| 0 <= i < |e.finalize| && StoredChild(e.finalize[i]) == Some(ElementChild(c));
      ActionSizeWithin(e.finalize, i);
    }
  }

  /** A child stored by one of `e`'s scripts that is an element is a smaller tree than `e`. */
  lemma StoredChildIsSmaller(e: Element, c: Child)
    requires Mentions(e.create, c) || Mentions(e.finalize, c)
    ensures c.ElementChild? ==> Size(c.e) < Size(e)
  {
    if c.ElementChild? {
      StoredElementIsSmaller(e, c.e);
    }
  }
}

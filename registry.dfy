/**
 * `SubmoduleBuilder` (amigen.py:68-103): the ordered name-to-child table behind
 * `m.submodules`, which rejects taken names and names that disagree with the
 * element's own, and numbers anonymous children `Cls#0`, `Cls#1`, ...
 */
module Registry {
  import opened Wrappers
  import opened Dicts
  import opened Elements

  /** `str(n)` */
  function DecimalString(n: nat): (r: string)
    ensures |r| >= 1
    ensures n < 10 <==> |r| == 1
  {
    if n < 10 then [(48 + n) as char] else DecimalString(n / 10) + [(48 + n % 10) as char]
  }

  /** Distinct numbers print differently. */
  lemma {:induction false} DecimalStringInjective(a: nat, b: nat)
    requires DecimalString(a) == DecimalString(b)
    ensures a == b
  {
    var s := DecimalString(a);
    if a >= 10 {
      assert b >= 10;
      var sa := DecimalString(a / 10);
      var sb := DecimalString(b / 10);
      assert s == sa + [(48 + a % 10) as char];
      assert s == sb + [(48 + b % 10) as char];
      assert s[..|s| - 1] == sa && s[..|s| - 1] == sb;
      DecimalStringInjective(a / 10, b / 10);
      assert s[|s| - 1] == (48 + a % 10) as char == (48 + b % 10) as char;
    } else {
      assert b < 10;
      assert s[0] == (48 + a) as char == (48 + b) as char;
    }
  }

  /** `f"{cls_name}#{num}"` */
  function AutoName(cls: string, num: nat): string
  {
    cls + "#" + DecimalString(num)
  }

  /** Distinct numbers give distinct names for one class. */
  lemma AutoNameInjective(cls: string, a: nat, b: nat)
    requires AutoName(cls, a) == AutoName(cls, b)
    ensures a == b
  {
    var p := cls + "#";
    assert AutoName(cls, a)[|p|..] == DecimalString(a);
    assert AutoName(cls, b)[|p|..] == DecimalString(b);
    DecimalStringInjective(a, b);
  }

  ghost function KeySet(d: Dict<string, Child>): set<string>
  {
    set i | 0 <= i < |d| :: d[i].0
  }

  /**
   * The numbering loop of `__iadd__`: try `cls#0`, `cls#1`, ... and stop at the
   * first name not in the table.
   */
  method FirstFreeName(storage: Dict<string, Child>, cls: string) returns (name: string, num: nat)
    ensures name == AutoName(cls, num) && !HasKey(storage, name)
    ensures forall k :: 0 <= k < num ==> HasKey(storage, AutoName(cls, k))
    ensures name == AnonSlot(storage, cls)
  {
    num := 0;
    ghost var seen: set<string> := {};
    while HasKey(storage, AutoName(cls, num))
      invariant forall k :: 0 <= k < num ==> HasKey(storage, AutoName(cls, k))
      invariant forall x :: x in seen <==> exists k :: 0 <= k < num && x == AutoName(cls, k)
      invariant seen <= KeySet(storage)
      decreases KeySet(storage) - seen
    {
      var x := AutoName(cls, num);
      if x in seen {
        var k :| 0 <= k < num && x == AutoName(cls, k);
        AutoNameInjective(cls, k, num);
        assert false;
      }
      assert x in KeySet(storage);
      seen := seen + {x};
      num := num + 1;
    }
    name := AutoName(cls, num);
    SmallestFreeIsUnique(storage, cls, num, FreeNumFrom(storage, cls, 0));
  }

  /** The names `cls#0` ... `cls#(n-1)`. */
  ghost function Taken(cls: string, n: nat): set<string>
  {
    set k | 0 <= k < n :: AutoName(cls, k)
  }

  lemma TakenGrows(d: Dict<string, Child>, cls: string, n: nat)
    requires HasKey(d, AutoName(cls, n))
    ensures KeySet(d) - Taken(cls, n + 1) < KeySet(d) - Taken(cls, n)
  {
    var x := AutoName(cls, n);
    var i :| 0 <= i < |d| && d[i].0 == x;
    assert x in KeySet(d);
    if x in Taken(cls, n) {
      var k :| 0 <= k < n && x == AutoName(cls, k);
      AutoNameInjective(cls, k, n);
      assert false;
    }
    assert Taken(cls, n + 1) == Taken(cls, n) + {x};
  }

  /** The number the loop of `__iadd__` stops at when it starts from `n`. */
  ghost function FreeNumFrom(d: Dict<string, Child>, cls: string, n: nat): (r: nat)
    requires forall k :: 0 <= k < n ==> HasKey(d, AutoName(cls, k))
    ensures !HasKey(d, AutoName(cls, r))
    ensures forall k :: 0 <= k < r ==> HasKey(d, AutoName(cls, k))
    decreases KeySet(d) - Taken(cls, n)
  {
    if !HasKey(d, AutoName(cls, n)) then n
    else
      TakenGrows(d, cls, n);
      FreeNumFrom(d, cls, n + 1)
  }

  /** The slot an anonymous child of class `cls` takes: `cls#n` for the smallest `n` not in use. */
  ghost function AnonSlot(d: Dict<string, Child>, cls: string): string
  {
    AutoName(cls, FreeNumFrom(d, cls, 0))
  }

  /** Only one number is the smallest free one. */
  lemma SmallestFreeIsUnique(d: Dict<string, Child>, cls: string, a: nat, b: nat)
    requires !HasKey(d, AutoName(cls, a)) && forall k :: 0 <= k < a ==> HasKey(d, AutoName(cls, k))
    requires !HasKey(d, AutoName(cls, b)) && forall k :: 0 <= k < b ==> HasKey(d, AutoName(cls, k))
    ensures a == b
  {
  }

  /** A stored element that has a name must be stored under that name. */
  predicate NameDisagrees(slot: string, value: Child)
  {
    value.ElementChild? && value.e.name.Some? && value.e.name.value != slot
  }

  /** The outcome of `__setattr__` on table `d`: the new table, or the error it raises. */
  function SetChild(d: Dict<string, Child>, name: string, value: Child): Result<Dict<string, Child>, Error>
  {
    if HasKey(d, name) then Failure(DuplicateSubmodule(name))
    else if NameDisagrees(name, value) then Failure(SubmoduleNameMismatch(name, value.e.name.value))
    else Success(d + [(name, value)])
  }

  /** The outcome of `__iadd__` on table `d`. */
  ghost function AddChild(d: Dict<string, Child>, value: Child): Result<Dict<string, Child>, Error>
  {
    if value.ElementChild? && value.e.name.Some? then SetChild(d, value.e.name.value, value)
    else Success(d + [(AnonSlot(d, ClassName(value)), value)])
  }

  class SubmoduleBuilder {
    /** `_storage`, in insertion order */
    var storage: Dict<string, Child>

    /** Every name is taken once and agrees with the name of the element stored under it. */
    ghost predicate Valid()
      reads this
    {
      DistinctKeys(storage) && forall i :: 0 <= i < |storage| ==> !NameDisagrees(storage[i].0, storage[i].1)
    }

    constructor ()
      ensures Valid() && storage == []
    {
      storage := [];
    }

    /** `__setattr__` (and `__setitem__`, which calls it): store `value` under `name`. */
    method Set(name: string, value: Child) returns (err: Option<Error>)
      requires Valid()
      modifies this
      ensures Valid()
      ensures HasKey(old(storage), name) ==> err == Some(DuplicateSubmodule(name)) && storage == old(storage)
      ensures !HasKey(old(storage), name) && NameDisagrees(name, value) ==>
                err == Some(SubmoduleNameMismatch(name, value.e.name.value)) && storage == old(storage)
      ensures !HasKey(old(storage), name) && !NameDisagrees(name, value) ==>
                err == None && storage == old(storage) + [(name, value)]
      ensures SetChild(old(storage), name, value) == if err.None? then Success(storage) else Failure(err.value)
    {
      if HasKey(storage, name) {
        err := Some(DuplicateSubmodule(name));
      } else if NameDisagrees(name, value) {
        err := Some(SubmoduleNameMismatch(name, value.e.name.value));
      } else {
        storage := Put(storage, name, value);
        err := None;
      }
    }

    /**
     * `__iadd__`: a named element goes under its own name (through `Set`),
     * anything else under the first free `Cls#n`.
     */
    method Add(value: Child) returns (err: Option<Error>)
      requires Valid()
      modifies this
      ensures Valid()
      ensures value.ElementChild? && value.e.name.Some? ==>
                var name := value.e.name.value;
                if HasKey(old(storage), name) then err == Some(DuplicateSubmodule(name)) && storage == old(storage)
                else err == None && storage == old(storage) + [(name, value)]
      ensures !(value.ElementChild? && value.e.name.Some?) ==>
                err == None && storage == old(storage) + [(AnonSlot(old(storage), ClassName(value)), value)]
      ensures AddChild(old(storage), value) == if err.None? then Success(storage) else Failure(err.value)
    {
      if value.ElementChild? && value.e.name.Some? {
        err := Set(value.e.name.value, value);
      } else {
        var name, num := FirstFreeName(storage, ClassName(value));
        storage := Put(storage, name, value);
        err := None;
      }
    }

    /** `__getattr__` / `__getitem__`; `None` where Python raises `KeyError`. */
    function Get(name: string): (r: Option<Child>)
      reads this
      ensures r.Some? <==> HasKey(storage, name)
    {
      Dicts.Get(storage, name)
    }
  }

  /**
   * Two anonymous children of one class, added to an empty table, are stored as
   * `A#0` and then `A#1`, in that order.
   */
  method TwoAnonymousChildren(first: Child, second: Child) returns (names: seq<string>)
    requires ClassName(first) == "A" && ClassName(second) == "A"
    requires !(first.ElementChild? && first.e.name.Some?) && !(second.ElementChild? && second.e.name.Some?)
    ensures names == ["A#0", "A#1"]
  {
    var b := new SubmoduleBuilder();
    var e1 := b.Add(first);
    var s0: Dict<string, Child> := [];
    assert AutoName("A", 0) == "A#0";
    SmallestFreeIsUnique(s0, "A", 0, FreeNumFrom(s0, "A", 0));
    var s1 := b.storage;
    assert s1 == [("A#0", first)];
    var e2 := b.Add(second);
    assert AutoName("A", 1) == "A#1";
    assert s1[0].0 == AutoName("A", 0);
    assert HasKey(s1, AutoName("A", 0));
    assert !HasKey(s1, AutoName("A", 1));
    SmallestFreeIsUnique(s1, "A", 1, FreeNumFrom(s1, "A", 0));
    names := [b.storage[0].0, b.storage[1].0];
  }
}

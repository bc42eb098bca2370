/**
 * Identity keys (amigen.py:49-63, a.py:9-23): a key tags an element so that a
 * descendant can find that very element again, whatever its class or position.
 */
module Keys {
  import opened Wrappers

  /** The `value` a key wraps: an arbitrary Python object, here an int or a str. */
  datatype KeyValue = Num(n: int) | Text(s: string)

  datatype Key = Key(value: KeyValue)

  /**
   * `Key.__eq__(self, other)`. `other` is `None` when the compared object is not
   * a `Key` at all (None, a signal, ...): the comparison is then false.
   */
  function KeyEquals(self: Key, other: Option<Key>): (r: bool)
    ensures r <==> other.Some? && other.value.value == self.value
  {
    match other
    case None => false
    case Some(o) => o.value == self.value
  }

  /**
   * `element.key == key` for an element whose key may be unset (`None`) and a
   * key argument that may be `None`. `None == Key` falls back to the reflected
   * `Key.__eq__`, which is false; `Key == x` is `KeyEquals`.
   */
  function ElementKeyEquals(elementKey: Option<Key>, key: Option<Key>): bool
  {
    match elementKey
    case None => key.None? || KeyEquals(key.value, None)
    case Some(k) => KeyEquals(k, key)
  }

  /** Python's key comparison is plain equality of optional keys. */
  lemma ElementKeyEqualsIsEquality(elementKey: Option<Key>, key: Option<Key>)
    ensures ElementKeyEquals(elementKey, key) <==> elementKey == key
  {
  }

  /** The key `GlobalKey()` makes when the class counter stands at `n`. */
  function GlobalKeyAt(n: nat): (k: Key)
    ensures k.value.Num? && k.value.n == n
  {
    Key(Num(n))
  }

  /** `GlobalKey.__counter`, the class-level counter shared by every `GlobalKey()` call. */
  class GlobalKeyCounter {
    var counter: nat
    /** Every key handed out so far. */
    ghost var issued: set<Key>

    ghost predicate Valid()
      reads this
    {
      forall k :: k in issued ==> k.value.Num? && 0 <= k.value.n < counter
    }

    constructor ()
      ensures Valid() && counter == 0 && issued == {}
    {
      counter := 0;
      issued := {};
    }

    /** `GlobalKey()`: take the current counter value, then increment the counter. */
    method NewGlobalKey() returns (k: Key)
      requires Valid()
      modifies this
      ensures Valid()
      ensures k == GlobalKeyAt(old(counter)) && counter == old(counter) + 1
      ensures k !in old(issued) && issued == old(issued) + {k}
    {
      k := GlobalKeyAt(counter);
      counter := counter + 1;
      issued := issued + {k};
    }
  }

  /** The keys of `count` successive `GlobalKey()` calls starting at counter `start`. */
  function GlobalKeys(start: nat, count: nat): (ks: seq<Key>)
    ensures |ks| == count
    ensures forall i :: 0 <= i < count ==> ks[i] == GlobalKeyAt(start + i)
  {
    if count == 0 then [] else GlobalKeys(start, count - 1) + [GlobalKeyAt(start + count - 1)]
  }

  /** Any two `GlobalKey()`s compare unequal under `Key.__eq__`. */
  lemma {:induction false} GlobalKeysDistinct(start: nat, count: nat, i: nat, j: nat)
    requires i < j < count
    ensures !KeyEquals(GlobalKeys(start, count)[i], Some(GlobalKeys(start, count)[j]))
  {
    var ks := GlobalKeys(start, count);
    assert ks[i].value.n == start + i && ks[j].value.n == start + j;
  }
}

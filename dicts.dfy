/**
 * Python dictionaries as the engine uses them: entries kept in insertion order,
 * assignment to an existing key keeping that key's position.
 */
module Dicts {
  import opened Wrappers

  type Dict<K, V> = seq<(K, V)>

  /** No key occurs twice. */
  predicate DistinctKeys<K(==,!new), V>(d: Dict<K, V>)
  {
    forall i, j :: 0 <= i < j < |d| ==> d[i].0 != d[j].0
  }

  predicate HasKey<K(==,!new), V>(d: Dict<K, V>, k: K)
  {
    exists i :: 0 <= i < |d| && d[i].0 == k
  }

  /** `d.get(k)`: the value of the first entry with key `k`. */
  function Get<K(==,!new), V>(d: Dict<K, V>, k: K): (r: Option<V>)
    ensures r.Some? <==> HasKey(d, k)
    ensures r.Some? ==> exists i :: 0 <= i < |d| && d[i] == (k, r.value)
    ensures forall i :: 0 <= i < |d| && d[i].0 == k && (forall j :: 0 <= j < i ==> d[j].0 != k) ==> r == Some(d[i].1)
  {
    if d == [] then None
    else if d[0].0 == k then Some(d[0].1)
    else
      var r := Get(d[1..], k);
      assert forall i :: 1 <= i < |d| ==> d[i] == d[1..][i - 1];
      r
  }

  /** In a dictionary without repeated keys, every entry is what `Get` finds for its key. */
  lemma GetOfEntry<K(!new), V>(d: Dict<K, V>, i: nat)
    requires DistinctKeys(d) && i < |d|
    ensures Get(d, d[i].0) == Some(d[i].1)
  {
    assert forall j :: 0 <= j < i ==> d[j].0 != d[i].0;
  }

  /** `d[k] = v`: overwrite in place when `k` is present, append otherwise. */
  function Put<K(==,!new), V>(d: Dict<K, V>, k: K, v: V): (r: Dict<K, V>)
    ensures HasKey(d, k) ==> |r| == |d|
    ensures !HasKey(d, k) ==> r == d + [(k, v)]
    ensures forall i :: 0 <= i < |d| ==> r[i].0 == d[i].0
    ensures forall x :: Get(r, x) == if x == k then Some(v) else Get(d, x)
    ensures DistinctKeys(d) ==> DistinctKeys(r)
  {
    if d == [] then [(k, v)]
    else if d[0].0 == k then [(k, v)] + d[1..]
    else
      var rest := Put(d[1..], k, v);
      assert forall i :: 1 <= i < |d| ==> d[i] == d[1..][i - 1];
      assert HasKey(d, k) ==> HasKey(d[1..], k);
      [d[0]] + rest
  }

  /** The keys of a dictionary with one more entry at the end, and what `Get` finds in it. */
  lemma AppendEntry<K(!new), V>(front: Dict<K, V>, last: (K, V))
    ensures forall x :: HasKey(front + [last], x) <==> HasKey(front, x) || x == last.0
    ensures DistinctKeys(front + [last]) ==> DistinctKeys(front) && !HasKey(front, last.0)
    ensures forall x :: HasKey(front, x) ==> Get(front + [last], x) == Get(front, x)
  {
    var d := front + [last];
    assert forall i :: 0 <= i < |front| ==> d[i] == front[i];
    assert d[|front|] == last;
    forall x | HasKey(front, x) ensures Get(d, x) == Get(front, x) {
      GetAppend(front, last, x);
    }
  }

  /** An entry appended after key `x` does not change what `Get` finds for `x`. */
  lemma {:induction false} GetAppend<K(!new), V>(front: Dict<K, V>, last: (K, V), x: K)
    requires HasKey(front, x)
    ensures Get(front + [last], x) == Get(front, x)
  {
    if front[0].0 != x {
      assert (front + [last])[1..] == front[1..] + [last];
      var i :| 0 <= i < |front| && front[i].0 == x;
      assert front[1..][i - 1].0 == x;
      GetAppend(front[1..], last, x);
    }
  }
}

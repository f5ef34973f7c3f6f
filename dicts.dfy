/**
 * Python dicts as the modelled code uses them: insertion-ordered, one value
 * per key, `d[k] = v` overwriting in place and appending new keys at the end.
 */
module Dicts {
  import opened Wrappers

  type Dict<K, V> = seq<(K, V)>

  predicate UniqueKeys<K(==), V>(d: Dict<K, V>)
  {
    forall i, j :: 0 <= i < j < |d| ==> d[i].0 != d[j].0
  }

  /** Position of key `k`, or `|d|` when absent. */
  function IndexOfKey<K(==), V>(d: Dict<K, V>, k: K): (i: nat)
    ensures i <= |d|
    ensures i < |d| ==> d[i].0 == k
    ensures forall j :: 0 <= j < i ==> d[j].0 != k
    decreases |d|
  {
    if |d| == 0 then 0
    else if d[0].0 == k then 0
    else 1 + IndexOfKey(d[1..], k)
  }

  predicate HasKey<K(==), V>(d: Dict<K, V>, k: K)
  {
    IndexOfKey(d, k) < |d|
  }

  /** `d.get(k)`. */
  function Lookup<K(==), V>(d: Dict<K, V>, k: K): (r: Option<V>)
    ensures r.Some? <==> HasKey(d, k)
  {
    var i := IndexOfKey(d, k);
    if i < |d| then Some(d[i].1) else None
  }

  /** `d[k] = v`. */
  function Assign<K(==), V>(d: Dict<K, V>, k: K, v: V): (r: Dict<K, V>)
    ensures |r| == if HasKey(d, k) then |d| else |d| + 1
  {
    var i := IndexOfKey(d, k);
    if i < |d| then d[i := (k, v)] else d + [(k, v)]
  }

  lemma KeyAt<K, V>(d: Dict<K, V>, j: nat)
    requires UniqueKeys(d) && j < |d|
    ensures IndexOfKey(d, d[j].0) == j
  {
  }

  lemma {:induction false} AssignProps<K, V>(d: Dict<K, V>, k: K, v: V)
    requires UniqueKeys(d)
    ensures UniqueKeys(Assign(d, k, v))
    ensures Lookup(Assign(d, k, v), k) == Some(v)
    ensures forall k' :: k' != k ==> Lookup(Assign(d, k, v), k') == Lookup(d, k')
  {
    var r := Assign(d, k, v);
    var i := IndexOfKey(d, k);
    forall k' | k' != k ensures Lookup(r, k') == Lookup(d, k') {
      var j := IndexOfKey(d, k');
      if j < |d| {
        KeyAt(r, j);
      }
    }
    if i < |d| {
      KeyAt(r, i);
    }
  }

  /** A key is present exactly when some pair carries it. */
  lemma HasKeyIff<K, V>(d: Dict<K, V>, k: K)
    ensures HasKey(d, k) <==> exists j :: 0 <= j < |d| && d[j].0 == k
  {
    if exists j :: 0 <= j < |d| && d[j].0 == k {
      var j :| 0 <= j < |d| && d[j].0 == k;
      assert IndexOfKey(d, k) <= j;
    }
  }
}

/**
 * A Python dictionary as the sequence of its items in insertion order. Assigning to
 * an existing key replaces its value in place; assigning to a new key appends.
 */
module Dicts {
  import opened Wrappers

  predicate DistinctKeys<K(==), V>(items: seq<(K, V)>)
  {
    forall i, j :: 0 <= i < j < |items| ==> items[i].0 != items[j].0
  }

  /** Position of key `k`, if present. */
  function IndexOf<K(==), V>(items: seq<(K, V)>, k: K): (r: Option<nat>)
    ensures r.None? <==> forall i :: 0 <= i < |items| ==> items[i].0 != k
    ensures r.Some? ==> r.value < |items| && items[r.value].0 == k &&
                        forall i :: 0 <= i < r.value ==> items[i].0 != k
    decreases |items|
  {
    if |items| == 0 then None
    else if items[|items| - 1].0 == k && IndexOf(items[..|items| - 1], k).None? then Some(|items| - 1)
    else IndexOf(items[..|items| - 1], k)
  }

  /** `d.get(k)`. */
  function Get<K(==), V>(items: seq<(K, V)>, k: K): Option<V>
  {
    match IndexOf(items, k)
    case None => None
    case Some(i) => Some(items[i].1)
  }

  /** `d[k] = v`. */
  function Set<K(==), V>(items: seq<(K, V)>, k: K, v: V): seq<(K, V)>
  {
    match IndexOf(items, k)
    case None => items + [(k, v)]
    case Some(i) => items[i := (k, v)]
  }

  /**
   * After `d[k] = v`, `k` maps to `v`, every other key keeps its value, existing keys
   * keep their positions, and distinct keys stay distinct.
   */
  lemma SetProperties<K, V>(items: seq<(K, V)>, k: K, v: V)
    ensures Get(Set(items, k, v), k) == Some(v)
    ensures forall k' :: k' != k ==> Get(Set(items, k, v), k') == Get(items, k')
    ensures |Set(items, k, v)| == if Get(items, k).Some? then |items| else |items| + 1
    ensures forall i :: 0 <= i < |items| ==> Set(items, k, v)[i].0 == items[i].0
    ensures DistinctKeys(items) ==> DistinctKeys(Set(items, k, v))
  {
    var r := Set(items, k, v);
    match IndexOf(items, k)
    case None =>
      assert IndexOf(r, k) == Some(|items|);
      forall k' | k' != k ensures Get(r, k') == Get(items, k') {
        match IndexOf(items, k')
        case None =>
          assert IndexOf(r, k').None?;
        case Some(j) =>
          assert IndexOf(r, k') == Some(j);
      }
    case Some(i) =>
      assert r[i].0 == k && forall j :: 0 <= j < i ==> r[j].0 != k;
      assert IndexOf(r, k) == Some(i);
      forall k' | k' != k ensures Get(r, k') == Get(items, k') {
        match IndexOf(items, k')
        case None =>
          assert IndexOf(r, k').None?;
        case Some(j) =>
          assert r[j] == items[j];
          assert forall m :: 0 <= m < j ==> r[m].0 != k';
          assert IndexOf(r, k') == Some(j);
      }
  }

  /** A second assignment to the same key overwrites the first. */
  lemma SetTwice<K, V>(items: seq<(K, V)>, k: K, v: V, w: V)
    ensures Set(Set(items, k, v), k, w) == Set(items, k, w)
  {
    match IndexOf(items, k)
    case None =>
      var r := items + [(k, v)];
      assert r[..|items|] == items;
      assert IndexOf(r, k) == Some(|items|);
    case Some(i) =>
      var r := items[i := (k, v)];
      assert forall j :: 0 <= j < |items| ==> r[j].0 == items[j].0;
      assert IndexOf(r, k) == Some(i);
  }
}

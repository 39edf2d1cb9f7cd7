/**
 * A Python dict as the node code uses it: items in insertion order, and an
 * assignment d[k] = v that overwrites the value of an existing key in place
 * (last write wins, the key keeps its position) or appends a new item.
 * Used for a node's history and for the neighbour-state tables.
 */
module Dict {
  import opened Base

  type Dict<K, V> = seq<(K, V)>

  predicate DistinctKeys<K(==), V>(d: Dict<K, V>)
  {
    forall i, j :: 0 <= i < j < |d| ==> d[i].0 != d[j].0
  }

  /** d.keys(), in insertion order. */
  function Keys<K, V>(d: Dict<K, V>): (ks: seq<K>)
    ensures |ks| == |d| && forall i :: 0 <= i < |d| ==> ks[i] == d[i].0
  {
    seq(|d|, i requires 0 <= i < |d| => d[i].0)
  }

  lemma KeysAppend<K, V>(a: Dict<K, V>, b: Dict<K, V>)
    ensures Keys(a + b) == Keys(a) + Keys(b)
  {
    forall i | 0 <= i < |a + b|
      ensures Keys(a + b)[i] == (Keys(a) + Keys(b))[i]
    {
      if i < |a| {
        assert (a + b)[i] == a[i];
      } else {
        assert (a + b)[i] == b[i - |a|];
      }
    }
  }

  /** Dropping the first item drops the first key. */
  lemma KeysTail<K, V>(d: Dict<K, V>)
    requires |d| > 0
    ensures Keys(d) == [d[0].0] + Keys(d[1..])
  {
    assert d == [d[0]] + d[1..];
    KeysAppend([d[0]], d[1..]);
    assert Keys([d[0]]) == [d[0].0];
  }

  /** Dropping the first item keeps the keys distinct. */
  lemma DistinctTail<K, V>(d: Dict<K, V>)
    requires |d| > 0 && DistinctKeys(d)
    ensures DistinctKeys(d[1..])
  {
    forall i, j | 0 <= i < j < |d[1..]| ensures d[1..][i].0 != d[1..][j].0 {
      assert d[1..][i] == d[i + 1] && d[1..][j] == d[j + 1];
    }
  }

  /** d.values(), in insertion order. */
  function Values<K, V>(d: Dict<K, V>): (vs: seq<V>)
    ensures |vs| == |d| && forall i :: 0 <= i < |d| ==> vs[i] == d[i].1
  {
    seq(|d|, i requires 0 <= i < |d| => d[i].1)
  }

  /** The position of key k, the first one if the keys were not distinct. */
  function IndexOf<K(==), V>(d: Dict<K, V>, k: K): (r: Option<nat>)
    ensures r.Some? ==> r.value < |d| && d[r.value].0 == k
    ensures r.Some? ==> forall i :: 0 <= i < r.value ==> d[i].0 != k
    ensures r.None? ==> forall i :: 0 <= i < |d| ==> d[i].0 != k
  {
    if |d| == 0 then None
    else if d[0].0 == k then Some(0)
    else match IndexOf(d[1..], k)
      case None => None
      case Some(i) => Some(i + 1)
  }

  /** d.get(k): None when k is not a key. */
  function Get<K(==), V>(d: Dict<K, V>, k: K): (r: Option<V>)
    ensures r.Some? <==> k in Keys(d)
  {
    match IndexOf(d, k)
    case None => None
    case Some(i) => Some(d[i].1)
  }

  /** In a dict with distinct keys, the key at position i maps to the value there. */
  lemma {:induction false} GetAt<K, V>(d: Dict<K, V>, i: nat)
    requires DistinctKeys(d) && i < |d|
    ensures Get(d, d[i].0) == Some(d[i].1)
  {
    match IndexOf(d, d[i].0)
    case None =>
    case Some(j) =>
      assert j == i;
  }

  /** d[k] = v. */
  function Put<K(==,!new), V>(d: Dict<K, V>, k: K, v: V): (r: Dict<K, V>)
    ensures Get(r, k) == Some(v)
    ensures forall k' :: k' != k ==> Get(r, k') == Get(d, k')
    ensures Keys(r) == if k in Keys(d) then Keys(d) else Keys(d) + [k]
    ensures DistinctKeys(d) ==> DistinctKeys(r)
  {
    match IndexOf(d, k)
    case None =>
      var r := d + [(k, v)];
      assert forall k' :: k' != k ==> IndexOf(r, k') == IndexOf(d, k') by {
        forall k' | k' != k ensures IndexOf(r, k') == IndexOf(d, k') {
          IndexOfAppend(d, k, v, k');
        }
      }
      assert Keys(r) == Keys(d) + [k];
      r
    case Some(i) =>
      var r := d[i := (k, v)];
      assert forall k' :: k' != k ==> IndexOf(r, k') == IndexOf(d, k') by {
        forall k' | k' != k ensures IndexOf(r, k') == IndexOf(d, k') {
          IndexOfUpdate(d, i, k, v, k');
        }
      }
      assert Keys(r) == Keys(d);
      r
  }

  lemma {:induction false} IndexOfAppend<K, V>(d: Dict<K, V>, k: K, v: V, k': K)
    requires k' != k
    ensures IndexOf(d + [(k, v)], k') == IndexOf(d, k')
  {
    if |d| > 0 {
      assert (d + [(k, v)])[1..] == d[1..] + [(k, v)];
      IndexOfAppend(d[1..], k, v, k');
    }
  }

  lemma {:induction false} IndexOfUpdate<K, V>(d: Dict<K, V>, i: nat, k: K, v: V, k': K)
    requires i < |d| && d[i].0 == k && k' != k
    ensures IndexOf(d[i := (k, v)], k') == IndexOf(d, k')
  {
    if i > 0 {
      assert d[i := (k, v)][1..] == d[1..][i - 1 := (k, v)];
      IndexOfUpdate(d[1..], i - 1, k, v, k');
    }
  }

  /** Writing a key twice keeps only the later value: last write wins. */
  lemma {:induction false} PutPut<K(!new), V>(d: Dict<K, V>, k: K, v1: V, v2: V)
    ensures Put(Put(d, k, v1), k, v2) == Put(d, k, v2)
  {
    var d1 := Put(d, k, v1);
    match IndexOf(d, k)
    case None =>
      assert IndexOf(d1, k) == Some(|d|) by { IndexOfLastNew(d, k, v1); }
    case Some(i) =>
      assert IndexOf(d1, k) == Some(i) by { IndexOfSamePosition(d, i, k, v1); }
  }

  lemma {:induction false} IndexOfLastNew<K, V>(d: Dict<K, V>, k: K, v: V)
    requires forall i :: 0 <= i < |d| ==> d[i].0 != k
    ensures IndexOf(d + [(k, v)], k) == Some(|d|)
  {
    if |d| > 0 {
      assert (d + [(k, v)])[1..] == d[1..] + [(k, v)];
      IndexOfLastNew(d[1..], k, v);
    }
  }

  lemma {:induction false} IndexOfSamePosition<K, V>(d: Dict<K, V>, i: nat, k: K, v: V)
    requires IndexOf(d, k) == Some(i)
    ensures IndexOf(d[i := (k, v)], k) == Some(i)
  {
    if i > 0 {
      assert d[i := (k, v)][1..] == d[1..][i - 1 := (k, v)];
      IndexOfSamePosition(d[1..], i - 1, k, v);
    }
  }
}

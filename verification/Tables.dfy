/**
 A database table with one unique key. Rows are only ever appended or updated in place,
 so the position of a row serves as its primary key: it is fresh when the row is inserted
 and names the same row ever after.
 */
module Tables {
  import opened Wrappers

  datatype Row<+K, +V> = Row(key: K, val: V)

  /** The primary key of the row that carries `k`, as a select on the unique key finds it. */
  function Lookup<K(==), V>(t: seq<Row<K, V>>, k: K): (r: Option<nat>)
    ensures r.Some? ==> r.value < |t| && t[r.value].key == k && forall j :: 0 <= j < r.value ==> t[j].key != k
    ensures r.None? ==> forall j :: 0 <= j < |t| ==> t[j].key != k
  {
    if |t| == 0 then None
    else
      var last := |t| - 1;
      match Lookup(t[..last], k)
      case Some(i) => Some(i)
      case None => if t[last].key == k then Some(last) else None
  }

  lemma LookupAppend<K, V>(t: seq<Row<K, V>>, r: Row<K, V>, k: K)
    ensures Lookup(t + [r], k)
         == match Lookup(t, k) case Some(i) => Some(i) case None => if r.key == k then Some(|t|) else None
  {
    assert (t + [r])[..|t|] == t;
  }

  ghost predicate Unique<K, V>(t: seq<Row<K, V>>) {
    forall i, j :: 0 <= i < j < |t| ==> t[i].key != t[j].key
  }

  /** Every row of `a` is still there in `b`, under the same primary and unique key. */
  ghost predicate KeysKept<K, V>(a: seq<Row<K, V>>, b: seq<Row<K, V>>) {
    |a| <= |b| && forall i :: 0 <= i < |a| ==> a[i].key == b[i].key
  }

  lemma LookupKept<K, V>(a: seq<Row<K, V>>, b: seq<Row<K, V>>, k: K)
    requires KeysKept(a, b) && Lookup(a, k).Some?
    ensures Lookup(b, k) == Lookup(a, k)
  {
  }

  /** The sum of `w` over all rows. */
  function Sum<K, V>(t: seq<Row<K, V>>, w: Row<K, V> -> int): int {
    if |t| == 0 then 0 else Sum(t[..|t| - 1], w) + w(t[|t| - 1])
  }

  lemma SumAppend<K, V>(t: seq<Row<K, V>>, r: Row<K, V>, w: Row<K, V> -> int)
    ensures Sum(t + [r], w) == Sum(t, w) + w(r)
  {
    assert (t + [r])[..|t|] == t;
  }

  lemma {:induction false} SumUpdate<K, V>(t: seq<Row<K, V>>, i: nat, r: Row<K, V>, w: Row<K, V> -> int)
    requires i < |t|
    ensures Sum(t[i := r], w) == Sum(t, w) - w(t[i]) + w(r)
  {
    var last := |t| - 1;
    if i == last {
      assert t[i := r][..last] == t[..last];
    } else {
      assert t[i := r][..last] == t[..last][i := r];
      SumUpdate(t[..last], i, r, w);
    }
  }
}

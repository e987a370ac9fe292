/** The rows that one user has under one rule key, in any ledger keyed by user, event and rule. */
module LedgerRows {
  import opened Tables
  import opened PointTables

  /** Counts the rows of one user under one rule. */
  function Under<V>(u: User, rule: RuleKey): Row<LedgerKey, V> -> int {
    (r: Row<LedgerKey, V>) => if r.key.user == u && r.key.rule == rule then 1 else 0
  }

  function Plus<K, V>(t: seq<Row<K, V>>, add: bool, r: Row<K, V>): seq<Row<K, V>> {
    if add then t + [r] else t
  }

  lemma SumPlus<K, V>(t: seq<Row<K, V>>, add: bool, r: Row<K, V>, w: Row<K, V> -> int)
    ensures Sum(Plus(t, add, r), w) == Sum(t, w) + if add then w(r) else 0
  {
  }

  lemma {:induction false} NoneUnder<V>(t: seq<Row<LedgerKey, V>>, u: User, rule: RuleKey)
    ensures Sum(t, Under(u, rule)) >= 0
    ensures Sum(t, Under(u, rule)) == 0 <==> forall i :: 0 <= i < |t| ==> !(t[i].key.user == u && t[i].key.rule == rule)
  {
    if |t| > 0 {
      NoneUnder(t[..|t| - 1], u, rule);
    }
  }

  /** The later table is the earlier one, or that with one more row under the key. */
  ghost predicate Posts<V>(a: seq<Row<LedgerKey, V>>, b: seq<Row<LedgerKey, V>>, key: LedgerKey) {
    b == a || (|b| == |a| + 1 && b[..|a|] == a && b[|a|].key == key)
  }

  lemma PostsElsewhere<V>(a: seq<Row<LedgerKey, V>>, b: seq<Row<LedgerKey, V>>, key: LedgerKey, u: User, rule: RuleKey)
    requires Posts(a, b, key) && !(key.user == u && key.rule == rule)
    ensures Sum(b, Under(u, rule)) == Sum(a, Under(u, rule))
    ensures forall i :: 0 <= i < |b| && b[i].key.user == u && b[i].key.rule == rule ==> i < |a| && b[i] == a[i]
  {
  }
}

/** The point services over stored rows: each call is one transaction, rolled back when it fails. */
module PointService {
  import opened Wrappers
  import opened Tables
  import opened PointTables
  import Spec = PointLedger
  import opened PointInvariant

  datatype Drift = Drift(user: User, cachedBalance: int, ledgerTotal: int)

  class PointStore {
    var events: seq<Event>
    var ledger: seq<LedgerRow>
    var balances: map<User, int>
    var charges: seq<Row<ChargeKey, Charge>>
    var txs: seq<Row<TxKey, Tx>>

    function Content(): Db
      reads this
    {
      Db(events, ledger, balances, charges, txs)
    }

    constructor ()
      ensures Content() == EMPTY_DB && Valid(Content())
    {
      events, ledger, balances, charges, txs := [], [], map[], [], [];
      new;
      assert forall u: User :: Balance(EMPTY_DB, u) == 0 == LedgerTotal([], u);
    }

    method Rollback(saved: Db)
      modifies this
      ensures Content() == saved
    {
      events, ledger, balances, charges, txs := saved.events, saved.ledger, saved.balances, saved.charges, saved.txs;
    }

    method RecordEngagementEvent(key: EventKey, payload: map<string, string>) returns (id: nat)
      modifies this`events
      ensures (Content(), id) == Spec.RecordEvent(old(Content()), key, payload)
    {
      var existing := Lookup(events, key);
      if existing.Some? {
        return existing.value;
      }
      events := events + [Row(key, payload)];
      return |events| - 1;
    }

    method GetOrCreateBalance(u: User)
      modifies this`balances
      ensures balances == old(balances)[u := Balance(old(Content()), u)]
    {
      if u !in balances {
        balances := balances[u := 0];
      }
    }

    method GrantPoints(u: User, event: nat, rule: RuleKey, amount: int) returns (r: Result<nat, Error>)
      modifies this
      ensures (Content(), r) == Spec.Grant(old(Content()), u, event, rule, amount)
    {
      if amount <= 0 {
        return Err(InvalidAmount);
      }
      var key := LedgerKey(u, event, rule);
      var existing := Lookup(ledger, key);
      if existing.Some? {
        return Ok(existing.value);
      }
      if event >= |events| {
        return Err(IntegrityViolation);
      }
      var id := |ledger|;
      ledger := ledger + [Row(key, Posting(Earn, amount, 0, None))];
      GetOrCreateBalance(u);
      balances := balances[u := balances[u] + amount];
      assert balances == old(balances)[u := Balance(old(Content()), u) + amount];
      ledger := ledger[id := ledger[id].(val := ledger[id].val.(balanceAfter := balances[u]))];
      assert ledger == old(ledger) + [Row(key, Posting(Earn, amount, balances[u], None))];
      return Ok(id);
    }

    method SpendPoints(u: User, event: nat, rule: RuleKey, amount: int) returns (r: Result<nat, Error>)
      modifies this
      ensures (Content(), r) == Spec.SpendPoints(old(Content()), u, event, rule, amount)
    {
      if amount <= 0 {
        return Err(InvalidAmount);
      }
      var key := LedgerKey(u, event, rule);
      var existing := Lookup(ledger, key);
      if existing.Some? {
        return Ok(existing.value);
      }
      var saved := Content();
      if u !in balances || balances[u] < amount {
        return Err(InsufficientPoints);
      }
      balances := balances[u := balances[u] - amount];
      if event >= |events| {
        Rollback(saved);
        return Err(IntegrityViolation);
      }
      ledger := ledger + [Row(key, Posting(Spend, -amount, balances[u], None))];
      return Ok(|ledger| - 1);
    }

    method ReversePoints(u: User, event: nat, rule: RuleKey, amount: int, reversed: nat)
      returns (r: Result<nat, Error>)
      modifies this
      ensures (Content(), r) == Spec.ReversePoints(old(Content()), u, event, rule, amount, reversed)
    {
      if amount <= 0 {
        return Err(InvalidAmount);
      }
      var key := LedgerKey(u, event, rule);
      var existing := Lookup(ledger, key);
      if existing.Some? {
        return Ok(existing.value);
      }
      var saved := Content();
      GetOrCreateBalance(u);
      balances := balances[u := balances[u] + amount];
      assert balances == old(balances)[u := Balance(old(Content()), u) + amount];
      if event >= |events| || reversed >= |ledger| {
        Rollback(saved);
        return Err(IntegrityViolation);
      }
      ledger := ledger + [Row(key, Posting(Reverse, amount, balances[u], Some(reversed)))];
      return Ok(|ledger| - 1);
    }

    method CreatePointCharge(u: User, packageId: string, paidBy: string, k: string, package: Spec.Package)
      returns (r: Result<nat, Error>)
      modifies this
      ensures (Content(), r) == Spec.CreateCharge(old(Content()), u, packageId, paidBy, k, package)
    {
      match package {
        case Missing => return Err(PackageNotFound);
        case Inactive => return Err(PackageInactive);
        case Unpublished => return Err(PackageNotPublished);
        case Active(points, priceWon) =>
          var key := ChargeKey(u, k);
          var existing := Lookup(charges, key);
          if existing.Some? {
            return Ok(existing.value);
          }
          var saved := Content();
          var event := RecordEngagementEvent(Spec.ChargeEventKey(key),
                                             map["packageId" := packageId, "paymentMethod" := paidBy]);
          var granted := GrantPoints(u, event, PointCharge(packageId), points);
          var txKey := TxKey(u, ChargeOp, k);
          if granted.Err? {
            Rollback(saved);
            return Err(granted.error);
          } else if Lookup(txs, txKey).Some? {
            Rollback(saved);
            return Err(IntegrityViolation);
          }
          var id := |charges|;
          charges := charges + [Row(key, Charge(packageId, paidBy, points, priceWon, Completed, Some(granted.value)))];
          txs := txs + [Row(txKey, Tx(points, ChargeResource(id), Some(granted.value)))];
          return Ok(id);
      }
    }

    method RefundPointCharge(u: User, charge: nat, k: string) returns (r: Result<nat, Error>)
      modifies this
      ensures (Content(), r) == Spec.RefundCharge(old(Content()), u, charge, k)
    {
      hide Sum;
      var txKey := TxKey(u, RefundOp, k);
      var existing := Lookup(txs, txKey);
      if existing.Some? && txs[existing.value].val.resource != ChargeResource(charge) {
        return Err(KeyReused);
      }
      if !(charge < |charges| && charges[charge].key.user == u) {
        return Err(ChargeNotFound);
      }
      var c := charges[charge].val;
      if existing.Some? || c.status == Refunded {
        return Ok(charge);
      }
      if c.status != Completed || c.ledgerId.None? {
        return Err(ChargeNotRefundable);
      }
      var saved := Content();
      var event := RecordEngagementEvent(Spec.RefundEventKey(u, charge), map[]);
      GetOrCreateBalance(u);
      if balances[u] < c.points {
        Rollback(saved);
        return Err(RefundBalance);
      }
      var key := LedgerKey(u, event, ChargeRefund(charge));
      if Lookup(ledger, key).Some? {
        Rollback(saved);
        return Err(IntegrityViolation);
      }
      balances := balances[u := balances[u] - c.points];
      assert balances == saved.balances[u := Balance(saved, u) - c.points];
      ledger := ledger + [Row(key, Posting(Reverse, -c.points, balances[u], c.ledgerId))];
      charges := charges[charge := charges[charge].(val := c.(status := Refunded))];
      txs := txs + [Row(txKey, Tx(-c.points, ChargeResource(charge), None))];
      return Ok(charge);
    }

    method AdjustPoints(u: User, amount: int, k: string) returns (r: Result<Spec.Adjusted, Error>)
      modifies this
      ensures (Content(), r) == Spec.Adjust(old(Content()), u, amount, k)
    {
      hide Lookup, Sum;
      if amount == 0 {
        return Err(InvalidAmount);
      }
      var txKey := TxKey(u, AdjustmentOp, k);
      var existing := Lookup(txs, txKey);
      if existing.Some? {
        var tx := txs[existing.value].val;
        if tx.amount != amount || tx.resource != UserResource(u) {
          return Err(KeyReused);
        }
        if tx.ledgerId.Some? && tx.ledgerId.value < |ledger| {
          return Ok(Spec.Adjusted(tx.ledgerId.value, true));
        }
      }
      var saved := Content();
      var event := RecordEngagementEvent(Spec.AdjustmentEventKey(u, k), map[]);
      var posted;
      if amount > 0 {
        posted := GrantPoints(u, event, AdminAdjustment, amount);
      } else {
        posted := SpendPoints(u, event, AdminAdjustment, -amount);
      }
      if posted.Err? {
        Rollback(saved);
        return Err(posted.error);
      }
      var row := Row(txKey, Tx(amount, UserResource(u), Some(posted.value)));
      txs := if existing.Some? then txs[existing.value := row] else txs + [row];
      return Ok(Spec.Adjusted(posted.value, false));
    }

    /** The checker finds exactly the users whose cached balance differs from their ledger rows. */
    method ReconcilePointBalances() returns (drifts: seq<Drift>)
      ensures forall d :: d in drifts ==>
        d.cachedBalance == Balance(Content(), d.user) && d.ledgerTotal == LedgerTotal(ledger, d.user)
        && d.cachedBalance != d.ledgerTotal
      ensures forall u: User :: Balance(Content(), u) != LedgerTotal(ledger, u) ==>
        exists d :: d in drifts && d.user == u
      ensures forall i, j :: 0 <= i < j < |drifts| ==> drifts[i].user != drifts[j].user
      ensures drifts == [] <==> forall u: User :: Balance(Content(), u) == LedgerTotal(ledger, u)
    {
      drifts := [];
      ghost var all := balances.Keys + set i | 0 <= i < |ledger| :: ledger[i].key.user;
      var todo := balances.Keys + set i | 0 <= i < |ledger| :: ledger[i].key.user;
      while todo != {}
        invariant todo <= all
        invariant forall d :: d in drifts ==>
          d.user in all - todo
          && d.cachedBalance == Balance(Content(), d.user) && d.ledgerTotal == LedgerTotal(ledger, d.user)
          && d.cachedBalance != d.ledgerTotal
        invariant forall u :: u in all - todo && Balance(Content(), u) != LedgerTotal(ledger, u) ==>
          exists d :: d in drifts && d.user == u
        invariant forall i, j :: 0 <= i < j < |drifts| ==> drifts[i].user != drifts[j].user
        decreases todo
      {
        var u :| u in todo;
        todo := todo - {u};
        var total := LedgerTotal(ledger, u);
        var cached := if u in balances then balances[u] else 0;
        if total != cached {
          ghost var before := drifts;
          drifts := drifts + [Drift(u, cached, total)];
          assert drifts[|before|].user == u && forall d :: d in before ==> d in drifts;
        }
      }
      forall u: User | u !in all
        ensures Balance(Content(), u) == LedgerTotal(ledger, u)
      {
        StrangerHasNone(ledger, u);
      }
      if drifts != [] {
        assert drifts[0] in drifts;
      }
    }
  }

  lemma {:induction false} StrangerHasNone(ledger: seq<LedgerRow>, u: User)
    requires forall i :: 0 <= i < |ledger| ==> ledger[i].key.user != u
    ensures LedgerTotal(ledger, u) == 0
  {
    if |ledger| > 0 {
      StrangerHasNone(ledger[..|ledger| - 1], u);
    }
  }
}

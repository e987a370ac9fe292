/** Where points come from: every balance is explained by charges, adjustments and other postings. */
module PointBooks {
  import opened Wrappers
  import opened Tables
  import opened PointTables
  import opened PointLedger
  import opened PointInvariant

  /** The rule keys that only charges, refunds and adjustments use. */
  predicate Reserved(rule: RuleKey) {
    rule.PointCharge? || rule.ChargeRefund? || rule.AdminAdjustment?
  }

  predicate Unreserved(c: Command) {
    match c
    case DoGrant(_, _, rule, _) => !Reserved(rule)
    case DoSpend(_, _, rule, _) => !Reserved(rule)
    case DoReverse(_, _, rule, _, _) => !Reserved(rule)
    case _ => true
  }

  /** Points of the user's charges that have not been refunded. */
  function ChargedPoints(u: User): Row<ChargeKey, Charge> -> int {
    (r: Row<ChargeKey, Charge>) => if r.key.user == u && r.val.status == Completed then r.val.points else 0
  }

  function AdjustedPoints(u: User): Row<TxKey, Tx> -> int {
    (r: Row<TxKey, Tx>) => if r.key.user == u && r.key.operation == AdjustmentOp then r.val.amount else 0
  }

  function OtherPoints(u: User): LedgerRow -> int {
    (r: LedgerRow) => if r.key.user == u && !Reserved(r.key.rule) then r.val.amount else 0
  }

  function Explained(db: Db, u: User): int {
    Sum(db.charges, ChargedPoints(u)) + Sum(db.txs, AdjustedPoints(u)) + Sum(db.ledger, OtherPoints(u))
  }

  /** Each reserved posting belongs to the record that caused it. */
  ghost predicate RowExplained(db: Db, r: LedgerRow) {
    match r.key.rule
    case PointCharge(_) =>
      r.key.event < |db.events|
      && exists c :: 0 <= c < |db.charges| && db.events[r.key.event].key == ChargeEventKey(db.charges[c].key)
    case ChargeRefund(c) => c < |db.charges| && db.charges[c].val.status == Refunded
    case AdminAdjustment =>
      r.key.event < |db.events|
      && exists t ::
        0 <= t < |db.txs| && db.txs[t].key.operation == AdjustmentOp
        && db.events[r.key.event].key == AdjustmentEventKey(db.txs[t].key.user, db.txs[t].key.idempotencyKey)
    case _ => true
  }

  /** The charge's ledger row brought its points in. */
  ghost predicate ChargePosted(db: Db, c: Row<ChargeKey, Charge>) {
    && c.val.ledgerId.Some? && c.val.ledgerId.value < |db.ledger|
    && db.ledger[c.val.ledgerId.value].val.kind == Earn
    && db.ledger[c.val.ledgerId.value].val.amount == c.val.points
  }

  ghost predicate AllPosted(db: Db) {
    forall i :: 0 <= i < |db.charges| ==> ChargePosted(db, db.charges[i])
  }

  ghost predicate Books(db: Db) {
    && Valid(db) && AllPosted(db)
    && (forall i :: 0 <= i < |db.ledger| ==> RowExplained(db, db.ledger[i]))
    && (forall u: User :: LedgerTotal(db.ledger, u) == Explained(db, u))
  }

  /** Rows explained before stay explained when tables grow and charges get refunded. */
  lemma StillExplained(a: Db, b: Db, r: LedgerRow)
    requires r.key.event < |a.events| && RowExplained(a, r)
    requires KeysKept(a.events, b.events) && KeysKept(a.charges, b.charges) && KeysKept(a.txs, b.txs)
    requires forall i :: 0 <= i < |a.charges| && a.charges[i].val.status == Refunded ==>
      b.charges[i].val.status == Refunded
    ensures RowExplained(b, r)
  {
  }

  /** Charges stay posted while the ledger grows and charges get refunded. */
  lemma StillPosted(a: Db, b: Db)
    requires AllPosted(a) && a.ledger <= b.ledger && |b.charges| == |a.charges|
    requires forall i :: 0 <= i < |a.charges| ==>
      b.charges[i].val.ledgerId == a.charges[i].val.ledgerId && b.charges[i].val.points == a.charges[i].val.points
    ensures AllPosted(b)
  {
    forall i | 0 <= i < |b.charges|
      ensures ChargePosted(b, b.charges[i])
    {
      assert ChargePosted(a, a.charges[i]);
    }
  }

  lemma RecordBooks(db: Db, key: EventKey, payload: map<string, string>)
    requires Books(db)
    ensures Books(RecordEvent(db, key, payload).0)
  {
    var db' := RecordEvent(db, key, payload).0;
    RecordKeeps(db, key, payload);
    StillPosted(db, db');
    hide Valid, AllPosted, Lookup, Sum;
    forall i | 0 <= i < |db'.ledger|
      ensures RowExplained(db', db'.ledger[i])
    {
      StillExplained(db, db', db.ledger[i]);
    }
    assert forall u: User :: LedgerTotal(db.ledger, u) == Explained(db, u);
    assert forall u: User :: Explained(db', u) == Explained(db, u);
  }

  lemma PostExplained(db: Db, key: LedgerKey, kind: TransactionType, amount: int, reversed: Option<nat>, u: User)
    ensures Explained(Post(db, key, kind, amount, reversed), u)
         == Explained(db, u) + if u == key.user && !Reserved(key.rule) then amount else 0
  {
  }

  /** One more row: the rows before it stay explained, and so are all if it is. */
  lemma RowsStillExplained(db: Db, db': Db, key: LedgerKey)
    requires Books(db) && |db'.ledger| == |db.ledger| + 1 && db'.ledger[..|db.ledger|] == db.ledger
    requires KeysKept(db.events, db'.events) && KeysKept(db.charges, db'.charges) && KeysKept(db.txs, db'.txs)
    requires forall i :: 0 <= i < |db.charges| && db.charges[i].val.status == Refunded ==>
      db'.charges[i].val.status == Refunded
    requires RowExplained(db', db'.ledger[|db.ledger|])
    ensures forall i :: 0 <= i < |db'.ledger| ==> RowExplained(db', db'.ledger[i])
  {
    hide RowExplained, Sum, Lookup;
    forall i | 0 <= i < |db'.ledger|
      ensures RowExplained(db', db'.ledger[i])
    {
      if i < |db.ledger| {
        assert RowExplained(db, db.ledger[i]) && db'.ledger[i] == db.ledger[i];
        StillExplained(db, db', db.ledger[i]);
      }
    }
  }

  lemma PostBooks(db: Db, key: LedgerKey, kind: TransactionType, amount: int, reversed: Option<nat>)
    requires Books(db) && !Reserved(key.rule)
    requires Valid(Post(db, key, kind, amount, reversed))
    ensures Books(Post(db, key, kind, amount, reversed))
  {
    var db' := Post(db, key, kind, amount, reversed);
    StillPosted(db, db');
    hide Valid, AllPosted, Sum;
    RowsStillExplained(db, db', key);
    forall u: User
      ensures LedgerTotal(db'.ledger, u) == Explained(db', u)
    {
      PostMoves(db, key, kind, amount, reversed, u);
      PostExplained(db, key, kind, amount, reversed, u);
      assert LedgerTotal(db.ledger, u) == Explained(db, u);
    }
  }

  /** A fresh charge posts its points: no ledger row can have used its event and rule before. */
  lemma ChargeRowFresh(db: Db, key: ChargeKey, event: nat, packageId: string)
    requires Books(db) && Lookup(db.charges, key).None?
    requires event < |db.events| && db.events[event].key == ChargeEventKey(key)
    ensures Lookup(db.ledger, LedgerKey(key.user, event, PointCharge(packageId))).None?
  {
  }

  lemma ChargeTxFresh(db: Db, key: ChargeKey)
    requires Valid(db) && Lookup(db.charges, key).None?
    ensures Lookup(db.txs, TxKey(key.user, ChargeOp, key.idempotencyKey)).None?
  {
  }

  lemma AdjustmentRowFresh(db: Db, u: User, k: string, event: nat)
    requires Books(db) && Lookup(db.txs, TxKey(u, AdjustmentOp, k)).None?
    requires event < |db.events| && db.events[event].key == AdjustmentEventKey(u, k)
    ensures Lookup(db.ledger, LedgerKey(u, event, AdminAdjustment)).None?
  {
  }

  lemma RefundRowFresh(db: Db, u: User, charge: nat, event: nat)
    requires Books(db) && Owns(db, u, charge) && db.charges[charge].val.status != Refunded
    ensures Lookup(db.ledger, LedgerKey(u, event, ChargeRefund(charge))).None?
  {
  }

  /** A posting and the record that explains it, made in one transaction. */
  lemma PairBooks(db: Db, key: LedgerKey, kind: TransactionType, amount: int, reversed: Option<nat>, db': Db)
    requires Books(db) && Valid(db') && AllPosted(db') && Reserved(key.rule) && key.event < |db.events|
    requires var posted := Post(db, key, kind, amount, reversed);
             db'.events == posted.events && db'.ledger == posted.ledger && db'.balances == posted.balances
    requires KeysKept(db.charges, db'.charges) && KeysKept(db.txs, db'.txs)
    requires forall i :: 0 <= i < |db.charges| && db.charges[i].val.status == Refunded ==>
      db'.charges[i].val.status == Refunded
    requires RowExplained(db', db'.ledger[|db.ledger|])
    requires forall u: User ::
      Sum(db'.charges, ChargedPoints(u)) + Sum(db'.txs, AdjustedPoints(u))
      == Sum(db.charges, ChargedPoints(u)) + Sum(db.txs, AdjustedPoints(u)) + if u == key.user then amount else 0
    ensures Books(db')
  {
    hide Valid, AllPosted, Sum;
    RowsStillExplained(db, db', key);
    forall u: User
      ensures LedgerTotal(db'.ledger, u) == Explained(db', u)
    {
      PostMoves(db, key, kind, amount, reversed, u);
      PostExplained(db, key, kind, amount, reversed, u);
      assert LedgerTotal(db.ledger, u) == Explained(db, u);
    }
  }

  lemma ChargeBooks(db: Db, u: User, packageId: string, paidBy: string, k: string, package: Package)
    requires Books(db)
    ensures Books(CreateCharge(db, u, packageId, paidBy, k, package).0)
  {
    var key := ChargeKey(u, k);
    hide Lookup, Sum;
    if package.Active? && package.points > 0 && Lookup(db.charges, key).None? {
      var payload := map["packageId" := packageId, "paymentMethod" := paidBy];
      var (db1, event) := RecordEvent(db, ChargeEventKey(key), payload);
      RecordKeeps(db, ChargeEventKey(key), payload);
      RecordBooks(db, ChargeEventKey(key), payload);
      ChargeRowFresh(db1, key, event, packageId);
      ChargeTxFresh(db, key);
      var charge := Charge(packageId, paidBy, package.points, package.priceWon, Completed, Some(|db.ledger|));
      var db2 := Post(db1, LedgerKey(u, event, PointCharge(packageId)), Earn, package.points, None);
      var db' := InsertCharge(db2, key, charge);
      ChargeKeeps(db, u, packageId, paidBy, k, package);
      assert db' == CreateCharge(db, u, packageId, paidBy, k, package).0;
      forall v: User
        ensures Sum(db'.charges, ChargedPoints(v)) + Sum(db'.txs, AdjustedPoints(v))
             == Sum(db1.charges, ChargedPoints(v)) + Sum(db1.txs, AdjustedPoints(v))
                + if v == u then package.points else 0
      {
        SumAppend(db1.charges, db'.charges[|db1.charges|], ChargedPoints(v));
        SumAppend(db1.txs, db'.txs[|db1.txs|], AdjustedPoints(v));
      }
      assert db'.events[event].key == ChargeEventKey(db'.charges[|db1.charges|].key);
      PairBooks(db1, LedgerKey(u, event, PointCharge(packageId)), Earn, package.points, None, db');
    }
  }

  /** The refund's posting, the charge marked, and the key recorded. */
  function PaidBack(db: Db, event: nat, charge: nat, k: string): Db
    requires charge < |db.charges|
  {
    var c := db.charges[charge];
    SettleRefund(Post(db, LedgerKey(c.key.user, event, ChargeRefund(charge)), Reverse, -c.val.points, c.val.ledgerId),
                 charge, k)
  }

  lemma PaidBackMoves(db: Db, event: nat, charge: nat, k: string)
    requires charge < |db.charges|
    ensures var db' := PaidBack(db, event, charge, k);
            var Row(key, c) := db.charges[charge];
            var after := Balance(db, key.user) - c.points;
            var row := Row(LedgerKey(key.user, event, ChargeRefund(charge)),
                           Posting(Reverse, -c.points, after, c.ledgerId));
            && db'.events == db.events && db'.ledger == db.ledger + [row]
            && (forall v: User :: Balance(db', v) == if v == key.user then after else Balance(db, v))
            && db'.charges == db.charges[charge := Row(key, c.(status := Refunded))]
            && db'.txs == db.txs + [Row(TxKey(key.user, RefundOp, k), Tx(-c.points, ChargeResource(charge), None))]
  {
  }

  lemma PaidBackSums(db: Db, event: nat, charge: nat, k: string, v: User)
    requires charge < |db.charges| && db.charges[charge].val.status == Completed
    ensures var db' := PaidBack(db, event, charge, k);
            var Row(key, c) := db.charges[charge];
            Sum(db'.charges, ChargedPoints(v)) + Sum(db'.txs, AdjustedPoints(v))
            == Sum(db.charges, ChargedPoints(v)) + Sum(db.txs, AdjustedPoints(v))
               + if v == key.user then -c.points else 0
  {
    PaidBackMoves(db, event, charge, k);
    hide PaidBack, Sum;
    var db' := PaidBack(db, event, charge, k);
    SumUpdate(db.charges, charge, db'.charges[charge], ChargedPoints(v));
    SumAppend(db.txs, db'.txs[|db.txs|], AdjustedPoints(v));
  }

  lemma PaidBackBooks(db: Db, event: nat, charge: nat, k: string)
    requires Books(db) && charge < |db.charges| && db.charges[charge].val.status == Completed && event < |db.events|
    requires Valid(PaidBack(db, event, charge, k))
    ensures Books(PaidBack(db, event, charge, k))
  {
    hide *;
    PaidBackPosted(db, event, charge, k);
    PaidBackExplained(db, event, charge, k);
    PaidBackAllSums(db, event, charge, k);
    var Row(key, c) := db.charges[charge];
    PairBooks(db, LedgerKey(key.user, event, ChargeRefund(charge)), Reverse, -c.points, c.ledgerId,
              PaidBack(db, event, charge, k));
  }

  lemma PaidBackAllSums(db: Db, event: nat, charge: nat, k: string)
    requires charge < |db.charges| && db.charges[charge].val.status == Completed
    ensures var db' := PaidBack(db, event, charge, k);
            var Row(key, c) := db.charges[charge];
            forall v: User ::
              Sum(db'.charges, ChargedPoints(v)) + Sum(db'.txs, AdjustedPoints(v))
              == Sum(db.charges, ChargedPoints(v)) + Sum(db.txs, AdjustedPoints(v))
                 + if v == key.user then -c.points else 0
  {
    hide *;
    forall v: User
      ensures var db' := PaidBack(db, event, charge, k);
              var Row(key, c) := db.charges[charge];
              Sum(db'.charges, ChargedPoints(v)) + Sum(db'.txs, AdjustedPoints(v))
              == Sum(db.charges, ChargedPoints(v)) + Sum(db.txs, AdjustedPoints(v))
                 + if v == key.user then -c.points else 0
    {
      PaidBackSums(db, event, charge, k, v);
    }
  }

  lemma PaidBackExplained(db: Db, event: nat, charge: nat, k: string)
    requires charge < |db.charges| && event < |db.events|
    ensures var db' := PaidBack(db, event, charge, k);
            && Reserved(ChargeRefund(charge)) && |db'.ledger| == |db.ledger| + 1
            && RowExplained(db', db'.ledger[|db.ledger|])
            && KeysKept(db.charges, db'.charges) && KeysKept(db.txs, db'.txs)
            && (forall i :: 0 <= i < |db.charges| && db.charges[i].val.status == Refunded ==>
                  db'.charges[i].val.status == Refunded)
  {
  }

  lemma PaidBackPosted(db: Db, event: nat, charge: nat, k: string)
    requires Books(db) && charge < |db.charges|
    ensures AllPosted(PaidBack(db, event, charge, k))
    ensures var db' := PaidBack(db, event, charge, k);
            var Row(key, c) := db.charges[charge];
            var posted := Post(db, LedgerKey(key.user, event, ChargeRefund(charge)), Reverse, -c.points, c.ledgerId);
            db'.events == posted.events && db'.ledger == posted.ledger && db'.balances == posted.balances
  {
    hide Sum, Lookup, Valid;
    StillPosted(db, PaidBack(db, event, charge, k));
  }

  /** What stands in the way of a first refund of a completed charge, and what it does otherwise. */
  lemma RefundShape(db: Db, u: User, charge: nat, k: string)
    requires Books(db) && Owns(db, u, charge) && db.charges[charge].val.status == Completed
    requires Lookup(db.txs, TxKey(u, RefundOp, k)).None?
    ensures var (db1, event) := RecordEvent(db, RefundEventKey(u, charge), map[]);
            var key := LedgerKey(u, event, ChargeRefund(charge));
            var c := db.charges[charge].val;
            && Books(db1) && event < |db1.events| && Lookup(db1.ledger, key).None?
            && RefundCharge(db, u, charge, k)
               == if Balance(db, u) < c.points then (db, Err(RefundBalance))
                  else (PaidBack(db1, event, charge, k), Ok(charge))
  {
    hide Lookup, Sum, Post, SettleRefund, Books;
    var (db1, event) := RecordEvent(db, RefundEventKey(u, charge), map[]);
    RecordBooks(db, RefundEventKey(u, charge), map[]);
    RecordPlaces(db, RefundEventKey(u, charge), map[]);
    RefundRowFresh(db1, u, charge, event);
    CompletedHasRow(db, charge);
  }

  lemma RecordPlaces(db: Db, key: EventKey, payload: map<string, string>)
    ensures var (db1, event) := RecordEvent(db, key, payload);
            && event < |db1.events| && db1.events[event].key == key && db1 == db.(events := db1.events)
            && KeysKept(db.events, db1.events)
  {
    hide Lookup;
  }

  lemma CompletedHasRow(db: Db, charge: nat)
    requires Books(db) && charge < |db.charges|
    ensures ChargePosted(db, db.charges[charge]) && ChargeResolves(db, db.charges[charge])
  {
  }

  lemma RefundBooks(db: Db, u: User, charge: nat, k: string)
    requires Books(db)
    ensures Books(RefundCharge(db, u, charge, k).0)
  {
    if RefundCharge(db, u, charge, k).0 != db {
      RefundKeeps(db, u, charge, k);
      RefundShape(db, u, charge, k);
      RecordPlaces(db, RefundEventKey(u, charge), map[]);
      hide RefundCharge, Books, Valid, PaidBack, Lookup, Sum, RecordEvent;
      var (db1, event) := RecordEvent(db, RefundEventKey(u, charge), map[]);
      PaidBackBooks(db1, event, charge, k);
    }
  }

  lemma AdjustBooks(db: Db, u: User, amount: int, k: string)
    requires Books(db)
    ensures Books(Adjust(db, u, amount, k).0)
  {
    hide Lookup, Sum;
    var (db', r) := Adjust(db, u, amount, k);
    var existing := Lookup(db.txs, TxKey(u, AdjustmentOp, k));
    if existing.Some? {
      assert TxResolves(db, db.txs[existing.value]);
    } else if r.Ok? {
      AdjustKeeps(db, u, amount, k);
      var (db1, event) := RecordEvent(db, AdjustmentEventKey(u, k), map[]);
      RecordKeeps(db, AdjustmentEventKey(u, k), map[]);
      RecordBooks(db, AdjustmentEventKey(u, k), map[]);
      AdjustmentRowFresh(db1, u, k, event);
      forall v: User
        ensures Sum(db'.charges, ChargedPoints(v)) + Sum(db'.txs, AdjustedPoints(v))
             == Sum(db1.charges, ChargedPoints(v)) + Sum(db1.txs, AdjustedPoints(v)) + if v == u then amount else 0
      {
        SumAppend(db1.txs, db'.txs[|db1.txs|], AdjustedPoints(v));
      }
      assert db'.events[event].key
        == AdjustmentEventKey(db'.txs[|db1.txs|].key.user, db'.txs[|db1.txs|].key.idempotencyKey);
      PairBooks(db1, LedgerKey(u, event, AdminAdjustment), if amount > 0 then Earn else Spend, amount, None, db');
    }
  }

  lemma GrantBooks(db: Db, u: User, event: nat, rule: RuleKey, amount: int)
    requires Books(db) && !Reserved(rule)
    ensures Books(Grant(db, u, event, rule, amount).0)
  {
    GrantKeeps(db, u, event, rule, amount);
    hide Lookup, Sum, Books, Valid;
    if Grant(db, u, event, rule, amount).0 != db {
      PostBooks(db, LedgerKey(u, event, rule), Earn, amount, None);
    }
  }

  lemma SpendBooks(db: Db, u: User, event: nat, rule: RuleKey, amount: int)
    requires Books(db) && !Reserved(rule)
    ensures Books(SpendPoints(db, u, event, rule, amount).0)
  {
    SpendKeeps(db, u, event, rule, amount);
    hide Lookup, Sum, Books, Valid;
    if SpendPoints(db, u, event, rule, amount).0 != db {
      PostBooks(db, LedgerKey(u, event, rule), Spend, -amount, None);
    }
  }

  lemma ReverseBooks(db: Db, u: User, event: nat, rule: RuleKey, amount: int, reversed: nat)
    requires Books(db) && !Reserved(rule)
    ensures Books(ReversePoints(db, u, event, rule, amount, reversed).0)
  {
    ReverseKeeps(db, u, event, rule, amount, reversed);
    hide Lookup, Sum, Books, Valid;
    if ReversePoints(db, u, event, rule, amount, reversed).0 != db {
      PostBooks(db, LedgerKey(u, event, rule), Reverse, amount, Some(reversed));
    }
  }

  lemma StepBooks(db: Db, c: Command)
    requires Books(db) && Unreserved(c)
    ensures Books(Step(db, c).0)
  {
    hide Books, RecordEvent, Grant, SpendPoints, ReversePoints, CreateCharge, RefundCharge, Adjust;
    match c
    case DoRecord(key, payload) => RecordBooks(db, key, payload);
    case DoGrant(u, event, rule, amount) => GrantBooks(db, u, event, rule, amount);
    case DoSpend(u, event, rule, amount) => SpendBooks(db, u, event, rule, amount);
    case DoReverse(u, event, rule, amount, reversed) => ReverseBooks(db, u, event, rule, amount, reversed);
    case DoCharge(u, packageId, paidBy, k, package) => ChargeBooks(db, u, packageId, paidBy, k, package);
    case DoRefund(u, charge, k) => RefundBooks(db, u, charge, k);
    case DoAdjust(u, amount, k) => AdjustBooks(db, u, amount, k);
  }

  /**
   Conservation: after any run, a user's balance is what the charges not refunded brought in,
   plus what administrators adjusted, plus what other services posted under their own rule keys.
   */
  lemma {:induction false} Conservation(db: Db, cs: seq<Command>)
    requires Books(db) && forall i :: 0 <= i < |cs| ==> Unreserved(cs[i])
    ensures var end := Run(db, cs);
            Books(end) && forall u: User :: Balance(end, u) == Explained(end, u)
    decreases |cs|
  {
    if |cs| > 0 {
      StepBooks(db, cs[0]);
      Conservation(Step(db, cs[0]).0, cs[1..]);
    } else {
      forall u: User
        ensures Balance(db, u) == Explained(db, u)
      {
        assert 0 <= Balance(db, u) == LedgerTotal(db.ledger, u);
        assert LedgerTotal(db.ledger, u) == Explained(db, u);
      }
    }
  }

  /**
   The first refund of a completed charge goes through exactly when the points are still there. It
   takes them back in one row that reverses the row the charge was paid with, marks the charge, and
   records its key.
   */
  lemma RefundAccepted(db: Db, u: User, charge: nat, k: string)
    requires Books(db) && Owns(db, u, charge) && db.charges[charge].val.status == Completed
    requires Lookup(db.txs, TxKey(u, RefundOp, k)).None?
    ensures var (db', r) := RefundCharge(db, u, charge, k);
            var c := db.charges[charge].val;
            if Balance(db, u) < c.points then r == Err(RefundBalance) && db' == db
            else
              && r == Ok(charge)
              && (forall v: User :: Balance(db', v) == Balance(db, v) - if v == u then c.points else 0)
              && RefundPosted(db, db', charge)
              && db'.charges == db.charges[charge := db.charges[charge].(val := c.(status := Refunded))]
              && db'.txs == db.txs + [Row(TxKey(u, RefundOp, k), Tx(-c.points, ChargeResource(charge), None))]
  {
    RefundShape(db, u, charge, k);
    RecordPlaces(db, RefundEventKey(u, charge), map[]);
    var (db1, event) := RecordEvent(db, RefundEventKey(u, charge), map[]);
    hide Lookup, Sum, Books, RecordEvent, RefundCharge, PaidBack, RefundPosted;
    PaidBackReported(db, db1, event, charge, k);
  }

  lemma PaidBackReported(db: Db, db1: Db, event: nat, charge: nat, k: string)
    requires charge < |db.charges| && db1 == db.(events := db1.events)
    requires event < |db1.events| && db1.events[event].key == RefundEventKey(db.charges[charge].key.user, charge)
    ensures var db' := PaidBack(db1, event, charge, k);
            var Row(key, c) := db.charges[charge];
            && RefundPosted(db, db', charge)
            && (forall v: User :: Balance(db', v) == Balance(db, v) - if v == key.user then c.points else 0)
            && db'.charges == db.charges[charge := Row(key, c.(status := Refunded))]
            && db'.txs == db.txs + [Row(TxKey(key.user, RefundOp, k), Tx(-c.points, ChargeResource(charge), None))]
  {
    PaidBackMoves(db1, event, charge, k);
    hide PaidBack;
  }

  /**
   One ledger row more: the owner's, under the refund's event and rule, taking the points back from
   the charge's row.
   */
  ghost predicate RefundPosted(db: Db, db': Db, charge: nat)
    requires charge < |db.charges|
  {
    var Row(key, c) := db.charges[charge];
    && |db'.ledger| == |db.ledger| + 1 && db'.ledger[..|db.ledger|] == db.ledger
    && var row := db'.ledger[|db.ledger|];
    && row.key.user == key.user && row.key.rule == ChargeRefund(charge)
    && row.key.event < |db'.events| && db'.events[row.key.event].key == RefundEventKey(key.user, charge)
    && row.val == Posting(Reverse, -c.points, Balance(db, key.user) - c.points, c.ledgerId)
  }

  /** The row that a refund reverses brought in exactly the points it takes back, for the same user and package. */
  lemma RefundReversesItsCharge(db: Db, u: User, charge: nat, k: string)
    requires Books(db) && Owns(db, u, charge) && db.charges[charge].val.status == Completed
    requires Lookup(db.txs, TxKey(u, RefundOp, k)).None? && RefundCharge(db, u, charge, k).1.Ok?
    ensures var db' := RefundCharge(db, u, charge, k).0;
            |db'.ledger| > 0
            && var refund := db'.ledger[|db'.ledger| - 1];
               refund.val.reversed.Some? && refund.val.reversed.value < |db'.ledger| - 1
               && var paid := db'.ledger[refund.val.reversed.value];
                  paid.key.user == u && paid.key.rule == PointCharge(db.charges[charge].val.packageId)
                  && paid.val.kind == Earn && paid.val.amount + refund.val.amount == 0
  {
    RefundAccepted(db, u, charge, k);
    CompletedHasRow(db, charge);
    hide Books, RefundCharge, Lookup, Sum;
  }

  /** The first adjustment under a key goes through exactly when it does not overdraw, and moves one balance. */
  lemma AdjustmentAccepted(db: Db, u: User, amount: int, k: string)
    requires Books(db) && Lookup(db.txs, TxKey(u, AdjustmentOp, k)).None?
    ensures var (db', r) := Adjust(db, u, amount, k);
            && (r.Ok? <==> amount != 0 && 0 <= Balance(db, u) + amount)
            && (r.Ok? ==> !r.value.replayed && r.value.row == |db.ledger|)
            && (forall v: User :: Balance(db', v) == Balance(db, v) + if v == u && r.Ok? then amount else 0)
  {
    hide Lookup, Sum;
    assert 0 <= Balance(db, u);
    var (db1, event) := RecordEvent(db, AdjustmentEventKey(u, k), map[]);
    RecordKeeps(db, AdjustmentEventKey(u, k), map[]);
    RecordBooks(db, AdjustmentEventKey(u, k), map[]);
    AdjustmentRowFresh(db1, u, k, event);
  }

  /** What a refund answers, whatever it asks for: three refusals are possible, and no other error ever is. */
  lemma RefundAnswer(db: Db, u: User, charge: nat, k: string)
    requires Books(db)
    ensures var t := Lookup(db.txs, TxKey(u, RefundOp, k));
            RefundCharge(db, u, charge, k).1
            == if t.Some? && db.txs[t.value].val.resource != ChargeResource(charge) then Err(KeyReused)
               else if charge >= |db.charges| || db.charges[charge].key.user != u then Err(ChargeNotFound)
               else if db.charges[charge].val.status == Completed && Balance(db, u) < db.charges[charge].val.points
               then Err(RefundBalance) else Ok(charge)
  {
    var t := Lookup(db.txs, TxKey(u, RefundOp, k));
    assert t.Some? ==> TxResolves(db, db.txs[t.value]);
    if Owns(db, u, charge) {
      CompletedHasRow(db, charge);
      if t.None? && db.charges[charge].val.status == Completed {
        RefundShape(db, u, charge, k);
      }
    }
    hide Books, Lookup, Sum, PaidBack, Post, SettleRefund, RecordEvent;
  }

  /** What a charge answers. A known key answers with its charge as long as the package is on sale. */
  lemma ChargeAnswer(db: Db, u: User, packageId: string, paidBy: string, k: string, package: Package)
    requires Books(db)
    ensures var known := Lookup(db.charges, ChargeKey(u, k));
            CreateCharge(db, u, packageId, paidBy, k, package).1
            == match package
               case Missing => Err(PackageNotFound)
               case Inactive => Err(PackageInactive)
               case Unpublished => Err(PackageNotPublished)
               case Active(points, _) =>
                 if known.Some? then Ok(known.value)
                 else if points <= 0 then Err(InvalidAmount) else Ok(|db.charges|)
  {
    if package.Active? && package.points > 0 && Lookup(db.charges, ChargeKey(u, k)).None? {
      FreshCharge(db, u, packageId, paidBy, k, package);
    }
    hide Books, Lookup, Sum;
  }

  /** What an adjustment answers. */
  lemma AdjustmentAnswer(db: Db, u: User, amount: int, k: string)
    requires Books(db)
    ensures var t := Lookup(db.txs, TxKey(u, AdjustmentOp, k));
            var r := Adjust(db, u, amount, k).1;
            if amount == 0 then r == Err(InvalidAmount)
            else if t.Some? && db.txs[t.value].val.amount != amount then r == Err(KeyReused)
            else if t.Some? then
              db.txs[t.value].val.ledgerId.Some? && r == Ok(Adjusted(db.txs[t.value].val.ledgerId.value, true))
            else if Balance(db, u) + amount < 0 then r == Err(InsufficientPoints)
            else r == Ok(Adjusted(|db.ledger|, false))
  {
    var t := Lookup(db.txs, TxKey(u, AdjustmentOp, k));
    if t.Some? {
      assert TxResolves(db, db.txs[t.value]);
      hide Lookup, Sum;
    } else {
      AdjustmentAccepted(db, u, amount, k);
      BalanceNatural(db, u);
      if amount != 0 && Balance(db, u) + amount < 0 {
        AdjustmentRefusal(db, u, amount, k);
      }
    }
  }

  lemma AdjustmentRefusal(db: Db, u: User, amount: int, k: string)
    requires Lookup(db.txs, TxKey(u, AdjustmentOp, k)).None? && 0 <= Balance(db, u)
    requires amount != 0 && Adjust(db, u, amount, k).1.Err? && Balance(db, u) + amount < 0
    ensures Adjust(db, u, amount, k).1 == Err(InsufficientPoints)
  {
    hide Lookup, Sum;
  }

  /** A refund undoes its charge: right after it, every balance is what it was before the charge. */
  lemma RefundUndoesCharge(db: Db, u: User, packageId: string, paidBy: string, k: string, package: Package, k': string)
    requires Books(db) && package.Active? && package.points > 0
    requires Lookup(db.charges, ChargeKey(u, k)).None? && Lookup(db.txs, TxKey(u, RefundOp, k')).None?
    ensures var (db1, charged) := CreateCharge(db, u, packageId, paidBy, k, package);
            charged == Ok(|db.charges|) && Balance(db1, u) == Balance(db, u) + package.points
            && var (db2, refunded) := RefundCharge(db1, u, |db.charges|, k');
            refunded == charged && forall v: User :: Balance(db2, v) == Balance(db, v)
  {
    hide CreateCharge, RefundCharge, Lookup, Sum, Books, Balance, RefundPosted;
    FreshCharge(db, u, packageId, paidBy, k, package);
    BalanceNatural(db, u);
    var db1 := CreateCharge(db, u, packageId, paidBy, k, package).0;
    LookupAppend(db.txs, db1.txs[|db.txs|], TxKey(u, RefundOp, k'));
    RefundAccepted(db1, u, |db.charges|, k');
  }

  lemma BalanceNatural(db: Db, u: User)
    requires Books(db)
    ensures 0 <= Balance(db, u)
  {
    assert 0 <= Balance(db, u) == LedgerTotal(db.ledger, u);
  }

  /**
   A refund that succeeded need not replay: refunding an already refunded charge under a new key
   records no transaction, so another charge's refund may take the key, and the first request then fails.
   */
  lemma RefundReplayCanFail(db: Db, u: User, refunded: nat, completed: nat, k: string)
    requires Books(db) && Lookup(db.txs, TxKey(u, RefundOp, k)).None?
    requires Owns(db, u, refunded) && db.charges[refunded].val.status == Refunded
    requires Owns(db, u, completed) && db.charges[completed].val.status == Completed
    requires Balance(db, u) >= db.charges[completed].val.points
    ensures RefundCharge(db, u, refunded, k) == (db, Ok(refunded))
    ensures var (db', r) := RefundCharge(db, u, completed, k);
            r == Ok(completed) && RefundCharge(db', u, refunded, k) == (db', Err(KeyReused))
  {
    RefundAccepted(db, u, completed, k);
    var db' := RefundCharge(db, u, completed, k).0;
    LookupAppend(db.txs, db'.txs[|db.txs|], TxKey(u, RefundOp, k));
    assert RefundCharge(db, u, refunded, k) == (db, Ok(refunded));
    hide Lookup, Sum, Books;
    KeyTaken(db', u, refunded, k, |db.txs|);
  }

  lemma KeyTaken(db: Db, u: User, charge: nat, k: string, t: nat)
    requires Lookup(db.txs, TxKey(u, RefundOp, k)) == Some(t) && t < |db.txs|
    requires db.txs[t].val.resource != ChargeResource(charge)
    ensures RefundCharge(db, u, charge, k) == (db, Err(KeyReused))
  {
    hide Lookup;
  }

  function Buy(u: User, k: string): Command {
    DoCharge(u, "points_500", "card", k, Active(500, 5000))
  }

  /** Two charges of 500 points, the first of them refunded. */
  function TwoCharges(u: User): Db {
    Run(EMPTY_DB, [Buy(u, "a"), DoRefund(u, 0, "r0"), Buy(u, "b")])
  }

  /**
   A reachable state of that kind: refunding the first charge again succeeds, but not once the
   second took the key.
   */
  lemma RefundReplayFailsSomewhere(u: User)
    ensures var again := DoRefund(u, 0, "r1");
            var db2 := Step(Step(TwoCharges(u), again).0, DoRefund(u, 1, "r1")).0;
            Step(TwoCharges(u), again).1 == Ok(0) && Step(db2, again) == (db2, Err(KeyReused))
  {
    TwoChargesShape(u);
    hide Lookup, Sum, Books, TwoCharges, RefundCharge;
    RefundReplayCanFail(TwoCharges(u), u, 0, 1, "r1");
  }

  lemma TwoChargesShape(u: User)
    ensures var db := TwoCharges(u);
            && Books(db) && Lookup(db.txs, TxKey(u, RefundOp, "r1")).None? && Balance(db, u) == 500
            && Owns(db, u, 0) && db.charges[0].val.status == Refunded
            && Owns(db, u, 1) && db.charges[1].val.status == Completed && db.charges[1].val.points == 500
  {
    hide Lookup, Sum, Books, Step, Run;
    RunThree(EMPTY_DB, Buy(u, "a"), DoRefund(u, 0, "r0"), Buy(u, "b"));
    FirstChargeRefunded(u);
    assert "a"[0] != "b"[0] && "r0"[1] != "r1"[1];
    SecondCharge(Step(Step(EMPTY_DB, Buy(u, "a")).0, DoRefund(u, 0, "r0")).0, u);
  }

  lemma SecondCharge(db: Db, u: User)
    requires Books(db) && Balance(db, u) == 0 && Lookup(db.charges, ChargeKey(u, "b")).None?
    ensures var db' := Step(db, Buy(u, "b")).0;
            && Books(db') && Balance(db', u) == 500
            && |db'.charges| == |db.charges| + 1 && db'.charges[..|db.charges|] == db.charges
            && db'.charges[|db.charges|]
               == Row(ChargeKey(u, "b"), Charge("points_500", "card", 500, 5000, Completed, Some(|db.ledger|)))
            && |db'.txs| == |db.txs| + 1 && db'.txs[..|db.txs|] == db.txs
            && db'.txs[|db.txs|].key == TxKey(u, ChargeOp, "b")
  {
    hide Lookup, Sum, Books, CreateCharge;
    FreshCharge(db, u, "points_500", "card", "b", Active(500, 5000));
  }

  lemma RunThree(db: Db, a: Command, b: Command, c: Command)
    ensures Run(db, [a, b, c]) == Step(Step(Step(db, a).0, b).0, c).0
  {
    hide Step;
    assert [a, b, c][1..] == [b, c] && [b, c][1..] == [c] && [c][1..] == [];
    assert Run(Step(db, a).0, [b, c]) == Run(Step(Step(db, a).0, b).0, [c]);
  }

  /**
   A first charge pays exactly if no ledger row stands under its event and rule yet. Only a service
   that posts under the charge's own rule key can put one there.
   */
  lemma ChargePaysIff(db: Db, u: User, packageId: string, paidBy: string, k: string, package: Package)
    requires Valid(db) && Lookup(db.charges, ChargeKey(u, k)).None?
      && CreateCharge(db, u, packageId, paidBy, k, package).1.Ok?
    ensures var payload := map["packageId" := packageId, "paymentMethod" := paidBy];
            var event := RecordEvent(db, ChargeEventKey(ChargeKey(u, k)), payload).1;
            var db' := CreateCharge(db, u, packageId, paidBy, k, package).0;
            Balance(db', u) == Balance(db, u) + package.points
            <==> Lookup(db.ledger, LedgerKey(u, event, PointCharge(packageId))).None?
  {
    hide Lookup, Sum, Valid;
  }

  /** A run in which a service grants one point under a charge's own event and rule, and the charge pays nothing. */
  lemma ChargeUnpaidSomewhere(u: User)
    ensures var key := ChargeEventKey(ChargeKey(u, "a"));
            var db := Step(Step(EMPTY_DB, DoRecord(key, map[])).0, DoGrant(u, 0, PointCharge("points_500"), 1)).0;
            var (db', r) := Step(db, Buy(u, "a"));
            Balance(db, u) == 1 && r == Ok(0) && Balance(db', u) == 1
  {
  }

  lemma EmptyBooks()
    ensures Books(EMPTY_DB)
  {
    assert forall u: User :: Balance(EMPTY_DB, u) == 0 == LedgerTotal([], u) == Explained(EMPTY_DB, u);
  }

  /** What a first charge adds to the charges and the transactions. */
  lemma FreshCharge(db: Db, u: User, packageId: string, paidBy: string, k: string, package: Package)
    requires Books(db) && package.Active? && package.points > 0 && Lookup(db.charges, ChargeKey(u, k)).None?
    ensures var (db', r) := CreateCharge(db, u, packageId, paidBy, k, package);
            var charge := Charge(packageId, paidBy, package.points, package.priceWon, Completed, Some(|db.ledger|));
            && r == Ok(|db.charges|) && Books(db')
            && (forall v: User :: Balance(db', v) == Balance(db, v) + if v == u then package.points else 0)
            && db'.charges == db.charges + [Row(ChargeKey(u, k), charge)]
            && db'.txs == db.txs
              + [Row(TxKey(u, ChargeOp, k), Tx(package.points, ChargeResource(|db.charges|), Some(|db.ledger|)))]
  {
    hide Lookup, Sum, Books, Valid;
    ChargeBooks(db, u, packageId, paidBy, k, package);
    ChargeRowNew(db, u, packageId, paidBy, k);
  }

  /** The event, ledger and transaction rows of a first charge are all free. */
  lemma ChargeRowNew(db: Db, u: User, packageId: string, paidBy: string, k: string)
    requires Books(db) && Lookup(db.charges, ChargeKey(u, k)).None?
    ensures Lookup(db.txs, TxKey(u, ChargeOp, k)).None?
    ensures var payload := map["packageId" := packageId, "paymentMethod" := paidBy];
            var event := RecordEvent(db, ChargeEventKey(ChargeKey(u, k)), payload).1;
            Lookup(db.ledger, LedgerKey(u, event, PointCharge(packageId))).None?
  {
    hide Lookup, Sum;
    var key := ChargeKey(u, k);
    var payload := map["packageId" := packageId, "paymentMethod" := paidBy];
    RecordKeeps(db, ChargeEventKey(key), payload);
    RecordBooks(db, ChargeEventKey(key), payload);
    var (db1, event) := RecordEvent(db, ChargeEventKey(key), payload);
    ChargeRowFresh(db1, key, event, packageId);
    ChargeTxFresh(db, key);
  }

  lemma FirstChargeRefunded(u: User)
    ensures var s1 := Step(EMPTY_DB, Buy(u, "a")).0;
            var s2 := Step(s1, DoRefund(u, 0, "r0")).0;
            Books(s2) && |s2.charges| == 1 && s2.charges[0].key == ChargeKey(u, "a")
              && s2.charges[0].val.status == Refunded
            && |s2.txs| == 2 && s2.txs[0].key == TxKey(u, ChargeOp, "a") && s2.txs[1].key == TxKey(u, RefundOp, "r0")
            && Balance(s2, u) == 0
  {
    EmptyBooks();
    hide Lookup, Sum, Books, CreateCharge;
    FreshCharge(EMPTY_DB, u, "points_500", "card", "a", Active(500, 5000));
    var s1 := Step(EMPTY_DB, Buy(u, "a")).0;
    RefundBooks(s1, u, 0, "r0");
    RefundAccepted(s1, u, 0, "r0");
  }
}

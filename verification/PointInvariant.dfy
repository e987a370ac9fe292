/** What every point command keeps: the cache agrees with the ledger, and every reference resolves. */
module PointInvariant {
  import opened Wrappers
  import opened Tables
  import opened PointTables
  import opened PointLedger

  /** The cache is never negative and always equals the sum it stands for. */
  ghost predicate CacheAgrees(db: Db) {
    forall u: User :: 0 <= Balance(db, u) == LedgerTotal(db.ledger, u)
  }

  /** Each row's balance_after is the total of its user's rows up to and including it. */
  ghost predicate RunningTotals(ledger: seq<LedgerRow>) {
    forall i :: 0 <= i < |ledger| ==>
      ledger[i].val.balanceAfter == LedgerTotal(ledger[..i + 1], ledger[i].key.user)
  }

  /** Earnings add, spendings take away, and only a reversal names a row it reverses. */
  predicate KindOk(kind: TransactionType, amount: int, reversed: Option<nat>) {
    match kind
    case Earn => amount > 0 && reversed.None?
    case Spend => amount < 0 && reversed.None?
    case Reverse => amount != 0 && reversed.Some?
  }

  ghost predicate RowsResolve(db: Db) {
    forall i :: 0 <= i < |db.ledger| ==>
      db.ledger[i].key.event < |db.events|
        && KindOk(db.ledger[i].val.kind, db.ledger[i].val.amount, db.ledger[i].val.reversed)
      && (db.ledger[i].val.reversed.Some? ==> db.ledger[i].val.reversed.value < |db.ledger|)
  }

  ghost predicate ChargeResolves(db: Db, c: Row<ChargeKey, Charge>) {
    && c.val.points > 0
    && (c.val.status == Completed || c.val.status == Refunded)
    && c.val.ledgerId.Some? && c.val.ledgerId.value < |db.ledger|
    && db.ledger[c.val.ledgerId.value].key.user == c.key.user
    && db.ledger[c.val.ledgerId.value].key.rule == PointCharge(c.val.packageId)
  }

  ghost predicate TxResolves(db: Db, t: Row<TxKey, Tx>) {
    match t.key.operation
    case ChargeOp => Lookup(db.charges, ChargeKey(t.key.user, t.key.idempotencyKey)).Some?
    case RefundOp =>
      t.val.resource.ChargeResource? && Owns(db, t.key.user, t.val.resource.charge)
      && db.charges[t.val.resource.charge].val.status == Refunded
    case AdjustmentOp =>
      t.val.resource == UserResource(t.key.user)
      && t.val.ledgerId.Some? && t.val.ledgerId.value < |db.ledger|
  }

  ghost predicate Linked(db: Db) {
    && Unique(db.events) && Unique(db.ledger) && Unique(db.charges) && Unique(db.txs) && RowsResolve(db)
    && (forall i :: 0 <= i < |db.charges| ==> ChargeResolves(db, db.charges[i]))
    && (forall i :: 0 <= i < |db.txs| ==> TxResolves(db, db.txs[i]))
  }

  ghost predicate Valid(db: Db) {
    CacheAgrees(db) && RunningTotals(db.ledger) && Linked(db)
  }

  lemma EmptyValid()
    ensures Valid(EMPTY_DB)
  {
  }

  lemma RecordKeeps(db: Db, key: EventKey, payload: map<string, string>)
    requires Valid(db)
    ensures var (db', i) := RecordEvent(db, key, payload);
            Valid(db') && i < |db'.events| && db'.events[i].key == key
  {
    var db' := RecordEvent(db, key, payload).0;
    assert forall u :: Balance(db', u) == Balance(db, u);
    assert forall i :: 0 <= i < |db.charges| ==> ChargeResolves(db, db.charges[i]);
    assert forall i :: 0 <= i < |db.txs| ==> TxResolves(db, db.txs[i]);
  }

  lemma PostMoves(db: Db, key: LedgerKey, kind: TransactionType, amount: int, reversed: Option<nat>, u: User)
    ensures var db' := Post(db, key, kind, amount, reversed);
            var change := if u == key.user then amount else 0;
            Balance(db', u) == Balance(db, u) + change
            && LedgerTotal(db'.ledger, u) == LedgerTotal(db.ledger, u) + change
  {
  }

  lemma PostKeepsCache(db: Db, key: LedgerKey, kind: TransactionType, amount: int, reversed: Option<nat>)
    requires CacheAgrees(db) && RunningTotals(db.ledger)
    requires 0 <= Balance(db, key.user) + amount
    ensures var db' := Post(db, key, kind, amount, reversed);
            CacheAgrees(db') && RunningTotals(db'.ledger)
  {
    var db' := Post(db, key, kind, amount, reversed);
    forall u: User
      ensures 0 <= Balance(db', u) == LedgerTotal(db'.ledger, u)
    {
      PostMoves(db, key, kind, amount, reversed, u);
      assert 0 <= Balance(db, u) == LedgerTotal(db.ledger, u);
    }
    forall i | 0 <= i < |db'.ledger|
      ensures db'.ledger[i].val.balanceAfter == LedgerTotal(db'.ledger[..i + 1], db'.ledger[i].key.user)
    {
      if i < |db.ledger| {
        assert db'.ledger[..i + 1] == db.ledger[..i + 1];
      } else {
        assert db'.ledger[..i + 1] == db'.ledger;
        assert 0 <= Balance(db', key.user) == LedgerTotal(db'.ledger, key.user);
      }
    }
  }

  lemma PostKeeps(db: Db, key: LedgerKey, kind: TransactionType, amount: int, reversed: Option<nat>)
    requires Valid(db) && Lookup(db.ledger, key).None? && key.event < |db.events|
    requires 0 <= Balance(db, key.user) + amount
    requires KindOk(kind, amount, reversed) && (reversed.Some? ==> reversed.value < |db.ledger|)
    ensures Valid(Post(db, key, kind, amount, reversed))
  {
    hide Lookup, Sum;
    PostKeepsCache(db, key, kind, amount, reversed);
    assert forall i :: 0 <= i < |db.charges| ==> ChargeResolves(db, db.charges[i]);
    assert forall i :: 0 <= i < |db.txs| ==> TxResolves(db, db.txs[i]);
  }

  lemma GrantKeeps(db: Db, u: User, event: nat, rule: RuleKey, amount: int)
    requires Valid(db)
    ensures var (db', r) := Grant(db, u, event, rule, amount);
            Valid(db') && (r.Ok? ==> r.value < |db'.ledger| && db'.ledger[r.value].key == LedgerKey(u, event, rule))
  {
    if amount > 0 && Lookup(db.ledger, LedgerKey(u, event, rule)).None? && event < |db.events| {
      assert 0 <= Balance(db, u);
      PostKeeps(db, LedgerKey(u, event, rule), Earn, amount, None);
    }
  }

  lemma SpendKeeps(db: Db, u: User, event: nat, rule: RuleKey, amount: int)
    requires Valid(db)
    ensures var (db', r) := SpendPoints(db, u, event, rule, amount);
            Valid(db') && (r.Ok? ==> r.value < |db'.ledger|)
  {
    if amount > 0 && Lookup(db.ledger, LedgerKey(u, event, rule)).None? && event < |db.events|
       && amount <= Balance(db, u) {
      PostKeeps(db, LedgerKey(u, event, rule), Spend, -amount, None);
    }
  }

  lemma ReverseKeeps(db: Db, u: User, event: nat, rule: RuleKey, amount: int, reversed: nat)
    requires Valid(db)
    ensures Valid(ReversePoints(db, u, event, rule, amount, reversed).0)
  {
    if amount > 0 && Lookup(db.ledger, LedgerKey(u, event, rule)).None? && event < |db.events|
      && reversed < |db.ledger| {
      assert 0 <= Balance(db, u);
      PostKeeps(db, LedgerKey(u, event, rule), Reverse, amount, Some(reversed));
    }
  }

  /** Appending a charge, appending transactions that resolve, or refunding keeps what was linked. */
  lemma KeepsLinks(db: Db, db': Db)
    requires Valid(db)
    requires db'.events == db.events && db'.ledger == db.ledger && db'.balances == db.balances
    requires KeysKept(db.charges, db'.charges) && Unique(db'.charges)
    requires forall i :: 0 <= i < |db.charges| && db.charges[i].val.status == Refunded ==>
      db'.charges[i].val.status == Refunded
    requires forall i :: 0 <= i < |db'.charges| ==> ChargeResolves(db', db'.charges[i])
    requires KeysKept(db.txs, db'.txs) && Unique(db'.txs)
    requires forall i :: 0 <= i < |db'.txs| ==> (i < |db.txs| && db'.txs[i] == db.txs[i]) || TxResolves(db', db'.txs[i])
    ensures Valid(db')
  {
    assert forall u :: Balance(db', u) == Balance(db, u);
    forall i | 0 <= i < |db'.txs|
      ensures TxResolves(db', db'.txs[i])
    {
      if i < |db.txs| && db'.txs[i] == db.txs[i] {
        var t := db.txs[i];
        assert TxResolves(db, t);
        if t.key.operation == ChargeOp {
          LookupKept(db.charges, db'.charges, ChargeKey(t.key.user, t.key.idempotencyKey));
        }
      }
    }
  }

  lemma InsertChargeKeeps(db: Db, key: ChargeKey, charge: Charge)
    requires Valid(db) && Lookup(db.charges, key).None?
    requires Lookup(db.txs, TxKey(key.user, ChargeOp, key.idempotencyKey)).None?
    requires ChargeResolves(db, Row(key, charge))
    ensures Valid(InsertCharge(db, key, charge))
  {
    InsertParts(db, key, charge);
    hide Lookup, Sum, Valid, Unique, TxResolves, ChargeResolves;
    KeepsLinks(db, InsertCharge(db, key, charge));
  }

  lemma InsertParts(db: Db, key: ChargeKey, charge: Charge)
    requires Linked(db) && Lookup(db.charges, key).None?
    requires Lookup(db.txs, TxKey(key.user, ChargeOp, key.idempotencyKey)).None?
    requires ChargeResolves(db, Row(key, charge))
    ensures var db' := InsertCharge(db, key, charge);
            && Unique(db'.charges) && Unique(db'.txs) && TxResolves(db', db'.txs[|db.txs|])
            && forall i :: 0 <= i < |db'.charges| ==> ChargeResolves(db', db'.charges[i])
  {
    var db' := InsertCharge(db, key, charge);
    LookupAppend(db.charges, Row(key, charge), key);
    hide Lookup, Sum, RowsResolve;
    forall i | 0 <= i < |db'.charges|
      ensures ChargeResolves(db', db'.charges[i])
    {
      assert i < |db.charges| ==> ChargeResolves(db, db.charges[i]);
    }
  }

  lemma ChargeKeeps(db: Db, u: User, packageId: string, paidBy: string, k: string, package: Package)
    requires Valid(db)
    ensures Valid(CreateCharge(db, u, packageId, paidBy, k, package).0)
  {
    hide Lookup, Sum, Valid;
    var key := ChargeKey(u, k);
    if package.Active? && Lookup(db.charges, key).None? {
      var payload := map["packageId" := packageId, "paymentMethod" := paidBy];
      var (db1, event) := RecordEvent(db, ChargeEventKey(key), payload);
      RecordKeeps(db, ChargeEventKey(key), payload);
      var (db2, granted) := Grant(db1, u, event, PointCharge(packageId), package.points);
      GrantKeeps(db1, u, event, PointCharge(packageId), package.points);
      if granted.Ok? && Lookup(db2.txs, TxKey(u, ChargeOp, k)).None? {
        InsertChargeKeeps(db2, key,
                          Charge(packageId, paidBy, package.points, package.priceWon, Completed, Some(granted.value)));
      }
    }
  }

  lemma SettleRefundKeeps(db: Db, charge: nat, k: string)
    requires Valid(db) && charge < |db.charges| && Lookup(db.txs, TxKey(db.charges[charge].key.user, RefundOp, k)).None?
    ensures Valid(SettleRefund(db, charge, k))
  {
    hide Lookup, Sum;
    assert forall i :: 0 <= i < |db.charges| ==> ChargeResolves(db, db.charges[i]);
    KeepsLinks(db, SettleRefund(db, charge, k));
  }

  lemma RefundKeeps(db: Db, u: User, charge: nat, k: string)
    requires Valid(db)
    ensures Valid(RefundCharge(db, u, charge, k).0)
  {
    hide Lookup, Sum, SettleRefund;
    var (db', r) := RefundCharge(db, u, charge, k);
    if Lookup(db.txs, TxKey(u, RefundOp, k)).None? && r.Ok? && db.charges[charge].val.status == Completed {
      var c := db.charges[charge].val;
      assert ChargeResolves(db, db.charges[charge]);
      var (db1, event) := RecordEvent(db, RefundEventKey(u, charge), map[]);
      RecordKeeps(db, RefundEventKey(u, charge), map[]);
      var key := LedgerKey(u, event, ChargeRefund(charge));
      PostKeeps(db1, key, Reverse, -c.points, c.ledgerId);
      SettleRefundKeeps(Post(db1, key, Reverse, -c.points, c.ledgerId), charge, k);
    }
  }

  lemma SaveAdjustmentKeeps(db: Db, u: User, amount: int, k: string, row: nat)
    requires Valid(db) && row < |db.ledger|
    ensures Valid(SaveAdjustment(db, u, amount, k, row))
  {
    KeepsLinks(db, SaveAdjustment(db, u, amount, k, row));
  }

  lemma AdjustKeeps(db: Db, u: User, amount: int, k: string)
    requires Valid(db)
    ensures Valid(Adjust(db, u, amount, k).0)
  {
    var (db1, event) := RecordEvent(db, AdjustmentEventKey(u, k), map[]);
    RecordKeeps(db, AdjustmentEventKey(u, k), map[]);
    GrantKeeps(db1, u, event, AdminAdjustment, amount);
    SpendKeeps(db1, u, event, AdminAdjustment, -amount);
    var (db2, posted) :=
      if amount > 0 then Grant(db1, u, event, AdminAdjustment, amount)
      else SpendPoints(db1, u, event, AdminAdjustment, -amount);
    if posted.Ok? {
      SaveAdjustmentKeeps(db2, u, amount, k, posted.value);
    }
  }

  lemma StepKeeps(db: Db, c: Command)
    requires Valid(db)
    ensures Valid(Step(db, c).0)
  {
    hide Valid, RecordEvent, Grant, SpendPoints, ReversePoints, CreateCharge, RefundCharge, Adjust;
    match c
    case DoRecord(key, payload) => RecordKeeps(db, key, payload);
    case DoGrant(u, event, rule, amount) => GrantKeeps(db, u, event, rule, amount);
    case DoSpend(u, event, rule, amount) => SpendKeeps(db, u, event, rule, amount);
    case DoReverse(u, event, rule, amount, reversed) => ReverseKeeps(db, u, event, rule, amount, reversed);
    case DoCharge(u, packageId, paidBy, k, package) => ChargeKeeps(db, u, packageId, paidBy, k, package);
    case DoRefund(u, charge, k) => RefundKeeps(db, u, charge, k);
    case DoAdjust(u, amount, k) => AdjustKeeps(db, u, amount, k);
  }

  /** The change a command that posts under its own key makes to the balance, and how the row is marked. */
  function Signed(c: Command): int
    requires Posts(c)
  {
    if c.DoSpend? then -c.amount else c.amount
  }

  predicate Posts(c: Command) {
    c.DoGrant? || c.DoSpend? || c.DoReverse?
  }

  /**
   Exactly when a grant, spend or reversal goes through, and what it does: the first one under a key
   moves its user's balance by the signed amount and leaves one row that says so; a later one moves nothing.
   */
  lemma PostingAcceptedIff(db: Db, c: Command)
    requires Valid(db) && Posts(c)
    ensures var (db', r) := Step(db, c);
            var known := Lookup(db.ledger, LedgerKey(c.user, c.event, c.rule)).Some?;
            && (r.Ok? <==> c.amount > 0 && (known || (c.event < |db.events| && 0 <= Balance(db, c.user) + Signed(c)
                                                      && (c.DoReverse? ==> c.reversed < |db.ledger|))))
            && (forall v: User ::
                  Balance(db', v) == Balance(db, v) + if v == c.user && r.Ok? && !known then Signed(c) else 0)
            && (r.Ok? ==> r.value < |db'.ledger| && db'.ledger[r.value].key == LedgerKey(c.user, c.event, c.rule))
            && (if r.Ok? && !known
                then db'.ledger == db.ledger + [db'.ledger[r.value]] && db'.ledger[r.value].val.amount == Signed(c)
                     && db'.ledger[r.value].val.reversed == if c.DoReverse? then Some(c.reversed) else None
                else db' == db)
  {
    assert 0 <= Balance(db, c.user);
  }

  /** Why a posting is refused. */
  lemma PostingRefusal(db: Db, c: Command)
    requires Valid(db) && Posts(c) && Step(db, c).1.Err?
    ensures Step(db, c).1.error == if c.amount <= 0 then InvalidAmount
                                   else if c.DoSpend? && Balance(db, c.user) < c.amount then InsufficientPoints
                                   else IntegrityViolation
  {
    assert 0 <= Balance(db, c.user);
    hide Lookup, Sum;
  }

  /** No run of commands over any users ever lets the cache, a row or a link go wrong. */
  lemma {:induction false} RunKeeps(db: Db, cs: seq<Command>)
    requires Valid(db)
    ensures Valid(Run(db, cs))
    decreases |cs|
  {
    if |cs| > 0 {
      StepKeeps(db, cs[0]);
      RunKeeps(Step(db, cs[0]).0, cs[1..]);
    }
  }
}

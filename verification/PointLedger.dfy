/**
 The point commands as functions from tables to tables. A command is one transaction:
 an error leaves the tables as they were.
 */
module PointLedger {
  import opened Wrappers
  import opened Tables
  import opened PointTables

  function RecordEvent(db: Db, key: EventKey, payload: map<string, string>): (Db, nat) {
    match Lookup(db.events, key)
    case Some(i) => (db, i)
    case None => (db.(events := db.events + [Row(key, payload)]), |db.events|)
  }

  /** One ledger row together with the balance update it describes. */
  function Post(db: Db, key: LedgerKey, kind: TransactionType, amount: int, reversed: Option<nat>): Db {
    var after := Balance(db, key.user) + amount;
    db.(balances := db.balances[key.user := after],
        ledger := db.ledger + [Row(key, Posting(kind, amount, after, reversed))])
  }

  function Grant(db: Db, u: User, event: nat, rule: RuleKey, amount: int): (Db, Result<nat, Error>) {
    var key := LedgerKey(u, event, rule);
    if amount <= 0 then (db, Err(InvalidAmount))
    else match Lookup(db.ledger, key)
      case Some(i) => (db, Ok(i))
      case None =>
        if event >= |db.events| then (db, Err(IntegrityViolation))
        else (Post(db, key, Earn, amount, None), Ok(|db.ledger|))
  }

  function SpendPoints(db: Db, u: User, event: nat, rule: RuleKey, amount: int): (Db, Result<nat, Error>) {
    var key := LedgerKey(u, event, rule);
    if amount <= 0 then (db, Err(InvalidAmount))
    else match Lookup(db.ledger, key)
      case Some(i) => (db, Ok(i))
      case None =>
        if u !in db.balances || db.balances[u] < amount then (db, Err(InsufficientPoints))
        else if event >= |db.events| then (db, Err(IntegrityViolation))
        else (Post(db, key, Spend, -amount, None), Ok(|db.ledger|))
  }

  function ReversePoints(db: Db, u: User, event: nat, rule: RuleKey, amount: int, reversed: nat)
    : (Db, Result<nat, Error>)
  {
    var key := LedgerKey(u, event, rule);
    if amount <= 0 then (db, Err(InvalidAmount))
    else match Lookup(db.ledger, key)
      case Some(i) => (db, Ok(i))
      case None =>
        if event >= |db.events| || reversed >= |db.ledger| then (db, Err(IntegrityViolation))
        else (Post(db, key, Reverse, amount, Some(reversed)), Ok(|db.ledger|))
  }

  /** How a package id resolves against the catalog and the clock at the time of the call. */
  datatype Package = Missing | Inactive | Unpublished | Active(points: int, priceWon: int)

  function ChargeEventKey(key: ChargeKey): EventKey {
    EventKey(key.user, "points_charged", "point_charge", ChargeRequest(key.user, key.idempotencyKey))
  }

  /** The charge together with its idempotency record. */
  function InsertCharge(db: Db, key: ChargeKey, charge: Charge): Db {
    db.(charges := db.charges + [Row(key, charge)],
        txs := db.txs + [Row(TxKey(key.user, ChargeOp, key.idempotencyKey),
                             Tx(charge.points, ChargeResource(|db.charges|), charge.ledgerId))])
  }

  function CreateCharge(db: Db, u: User, packageId: string, paidBy: string, k: string, package: Package)
    : (Db, Result<nat, Error>)
  {
    var key := ChargeKey(u, k);
    match package
    case Missing => (db, Err(PackageNotFound))
    case Inactive => (db, Err(PackageInactive))
    case Unpublished => (db, Err(PackageNotPublished))
    case Active(points, priceWon) =>
      match Lookup(db.charges, key)
      case Some(c) => (db, Ok(c))
      case None =>
        var (db1, event) := RecordEvent(db, ChargeEventKey(key),
                                        map["packageId" := packageId, "paymentMethod" := paidBy]);
        var (db2, granted) := Grant(db1, u, event, PointCharge(packageId), points);
        if granted.Err? then (db, Err(granted.error))
        else if Lookup(db2.txs, TxKey(u, ChargeOp, k)).Some? then (db, Err(IntegrityViolation))
        else
          (InsertCharge(db2, key, Charge(packageId, paidBy, points, priceWon, Completed, Some(granted.value))),
           Ok(|db.charges|))
  }

  predicate Owns(db: Db, u: User, charge: nat) {
    charge < |db.charges| && db.charges[charge].key.user == u
  }

  function RefundEventKey(u: User, charge: nat): EventKey {
    EventKey(u, "points_refunded", "point_charge_refund", ChargeRow(charge))
  }

  /** The charge marked refunded, together with the refund's idempotency record. */
  function SettleRefund(db: Db, charge: nat, k: string): Db
    requires charge < |db.charges|
  {
    var row := db.charges[charge];
    db.(charges := db.charges[charge := row.(val := row.val.(status := Refunded))],
        txs := db.txs + [Row(TxKey(row.key.user, RefundOp, k), Tx(-row.val.points, ChargeResource(charge), None))])
  }

  function RefundCharge(db: Db, u: User, charge: nat, k: string): (Db, Result<nat, Error>) {
    match Lookup(db.txs, TxKey(u, RefundOp, k))
    case Some(t) =>
      if db.txs[t].val.resource != ChargeResource(charge) then (db, Err(KeyReused))
      else if !Owns(db, u, charge) then (db, Err(ChargeNotFound))
      else (db, Ok(charge))
    case None =>
      if !Owns(db, u, charge) then (db, Err(ChargeNotFound))
      else
        var c := db.charges[charge].val;
        if c.status == Refunded then (db, Ok(charge))
        else if c.status != Completed || c.ledgerId.None? then (db, Err(ChargeNotRefundable))
        else
          var (db1, event) := RecordEvent(db, RefundEventKey(u, charge), map[]);
          var key := LedgerKey(u, event, ChargeRefund(charge));
          if Balance(db1, u) < c.points then (db, Err(RefundBalance))
          else if Lookup(db1.ledger, key).Some? then (db, Err(IntegrityViolation))
          else
            (SettleRefund(Post(db1, key, Reverse, -c.points, c.ledgerId), charge, k), Ok(charge))
  }

  function AdjustmentEventKey(u: User, k: string): EventKey {
    EventKey(u, "points_adjusted", "admin_point_adjustment", AdjustmentRequest(u, k))
  }

  /** The ledger row, and whether the call replayed an earlier one. */
  datatype Adjusted = Adjusted(row: nat, replayed: bool)

  /** Point the adjustment's idempotency record, new or found, at its ledger row. */
  function SaveAdjustment(db: Db, u: User, amount: int, k: string, row: nat): Db {
    var key := TxKey(u, AdjustmentOp, k);
    var tx := Row(key, Tx(amount, UserResource(u), Some(row)));
    match Lookup(db.txs, key)
    case Some(i) => db.(txs := db.txs[i := tx])
    case None => db.(txs := db.txs + [tx])
  }

  function Adjust(db: Db, u: User, amount: int, k: string): (Db, Result<Adjusted, Error>) {
    if amount == 0 then (db, Err(InvalidAmount))
    else
      var existing := Lookup(db.txs, TxKey(u, AdjustmentOp, k));
      if existing.Some? && (db.txs[existing.value].val.amount != amount
                            || db.txs[existing.value].val.resource != UserResource(u)) then
        (db, Err(KeyReused))
      else if existing.Some? && db.txs[existing.value].val.ledgerId.Some?
              && db.txs[existing.value].val.ledgerId.value < |db.ledger| then
        (db, Ok(Adjusted(db.txs[existing.value].val.ledgerId.value, true)))
      else
        var (db1, event) := RecordEvent(db, AdjustmentEventKey(u, k), map[]);
        var (db2, posted) :=
          if amount > 0 then Grant(db1, u, event, AdminAdjustment, amount)
          else SpendPoints(db1, u, event, AdminAdjustment, -amount);
        if posted.Err? then (db, Err(posted.error))
        else
          (SaveAdjustment(db2, u, amount, k, posted.value), Ok(Adjusted(posted.value, false)))
  }

  datatype Command =
    | DoRecord(key: EventKey, payload: map<string, string>)
    | DoGrant(user: User, event: nat, rule: RuleKey, amount: int)
    | DoSpend(user: User, event: nat, rule: RuleKey, amount: int)
    | DoReverse(user: User, event: nat, rule: RuleKey, amount: int, reversed: nat)
    | DoCharge(user: User, packageId: string, paidBy: string, idempotencyKey: string, package: Package)
    | DoRefund(user: User, charge: nat, idempotencyKey: string)
    | DoAdjust(user: User, amount: int, idempotencyKey: string)

  /** Each command answers with the primary key of the row it created or found. */
  function Step(db: Db, c: Command): (Db, Result<nat, Error>) {
    match c
    case DoRecord(key, payload) => var (db', i) := RecordEvent(db, key, payload); (db', Ok(i))
    case DoGrant(u, event, rule, amount) => Grant(db, u, event, rule, amount)
    case DoSpend(u, event, rule, amount) => SpendPoints(db, u, event, rule, amount)
    case DoReverse(u, event, rule, amount, reversed) => ReversePoints(db, u, event, rule, amount, reversed)
    case DoCharge(u, packageId, paidBy, k, package) => CreateCharge(db, u, packageId, paidBy, k, package)
    case DoRefund(u, charge, k) => RefundCharge(db, u, charge, k)
    case DoAdjust(u, amount, k) =>
      var (db', r) := Adjust(db, u, amount, k);
      (db', if r.Ok? then Ok(r.value.row) else Err(r.error))
  }

  function Run(db: Db, cs: seq<Command>): Db
    decreases |cs|
  {
    if |cs| == 0 then db else Run(Step(db, cs[0]).0, cs[1..])
  }
}

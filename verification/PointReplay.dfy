/** Replaying a command with its original key and arguments, after any other commands. */
module PointReplay {
  import opened Wrappers
  import opened Tables
  import opened PointTables
  import opened PointLedger
  import opened PointInvariant

  /** The later tables hold everything the earlier ones did; a charge may only have been refunded. */
  ghost predicate Extends(a: Db, b: Db) {
    && a.events <= b.events && a.ledger <= b.ledger && a.txs <= b.txs
    && KeysKept(a.charges, b.charges)
    && (forall i :: 0 <= i < |a.charges| ==>
          b.charges[i].val == a.charges[i].val || b.charges[i].val == a.charges[i].val.(status := Refunded))
  }

  /** An adjustment found under its key always names its ledger row, so the call is a replay. */
  lemma FoundAdjustmentReplays(db: Db, u: User, amount: int, k: string)
    requires Valid(db) && Lookup(db.txs, TxKey(u, AdjustmentOp, k)).Some?
    ensures Adjust(db, u, amount, k).0 == db
    ensures var r := Adjust(db, u, amount, k).1;
            r.Ok? ==> Settled(db, DoAdjust(u, amount, k), r.value.row)
  {
  }

  /** A first adjustment, step by step. */
  lemma FirstAdjustment(db: Db, u: User, amount: int, k: string)
    requires Valid(db) && Lookup(db.txs, TxKey(u, AdjustmentOp, k)).None? && Adjust(db, u, amount, k).1.Ok?
    ensures var (db', r) := Adjust(db, u, amount, k);
            Extends(db, db') && Settled(db', DoAdjust(u, amount, k), r.value.row)
  {
    hide Lookup, Sum;
    var (db1, event) := RecordEvent(db, AdjustmentEventKey(u, k), map[]);
    var (db2, posted) :=
      if amount > 0 then Grant(db1, u, event, AdminAdjustment, amount)
      else SpendPoints(db1, u, event, AdminAdjustment, -amount);
    assert Extends(db, db1);
    assert Extends(db1, db2) && posted.value < |db2.ledger| && db2.txs == db.txs;
    var db' := SaveAdjustment(db2, u, amount, k, posted.value);
    assert Extends(db2, db');
    assert db'.txs[|db.txs|].key == TxKey(u, AdjustmentOp, k);
    assert Lookup(db'.txs, TxKey(u, AdjustmentOp, k)) == Some(|db.txs|);
  }

  lemma AdjustExtends(db: Db, u: User, amount: int, k: string)
    requires Valid(db)
    ensures var (db', r) := Adjust(db, u, amount, k);
            Extends(db, db') && (r.Ok? ==> Settled(db', DoAdjust(u, amount, k), r.value.row))
  {
    if Lookup(db.txs, TxKey(u, AdjustmentOp, k)).Some? {
      FoundAdjustmentReplays(db, u, amount, k);
    } else if Adjust(db, u, amount, k).1.Ok? {
      FirstAdjustment(db, u, amount, k);
    }
  }

  lemma RefundExtends(db: Db, u: User, charge: nat, k: string)
    ensures Extends(db, RefundCharge(db, u, charge, k).0)
  {
    hide Lookup, Sum;
  }

  lemma ChargeExtends(db: Db, u: User, packageId: string, paidBy: string, k: string, package: Package)
    ensures var (db', r) := CreateCharge(db, u, packageId, paidBy, k, package);
            Extends(db, db') && (r.Ok? ==> Lookup(db'.charges, ChargeKey(u, k)) == Some(r.value))
  {
    hide Lookup, Sum;
    var key := ChargeKey(u, k);
    if package.Active? && Lookup(db.charges, key).None? {
      var payload := map["packageId" := packageId, "paymentMethod" := paidBy];
      var (db1, event) := RecordEvent(db, ChargeEventKey(key), payload);
      var (db2, granted) := Grant(db1, u, event, PointCharge(packageId), package.points);
      assert Extends(db, db1);
      assert Extends(db1, db2) && db2.charges == db.charges;
      if granted.Ok? {
        var db' := InsertCharge(db2, key,
                                Charge(packageId, paidBy, package.points, package.priceWon, Completed,
                                       Some(granted.value)));
        assert Extends(db2, db') && db'.charges[|db.charges|].key == key;
      }
    }
  }

  /** Nothing recorded is ever lost or rewritten: the ledger and the transactions only grow. */
  lemma StepExtends(db: Db, c: Command)
    requires Valid(db)
    ensures Extends(db, Step(db, c).0)
  {
    hide Lookup, Sum, CreateCharge, RefundCharge, Adjust;
    match c
    case DoCharge(u, packageId, paidBy, k, package) => ChargeExtends(db, u, packageId, paidBy, k, package);
    case DoRefund(u, charge, k) => RefundExtends(db, u, charge, k);
    case DoAdjust(u, amount, k) =>
      AdjustExtends(db, u, amount, k);
    case _ =>
  }

  lemma {:induction false} RunExtends(db: Db, cs: seq<Command>)
    requires Valid(db)
    ensures Extends(db, Run(db, cs))
    decreases |cs|
  {
    if |cs| > 0 {
      StepKeeps(db, cs[0]);
      StepExtends(db, cs[0]);
      RunExtends(Step(db, cs[0]).0, cs[1..]);
    }
  }

  /** The tables already hold the outcome `id` of command `c`. */
  ghost predicate Settled(db: Db, c: Command, id: nat) {
    match c
    case DoRecord(key, _) => Lookup(db.events, key) == Some(id)
    case DoGrant(u, event, rule, amount) => amount > 0 && Lookup(db.ledger, LedgerKey(u, event, rule)) == Some(id)
    case DoSpend(u, event, rule, amount) => amount > 0 && Lookup(db.ledger, LedgerKey(u, event, rule)) == Some(id)
    case DoReverse(u, event, rule, amount, _) => amount > 0 && Lookup(db.ledger, LedgerKey(u, event, rule)) == Some(id)
    case DoCharge(u, _, _, k, _) => Lookup(db.charges, ChargeKey(u, k)) == Some(id)
    case DoRefund(u, charge, k) => id == charge && Owns(db, u, charge) && db.charges[charge].val.status == Refunded
    case DoAdjust(u, amount, k) =>
      var t := Lookup(db.txs, TxKey(u, AdjustmentOp, k));
      amount != 0 && id < |db.ledger| && t.Some? && db.txs[t.value].val == Tx(amount, UserResource(u), Some(id))
  }

  lemma RefundSettles(db: Db, u: User, charge: nat, k: string)
    requires Valid(db) && RefundCharge(db, u, charge, k).1.Ok?
    ensures var (db', r) := RefundCharge(db, u, charge, k); Settled(db', DoRefund(u, charge, k), r.value)
  {
  }

  lemma StepSettles(db: Db, c: Command)
    requires Valid(db) && Step(db, c).1.Ok?
    ensures var (db', r) := Step(db, c); Settled(db', c, r.value)
  {
    hide Sum, Valid, CreateCharge, RefundCharge, Adjust;
    match c
    case DoRefund(u, charge, k) => RefundSettles(db, u, charge, k);
    case DoCharge(u, packageId, paidBy, k, package) => ChargeExtends(db, u, packageId, paidBy, k, package);
    case DoAdjust(u, amount, k) =>
      AdjustExtends(db, u, amount, k);
    case _ =>
  }

  lemma SettledKept(a: Db, b: Db, c: Command, id: nat)
    requires Settled(a, c, id) && Extends(a, b)
    ensures Settled(b, c, id)
  {
  }

  /** The same request; what the catalog says about its package may have changed since. */
  ghost predicate SameRequest(c: Command, again: Command) {
    if c.DoCharge? then again.DoCharge? && c == again.(package := c.package) else c == again
  }

  /** Whether the guards that run before the idempotency lookups let this request through. */
  predicate ReplayOpen(db: Db, c: Command) {
    match c
    case DoCharge(_, _, _, _, package) => package.Active?
    case DoRefund(u, charge, k) =>
      var t := Lookup(db.txs, TxKey(u, RefundOp, k));
      t.Some? ==> db.txs[t.value].val.resource == ChargeResource(charge)
    case _ => true
  }

  /** A settled request changes nothing and returns its result again, or is stopped by the guards. */
  lemma SettledReplays(db: Db, c: Command, id: nat, again: Command)
    requires Valid(db) && Settled(db, c, id) && SameRequest(c, again)
    ensures Step(db, again) == (db, Ok(id)) <==> ReplayOpen(db, again)
    ensures !ReplayOpen(db, again) ==> Step(db, again).0 == db && Step(db, again).1.Err?
  {
    hide Lookup, Sum, Valid;
  }

  /**
   Replay: after any other commands, the same request changes no table and returns the first
   result exactly when it gets past the guards: a charge needs its package to be on sale still,
   and a refund key must not have been taken by another charge's refund in between.
   */
  lemma Replay(db: Db, c: Command, others: seq<Command>, again: Command)
    requires Valid(db) && Step(db, c).1.Ok? && SameRequest(c, again)
    ensures var (db1, first) := Step(db, c);
            var db2 := Run(db1, others);
            (Step(db2, again) == (db2, first) <==> ReplayOpen(db2, again))
            && (!ReplayOpen(db2, again) ==> Step(db2, again).0 == db2 && Step(db2, again).1.Err?)
  {
    hide Step, Settled, Extends, ReplayOpen, SameRequest, Valid;
    var (db1, first) := Step(db, c);
    var db2 := Run(db1, others);
    StepKeeps(db, c);
    StepSettles(db, c);
    RunKeeps(db1, others);
    RunExtends(db1, others);
    SettledKept(db1, db2, c, first.value);
    SettledReplays(db2, c, first.value, again);
  }

  /** A refused command leaves every table as it was. */
  lemma RefusedChangesNothing(db: Db, c: Command)
    requires Step(db, c).1.Err?
    ensures Step(db, c).0 == db
  {
    hide Lookup, Sum;
  }

  /** An adjustment that goes through says that it is a replay exactly if its key was used before. */
  lemma ReplayedFlagIff(db: Db, u: User, amount: int, k: string)
    requires Valid(db) && Adjust(db, u, amount, k).1.Ok?
    ensures Adjust(db, u, amount, k).1.value.replayed <==> Lookup(db.txs, TxKey(u, AdjustmentOp, k)).Some?
  {
    var found := Lookup(db.txs, TxKey(u, AdjustmentOp, k));
    if found.Some? {
      assert TxResolves(db, db.txs[found.value]);
    }
    hide Lookup;
  }

  /** An event keeps what it was first recorded with, whatever is recorded under its key later. */
  lemma FirstRecordStands(db: Db, key: EventKey, payload: map<string, string>, others: seq<Command>,
                          again: map<string, string>)
    requires Valid(db) && Lookup(db.events, key).None?
    ensures var (db1, first) := Step(db, DoRecord(key, payload));
            var (db2, second) := Step(Run(db1, others), DoRecord(key, again));
            first == second == Ok(|db.events|) && db2 == Run(db1, others)
            && |db.events| < |db2.events| && db2.events[|db.events|] == Row(key, payload)
  {
    var c := DoRecord(key, payload);
    Replay(db, c, others, c);
    var db1 := Step(db, c).0;
    StepKeeps(db, c);
    RunExtends(db1, others);
    assert db1.events[|db.events|] == Row(key, payload);
  }
}

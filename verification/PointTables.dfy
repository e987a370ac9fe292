/** The tables of the point economy: engagement events, ledger, cached balances, charges, transactions. */
module PointTables {
  import opened Wrappers
  import opened Tables

  type User = string

  /** What an engagement event's source id names. The program builds these ids as text. */
  datatype SourceId =
    | ChargeRequest(user: User, idempotencyKey: string)
    | ChargeRow(charge: nat)
    | AdjustmentRequest(user: User, idempotencyKey: string)
    | Text(text: string)

  datatype EventKey = EventKey(user: User, kind: string, sourceType: string, source: SourceId)
  type Event = Row<EventKey, map<string, string>>

  /** The stretch of time over which a mission counts, as its recurrence cuts it. */
  datatype Period = Day(day: int) | Week(week: int) | Season(startsAt: Option<int>, endsAt: Option<int>) | Once

  /** The rule keys under which services post to the point, XP and reward ledgers. */
  datatype RuleKey =
    | PointCharge(packageId: string)
    | ChargeRefund(charge: nat)
    | AdminAdjustment
    | EventKind(kind: string)
    | Mission(mission: string, period: Period)
    | Achievement(achievement: string)
    | PassPurchase(season: string)
    | PassTier(tier: string, track: string)
    | Other(text: string)

  datatype LedgerKey = LedgerKey(user: User, event: nat, rule: RuleKey)
  datatype TransactionType = Earn | Spend | Reverse
  datatype Posting = Posting(kind: TransactionType, amount: int, balanceAfter: int, reversed: Option<nat>)
  type LedgerRow = Row<LedgerKey, Posting>

  datatype ChargeStatus = Completed | Refunded | Failed | Cancelled
  datatype ChargeKey = ChargeKey(user: User, idempotencyKey: string)
  datatype Charge = Charge(packageId: string, paidBy: string, points: int, priceWon: int,
                           status: ChargeStatus, ledgerId: Option<nat>)

  datatype Operation = ChargeOp | RefundOp | AdjustmentOp
  datatype TxKey = TxKey(user: User, operation: Operation, idempotencyKey: string)
  datatype Resource = ChargeResource(charge: nat) | UserResource(user: User)
  datatype Tx = Tx(amount: int, resource: Resource, ledgerId: Option<nat>)

  datatype Db = Db(
    events: seq<Event>,
    ledger: seq<LedgerRow>,
    balances: map<User, int>,
    charges: seq<Row<ChargeKey, Charge>>,
    txs: seq<Row<TxKey, Tx>>)

  const EMPTY_DB := Db([], [], map[], [], [])

  datatype Error =
    | InvalidAmount | InsufficientPoints | IntegrityViolation
    | PackageNotFound | PackageInactive | PackageNotPublished
    | ChargeNotFound | ChargeNotRefundable | RefundBalance | KeyReused
    | TransactionAborted

  /** The cached balance; a user without a balance row has none. */
  function Balance(db: Db, u: User): int {
    if u in db.balances then db.balances[u] else 0
  }

  /** A ledger row's contribution to the total of user `u`. */
  function AmountOf(u: User): LedgerRow -> int {
    (r: LedgerRow) => if r.key.user == u then r.val.amount else 0
  }

  /** The simple sum that the cached balance stands for. */
  function LedgerTotal(ledger: seq<LedgerRow>, u: User): int {
    Sum(ledger, AmountOf(u))
  }
}

/** Growth events: what one attempt at an event does, as functions from state to state. */
module GrowthTables {
  import opened Wrappers
  import opened Tables
  import opened PointTables
  import PointLedger
  import opened Retry

  datatype EventStatus = Pending | Failed | Processed | Dead
  datatype Work = Work(status: EventStatus, attempts: nat, nextAttemptAt: Option<int>)

  type XpRow = Row<LedgerKey, int>

  datatype FanLevel = FanLevel(totalXp: int, level: int)

  datatype Progress = Progress(current: int, completed: bool)
  datatype Slot = Slot(user: User, mission: string, period: Period)

  datatype Recurrence = Daily | Weekly | Seasonal | Single

  /** A published mission. A condition lists the payload values it accepts. */
  datatype MissionDef = MissionDef(
    id: string, eventKind: string, conditions: map<string, set<string>>,
    organization: Option<string>, artist: Option<string>,
    recurrence: Recurrence, startsAt: Option<int>, endsAt: Option<int>,
    target: int, xp: int, points: int, reward: Option<string>)

  datatype AchievementDef = AchievementDef(id: string, target: int, xpBonus: int, reward: Option<string>)

  /** One processed event with everything that decided what it was worth. */
  datatype Outcome = Outcome(key: EventKey, payload: map<string, string>, eligible: bool,
                             organization: Option<string>, measured: seq<(AchievementDef, int)>, now: int)

  /** `log` is the history of processed events; the program does not read it. */
  datatype State = State(
    db: Db,
    work: map<nat, Work>,
    xp: seq<XpRow>,
    levels: map<User, FanLevel>,
    missions: map<Slot, Progress>,
    achievements: map<(User, string), Progress>,
    rewards: seq<Row<LedgerKey, string>>,
    log: seq<Row<nat, Outcome>>)

  datatype Threshold = Threshold(level: int, requiredXp: int)

  /** What an attempt finds in the tables that this model does not keep, and on the clock. */
  datatype Env = Env(
    eligible: bool,
    organization: Option<string>,
    achievements: seq<(AchievementDef, int)>,
    publishedRewards: set<string>,
    levelPolicy: Option<seq<Threshold>>,
    now: int)

  datatype GrowthError = RewardNotPublished | PointsRefused | Crashed | EventNotFound

  function WorkOf(s: State, e: nat): Work {
    if e in s.work then s.work[e] else Work(Pending, 0, None)
  }

  function XpOf(u: User): XpRow -> int {
    (r: XpRow) => if r.key.user == u then r.val else 0
  }

  /** The highest level among the thresholds reached, 1 when none is. */
  function HighestLevel(ts: seq<Threshold>, xp: int): (level: Option<int>)
    ensures level.None? <==> forall t :: t in ts ==> t.requiredXp > Max(0, xp)
    ensures level.Some? ==> exists t :: t in ts && t.requiredXp <= Max(0, xp) && t.level == level.value
    ensures level.Some? ==> forall t :: t in ts && t.requiredXp <= Max(0, xp) ==> t.level <= level.value
  {
    if |ts| == 0 then None
    else
      var rest := HighestLevel(ts[1..], xp);
      assert ts == [ts[0]] + ts[1..];
      if ts[0].requiredXp <= Max(0, xp) && (rest.None? || rest.value <= ts[0].level) then Some(ts[0].level) else rest
  }

  /** A stored level of 0 reads as missing; the table only admits levels from 1. */
  function LevelForTotalXp(policy: Option<seq<Threshold>>, xp: int): int {
    match policy
    case None => Max(1, xp / 100 + 1)
    case Some(ts) => (match HighestLevel(ts, xp) case None => 1 case Some(l) => if l == 0 then 1 else l)
  }

  /** More experience never lowers the level under one policy. */
  lemma LevelNeverFalls(policy: Option<seq<Threshold>>, a: int, b: int)
    requires a <= b && (policy.Some? ==> forall t :: t in policy.value ==> t.level >= 1)
    ensures 1 <= LevelForTotalXp(policy, a) <= LevelForTotalXp(policy, b)
  {
  }

  function GrantXp(s: State, env: Env, key: LedgerKey, amount: int): State {
    if Lookup(s.xp, key).Some? then s
    else
      var xp := s.xp + [Row(key, amount)];
      var total := Sum(xp, XpOf(key.user));
      s.(xp := xp, levels := s.levels[key.user := FanLevel(total, LevelForTotalXp(env.levelPolicy, total))])
  }

  function GrantReward(s: State, env: Env, key: LedgerKey, reward: string): Result<State, GrowthError> {
    if Lookup(s.rewards, key).Some? then Ok(s)
    else if reward !in env.publishedRewards then Err(RewardNotPublished)
    else Ok(s.(rewards := s.rewards + [Row(key, reward)]))
  }

  const CARD_COLLECTION_XP := 30

  function BaseXpFor(kind: string): int {
    if kind == "card_collected" then CARD_COLLECTION_XP
    else if kind == "card_revoked" then -CARD_COLLECTION_XP
    else 0
  }

  const DAY := 86400

  /** Seconds since 1970, a Thursday, cut into days and into ISO weeks from Monday. */
  function MissionPeriod(m: MissionDef, now: int): Period {
    match m.recurrence
    case Daily => Day(now / DAY)
    case Weekly => Week((now / DAY + 3) / 7)
    case Seasonal => Season(m.startsAt, m.endsAt)
    case Single => Once
  }

  function PayloadValue(payload: map<string, string>, field: string): Option<string> {
    if field in payload then Some(payload[field]) else None
  }

  predicate Matches(m: MissionDef, o: Outcome) {
    && m.eventKind == o.key.kind
    && (m.startsAt.Some? ==> m.startsAt.value <= o.now)
    && (m.endsAt.Some? ==> o.now <= m.endsAt.value)
    && (m.organization.Some? ==> m.organization == o.organization)
    && (m.artist.Some? ==> m.artist == PayloadValue(o.payload, "artistId"))
    && (forall f :: f in m.conditions ==> f in o.payload && o.payload[f] in m.conditions[f])
  }

  /** A collected card whose source is not eligible counts for nothing but achievements. */
  predicate Counts(o: Outcome) {
    o.key.kind != "card_collected" || o.eligible
  }

  function Matching(defs: seq<MissionDef>, o: Outcome): (ms: seq<MissionDef>)
    ensures forall m :: m in ms <==> m in defs && Counts(o) && Matches(m, o)
  {
    if |defs| == 0 then []
    else
      var last := |defs| - 1;
      assert defs == defs[..last] + [defs[last]];
      Matching(defs[..last], o) + if Counts(o) && Matches(defs[last], o) then [defs[last]] else []
  }

  function ProgressAt(s: State, slot: Slot): Progress {
    if slot in s.missions then s.missions[slot] else Progress(0, false)
  }

  function DeliverXp(s: State, env: Env, key: LedgerKey, amount: int): State {
    if amount == 0 then s else GrantXp(s, env, key, amount)
  }

  function DeliverPoints(s: State, key: LedgerKey, amount: int): Result<State, GrowthError> {
    if amount == 0 then Ok(s)
    else
      var (db, r) := PointLedger.Grant(s.db, key.user, key.event, key.rule, amount);
      if r.Ok? then Ok(s.(db := db)) else Err(PointsRefused)
  }

  function DeliverReward(s: State, env: Env, key: LedgerKey, reward: Option<string>): Result<State, GrowthError> {
    if reward.None? then Ok(s) else GrantReward(s, env, key, reward.value)
  }

  /** Everything a completed mission promises, under the rule key of the mission and its period. */
  function DeliverMission(s: State, env: Env, key: LedgerKey, m: MissionDef): Result<State, GrowthError> {
    match DeliverPoints(DeliverXp(s, env, key, m.xp), key, m.points)
    case Err(x) => Err(x)
    case Ok(s') => DeliverReward(s', env, key, m.reward)
  }

  function UpdateMission(s: State, env: Env, e: nat, u: User, m: MissionDef): Result<State, GrowthError> {
    var slot := Slot(u, m.id, MissionPeriod(m, env.now));
    var progress := ProgressAt(s, slot);
    if progress.completed then Ok(s)
    else
      var current := Min(progress.current + 1, m.target);
      var s1 := s.(missions := s.missions[slot := Progress(current, current >= m.target)]);
      if current < m.target then Ok(s1)
      else DeliverMission(s1, env, LedgerKey(u, e, Mission(m.id, slot.period)), m)
  }

  function UpdateMissions(s: State, env: Env, e: nat, u: User, ms: seq<MissionDef>): Result<State, GrowthError> {
    if |ms| == 0 then Ok(s)
    else match UpdateMissions(s, env, e, u, ms[..|ms| - 1])
      case Err(x) => Err(x)
      case Ok(s') => UpdateMission(s', env, e, u, ms[|ms| - 1])
  }

  function AchievementAt(s: State, u: User, id: string): Progress {
    if (u, id) in s.achievements then s.achievements[(u, id)] else Progress(0, false)
  }

  function UpdateAchievement(s: State, env: Env, e: nat, u: User, d: AchievementDef, value: int)
    : Result<State, GrowthError>
  {
    var progress := AchievementAt(s, u, d.id);
    var current := Min(value, d.target);
    var completed := progress.completed || current >= d.target;
    var s1 := s.(achievements := s.achievements[(u, d.id) := Progress(current, completed)]);
    if completed && !progress.completed then
      var key := LedgerKey(u, e, Achievement(d.id));
      DeliverReward(DeliverXp(s1, env, key, d.xpBonus), env, key, d.reward)
    else Ok(s1)
  }

  function UpdateAchievements(s: State, env: Env, e: nat, u: User, ds: seq<(AchievementDef, int)>)
    : Result<State, GrowthError>
  {
    if |ds| == 0 then Ok(s)
    else match UpdateAchievements(s, env, e, u, ds[..|ds| - 1])
      case Err(x) => Err(x)
      case Ok(s') => UpdateAchievement(s', env, e, u, ds[|ds| - 1].0, ds[|ds| - 1].1)
  }

  function OutcomeOf(s: State, env: Env, e: nat): Outcome
    requires e < |s.db.events|
  {
    Outcome(s.db.events[e].key, s.db.events[e].val, env.eligible, env.organization, env.achievements, env.now)
  }

  /** The effects of a successful attempt, up to its commit. */
  function Effects(s: State, defs: seq<MissionDef>, env: Env, e: nat): Result<State, GrowthError>
    requires e < |s.db.events|
  {
    var o := OutcomeOf(s, env, e);
    var u := o.key.user;
    var amount := if Counts(o) then BaseXpFor(o.key.kind) else 0;
    var s1 := DeliverXp(s, env, LedgerKey(u, e, EventKind(o.key.kind)), amount);
    match UpdateMissions(s1, env, e, u, Matching(defs, o))
    case Err(x) => Err(x)
    case Ok(s2) =>
      if o.key.kind == "card_collected" then UpdateAchievements(s2, env, e, u, env.achievements) else Ok(s2)
  }

  /** The number of points between statements at which an attempt can crash. */
  function Stages(s: State, defs: seq<MissionDef>, env: Env, e: nat): nat
    requires e < |s.db.events|
  {
    var o := OutcomeOf(s, env, e);
    2 + |Matching(defs, o)| + if o.key.kind == "card_collected" then |env.achievements| else 0
  }

  /**
   How the transaction of an attempt ends. One that fails has rolled everything back and freed the
   event's row; it remembers the attempt count that its failure is to be recorded with.
   */
  datatype End = Committed | Skipped | NotFound | RolledBack(error: GrowthError, attempts: nat)

  predicate Finished(s: State, e: nat) {
    WorkOf(s, e).status == Processed || WorkOf(s, e).status == Dead
  }

  /** The transaction of an attempt at an event. It may crash at any stage. */
  function Transact(s: State, defs: seq<MissionDef>, env: Env, e: nat, crashAt: nat): (State, End) {
    if e >= |s.db.events| then (s, NotFound)
    else if Finished(s, e) then (s, Skipped)
    else
      var attempts := WorkOf(s, e).attempts + 1;
      match if crashAt < Stages(s, defs, env, e) then Err(Crashed) else Effects(s, defs, env, e)
      case Ok(s') =>
        (s'.(work := s'.work[e := Work(Processed, attempts, None)],
             log := s'.log + [Row(e, OutcomeOf(s, env, e))]), Committed)
      case Err(x) => (s, RolledBack(x, attempts))
  }

  function AfterFailure(p: Policy, attempts: nat, now: int): Work {
    match DecideRetry(p, attempts, now)
    case DeadLetter => Work(Dead, attempts, None)
    case RetryAt(t) => Work(EventStatus.Failed, attempts, Some(t))
  }

  /** The transaction that records a failure. It does not look at what became of the event meanwhile. */
  function RecordFailure(s: State, p: Policy, e: nat, attempts: nat, now: int): State {
    s.(work := s.work[e := AfterFailure(p, attempts, now)])
  }

  /** Both transactions of an attempt, with nothing in between. */
  function Attempt(s: State, p: Policy, defs: seq<MissionDef>, env: Env, e: nat, crashAt: nat)
    : (State, Option<GrowthError>)
  {
    var (s', end) := Transact(s, defs, env, e, crashAt);
    match end
    case RolledBack(x, attempts) => (RecordFailure(s', p, e, attempts, env.now), Some(x))
    case NotFound => (s', Some(EventNotFound))
    case _ => (s', None)
  }
}

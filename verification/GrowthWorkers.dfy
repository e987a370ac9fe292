/**
 Growth events under many workers. A failed attempt is two transactions: one that rolls back, and a
 later one that records the failure; other workers may come between them, and the second may be lost.
 */
module GrowthWorkers {
  import opened Wrappers
  import opened Tables
  import opened PointTables
  import PointLedger
  import PointInvariant
  import opened Retry
  import opened GrowthTables
  import opened GrowthInvariant
  import opened GrowthRuns
  import opened GrowthOutcomes

  /** A failed attempt that is rolled back but not recorded. */
  datatype Failure = Failure(event: nat, attempts: nat)

  datatype Workers = Workers(s: State, open: seq<Failure>)

  const START := Workers(EMPTY_STATE, [])

  datatype Move =
    | NewEvent(key: EventKey, payload: map<string, string>)
    | Try(env: Env, event: nat, crashAt: nat)
    | RecordOpen(k: nat, now: int)
    | LoseOpen(k: nat)

  function Without(open: seq<Failure>, k: nat): seq<Failure>
    requires k < |open|
  {
    open[..k] + open[k + 1..]
  }

  function Step(y: Workers, p: Policy, defs: seq<MissionDef>, m: Move): Workers {
    match m
    case NewEvent(key, payload) => y.(s := y.s.(db := PointLedger.RecordEvent(y.s.db, key, payload).0))
    case Try(env, e, crashAt) =>
      var (s', end) := Transact(y.s, defs, env, e, crashAt);
      Workers(s', if end.RolledBack? then y.open + [Failure(e, end.attempts)] else y.open)
    case RecordOpen(k, now) =>
      if k >= |y.open| then y
      else Workers(RecordFailure(y.s, p, y.open[k].event, y.open[k].attempts, now), Without(y.open, k))
    case LoseOpen(k) => if k >= |y.open| then y else y.(open := Without(y.open, k))
  }

  function Run(y: Workers, p: Policy, defs: seq<MissionDef>, ms: seq<Move>): Workers {
    if |ms| == 0 then y else Step(Run(y, p, defs, ms[..|ms| - 1]), p, defs, ms[|ms| - 1])
  }

  /** A failure is recorded for an event that another worker has processed meanwhile. */
  predicate FindsProcessed(y: Workers, m: Move) {
    m.RecordOpen? && m.k < |y.open| && WorkOf(y.s, y.open[m.k].event).status == Processed
  }

  predicate FindsFinished(y: Workers, m: Move) {
    m.RecordOpen? && m.k < |y.open| && Finished(y.s, y.open[m.k].event)
  }

  ghost predicate AllFixed(defs: seq<MissionDef>, ds: seq<AchievementDef>, ms: seq<Move>) {
    && DistinctIds(defs) && DistinctAchievements(ds)
    && (forall i :: 0 <= i < |ms| && ms[i].Try? ==> Fixed(defs, ds, ms[i].env))
  }

  // ---- exactly once ----

  lemma StepKeepsIff(y: Workers, p: Policy, defs: seq<MissionDef>, ds: seq<AchievementDef>, m: Move)
    requires Invariant(y.s, defs, ds) && (m.Try? ==> Fixed(defs, ds, m.env))
    ensures Invariant(Step(y, p, defs, m).s, defs, ds) <==> !FindsProcessed(y, m)
  {
    hide Invariant, Transact, RecordFailure, Fixed, WorkOf;
    match m
    case NewEvent(key, payload) => RecordKeeps(y.s, defs, ds, key, payload);
    case Try(env, e, crashAt) => TransactKeeps(y.s, defs, ds, env, e, crashAt);
    case RecordOpen(k, now) =>
      if k < |y.open| {
        RecordFailureKeepsIff(y.s, p, defs, ds, y.open[k].event, y.open[k].attempts, now);
      }
    case LoseOpen(_) =>
  }

  lemma RunOneMore(y: Workers, p: Policy, defs: seq<MissionDef>, ms: seq<Move>)
    ensures Run(y, p, defs, ms[..|ms|])
         == if ms == [] then y else Step(Run(y, p, defs, ms[..|ms| - 1]), p, defs, ms[|ms| - 1])
  {
    assert ms[..|ms|] == ms;
  }

  /** The accounts stay right all along exactly when no failure is recorded for a processed event. */
  lemma {:induction false} RunKeepsIff(y: Workers, p: Policy, defs: seq<MissionDef>, ds: seq<AchievementDef>,
                                       ms: seq<Move>)
    requires Invariant(y.s, defs, ds) && AllFixed(defs, ds, ms)
    ensures (forall k :: 0 <= k <= |ms| ==> Invariant(Run(y, p, defs, ms[..k]).s, defs, ds))
       <==> (forall k :: 0 <= k < |ms| ==> !FindsProcessed(Run(y, p, defs, ms[..k]), ms[k]))
  {
    hide Invariant, FindsProcessed, Step, Run, Fixed;
    RunOneMore(y, p, defs, ms);
    if |ms| > 0 {
      var init, last := ms[..|ms| - 1], |ms| - 1;
      RunKeepsIff(y, p, defs, ds, init);
      assert forall k :: 0 <= k <= last ==> init[..k] == ms[..k];
      assert init[..last] == init;
      if Invariant(Run(y, p, defs, init).s, defs, ds) {
        StepKeepsIff(Run(y, p, defs, init), p, defs, ds, ms[last]);
      }
    }
  }

  lemma {:induction false} RunMeasures(y: Workers, p: Policy, defs: seq<MissionDef>, ds: seq<AchievementDef>,
                                       ms: seq<Move>)
    requires AsMeasured(y.s, ds) && AllFixed(defs, ds, ms)
    ensures AsMeasured(Run(y, p, defs, ms).s, ds)
  {
    hide EverReached, Transact, Fixed;
    if |ms| > 0 {
      var before, m := Run(y, p, defs, ms[..|ms| - 1]), ms[|ms| - 1];
      RunMeasures(y, p, defs, ds, ms[..|ms| - 1]);
      if m.Try? {
        TransactMeasures(before.s, defs, ds, m.env, m.event, m.crashAt);
      }
      hide Run;
      var after := Step(before, p, defs, m);
      assert !m.Try? ==> after.s.achievements == before.s.achievements && after.s.log == before.s.log;
    }
  }

  /**
   Exactly once, with many workers: attempts may crash or be refused at any stage, overlap, and lose
   or delay the records of their failures, as long as none is recorded for a processed event.
   Then base experience is 30 for each eligible processed collect less 30 for each processed
   revocation, the cached total is the ledger sum, no event is processed twice, and every mission and
   achievement stands as its processed events say, with its rewards delivered once. An achievement is
   completed exactly when one of the user's processed collects measured its target.
   */
  lemma ExactlyOnce(p: Policy, defs: seq<MissionDef>, ds: seq<AchievementDef>, ms: seq<Move>, u: User)
    requires AllFixed(defs, ds, ms)
    requires forall k :: 0 <= k < |ms| ==> !FindsProcessed(Run(START, p, defs, ms[..k]), ms[k])
    ensures var s := Run(START, p, defs, ms).s;
            && Sum(s.xp, BaseOf(u))
               == 30 * (Sum(s.log, CollectedBy(u)) - Sum(s.log, RevokedBy(u)))
            && (u in s.levels ==> s.levels[u].totalXp == Sum(s.xp, XpOf(u)))
            && (forall m: MissionDef, t: Period :: m in defs ==> MissionOk(s, m, u, t, Hits(s.log, m, u, t)))
            && (forall d :: d in ds ==>
                  AchievementOk(s, d, u) && (AchievementAt(s, u, d.id).completed <==> EverReached(s.log, d, u)))
            && LogOk(s) && PointInvariant.Valid(s.db)
  {
    EmptyInvariant(defs, ds);
    RunKeepsIff(START, p, defs, ds, ms);
    assert ms[..|ms|] == ms;
    RunMeasures(START, p, defs, ds, ms);
    var s := Run(START, p, defs, ms).s;
    assert Invariant(s, defs, ds);
    hide Run, Sum, Lookup, MissionOk, AchievementOk, EverReached, PointInvariant.Valid;
    assert BaseOk(s, u, 0) && LevelOk(s, u);
    BaseIsThirtyEach(s.log, u);
  }

  /** While one level policy is in force, every user's stored level is the one due to the stored total. */
  lemma {:induction false} LevelsStayDue(p: Policy, defs: seq<MissionDef>, ms: seq<Move>,
                                         policy: Option<seq<Threshold>>)
    requires forall i :: 0 <= i < |ms| && ms[i].Try? ==> ms[i].env.levelPolicy == policy
    ensures LevelsDue(Run(START, p, defs, ms).s, policy)
  {
    hide Transact;
    if |ms| > 0 {
      var before, m := Run(START, p, defs, ms[..|ms| - 1]), ms[|ms| - 1];
      LevelsStayDue(p, defs, ms[..|ms| - 1], policy);
      if m.Try? {
        CommittedGrew(before.s, defs, m.env, m.event, m.crashAt);
      }
      hide Run, LevelForTotalXp;
      assert !m.Try? ==> Step(before, p, defs, m).s.levels == before.s.levels;
    }
  }

  // ---- completion lasts ----

  /** No completion is ever cleared, whatever the workers do. */
  lemma {:induction false} CompletionLasts(y: Workers, p: Policy, defs: seq<MissionDef>, ms: seq<Move>)
    ensures var s' := Run(y, p, defs, ms).s;
            && (forall slot :: ProgressAt(y.s, slot).completed ==> ProgressAt(s', slot) == ProgressAt(y.s, slot))
            && (forall v: User, id: string ::
                  AchievementAt(y.s, v, id).completed ==> AchievementAt(s', v, id).completed)
  {
    hide Transact;
    if |ms| > 0 {
      var before, m := Run(y, p, defs, ms[..|ms| - 1]), ms[|ms| - 1];
      CompletionLasts(y, p, defs, ms[..|ms| - 1]);
      if m.Try? {
        TransactLasts(before.s, defs, m.env, m.event, m.crashAt);
      }
      hide Run;
      var after := Step(before, p, defs, m);
      assert !m.Try? ==> after.s.missions == before.s.missions && after.s.achievements == before.s.achievements;
    }
  }

  /** A finished event stays as it is through one move exactly if that records no failure of it, or changes nothing. */
  lemma StepKeepsFinishedIff(y: Workers, p: Policy, defs: seq<MissionDef>, m: Move, e: nat)
    requires Finished(y.s, e)
    ensures var hit := m.RecordOpen? && m.k < |y.open| && y.open[m.k].event == e;
            && (!hit ==> WorkOf(Step(y, p, defs, m).s, e) == WorkOf(y.s, e))
            && (hit ==> WorkOf(Step(y, p, defs, m).s, e).status != Processed)
            && (hit ==> (Finished(Step(y, p, defs, m).s, e) <==> y.open[m.k].attempts >= p.maxAttempts))
  {
    hide Transact;
    if m.Try? {
      TransactLasts(y.s, defs, m.env, m.event, m.crashAt);
    }
  }

  /** A processed or dead event never leaves its status while no failure is recorded for a finished event. */
  lemma {:induction false} FinishedLasts(y: Workers, p: Policy, defs: seq<MissionDef>, ms: seq<Move>, e: nat)
    requires Finished(y.s, e)
    requires forall k :: 0 <= k < |ms| ==> !FindsFinished(Run(y, p, defs, ms[..k]), ms[k])
    ensures WorkOf(Run(y, p, defs, ms).s, e) == WorkOf(y.s, e)
  {
    hide Step, WorkOf, Finished;
    if |ms| > 0 {
      var init, last := ms[..|ms| - 1], |ms| - 1;
      assert forall k :: 0 <= k < last ==> init[..k] == ms[..k];
      FinishedLasts(y, p, defs, init, e);
      assert Finished(Run(y, p, defs, init).s, e) by { SameFinished(y.s, Run(y, p, defs, init).s, e); }
      StepKeepsFinishedIff(Run(y, p, defs, init), p, defs, ms[last], e);
    }
  }

  lemma SameFinished(s: State, s': State, e: nat)
    requires Finished(s, e) && WorkOf(s', e) == WorkOf(s, e)
    ensures Finished(s', e)
  {
  }

  // ---- how often an event is attempted ----

  /** The attempts so far are within the policy, and leave room for one more unless the event is finished. */
  predicate WithinPolicy(p: Policy, w: Work) {
    w.attempts <= Max(1, p.maxAttempts) - if w.status == EventStatus.Processed || w.status == Dead then 0 else 1
  }

  /** The move attempts event e, rather than skipping it as finished. */
  predicate Attempts(y: Workers, m: Move, e: nat) {
    m.Try? && m.event == e && e < |y.s.db.events| && !Finished(y.s, e)
  }

  function Made(y: Workers, p: Policy, defs: seq<MissionDef>, ms: seq<Move>, e: nat): nat {
    if |ms| == 0 then 0
    else
      var init := ms[..|ms| - 1];
      Made(y, p, defs, init, e) + if Attempts(Run(y, p, defs, init), ms[|ms| - 1], e) then 1 else 0
  }

  predicate Open(y: Workers, e: nat) {
    exists j :: 0 <= j < |y.open| && y.open[j].event == e
  }

  /** Event e is attempted by one worker at a time, and its failures are recorded before the next attempt. */
  predicate Alone(y: Workers, m: Move, e: nat) {
    && (Attempts(y, m, e) ==> !Open(y, e))
    && (m.LoseOpen? && m.k < |y.open| ==> y.open[m.k].event != e)
  }

  ghost predicate Tallied(y: Workers, p: Policy, e: nat, made: nat) {
    && WithinPolicy(p, WorkOf(y.s, e)) && made == WorkOf(y.s, e).attempts + (if Open(y, e) then 1 else 0)
    && (forall j :: 0 <= j < |y.open| && y.open[j].event == e ==>
          !Finished(y.s, e) && y.open[j].attempts == WorkOf(y.s, e).attempts + 1)
    && (forall i, j :: 0 <= i < j < |y.open| ==> !(y.open[i].event == e && y.open[j].event == e))
  }

  lemma StepTallied(y: Workers, p: Policy, defs: seq<MissionDef>, m: Move, e: nat, made: nat)
    requires Tallied(y, p, e, made) && Alone(y, m, e)
    ensures Tallied(Step(y, p, defs, m), p, e, made + if Attempts(y, m, e) then 1 else 0)
  {
    match m
    case Try(env, x, crashAt) => TryTallied(y, p, defs, env, x, crashAt, e, made);
    case RecordOpen(k, now) =>
      if k < |y.open| {
        RecordTallied(y, p, k, now, e, made);
      }
    case LoseOpen(k) =>
      if k < |y.open| {
        LoseTallied(y, p, k, e, made);
      }
    case NewEvent(_, _) =>
      hide Open;
  }

  lemma RecordTallied(y: Workers, p: Policy, k: nat, now: int, e: nat, made: nat)
    requires Tallied(y, p, e, made) && k < |y.open|
    ensures var s' := RecordFailure(y.s, p, y.open[k].event, y.open[k].attempts, now);
            Tallied(Workers(s', Without(y.open, k)), p, e, made)
  {
    WithoutOne(y.open, k, e);
    hide Without;
  }

  lemma LoseTallied(y: Workers, p: Policy, k: nat, e: nat, made: nat)
    requires Tallied(y, p, e, made) && k < |y.open| && y.open[k].event != e
    ensures Tallied(y.(open := Without(y.open, k)), p, e, made)
  {
    WithoutOne(y.open, k, e);
    hide Without;
  }

  lemma TryTallied(y: Workers, p: Policy, defs: seq<MissionDef>, env: Env, x: nat, crashAt: nat, e: nat, made: nat)
    requires Tallied(y, p, e, made) && Alone(y, Try(env, x, crashAt), e)
    ensures var m := Try(env, x, crashAt);
            Tallied(Step(y, p, defs, m), p, e, made + if Attempts(y, m, e) then 1 else 0)
  {
    hide Transact;
    TransactLasts(y.s, defs, env, x, crashAt);
    TransactTallies(y.s, defs, env, x, crashAt);
    var y' := Step(y, p, defs, Try(env, x, crashAt));
    if y'.open != y.open {
      OneMoreOpen(y.open, Failure(x, WorkOf(y.s, x).attempts + 1), e);
    }
  }

  lemma OneMoreOpen(open: seq<Failure>, f: Failure, e: nat)
    ensures (exists j :: 0 <= j < |open + [f]| && (open + [f])[j].event == e)
            <==> f.event == e || exists j :: 0 <= j < |open| && open[j].event == e
  {
    assert (open + [f])[|open|] == f;
    assert forall j :: 0 <= j < |open| ==> (open + [f])[j] == open[j];
  }

  lemma TransactTallies(s: State, defs: seq<MissionDef>, env: Env, e: nat, crashAt: nat)
    ensures var (s', end) := Transact(s, defs, env, e, crashAt);
            && (end.RolledBack? ==> end.attempts == WorkOf(s, e).attempts + 1 && s' == s)
            && (end.Committed? ==> WorkOf(s', e) == Work(Processed, WorkOf(s, e).attempts + 1, None))
            && (end.Skipped? || end.NotFound? ==> s' == s)
            && (end.Committed? || end.RolledBack? <==> e < |s.db.events| && !Finished(s, e))
  {
    hide Effects, Stages;
  }

  lemma WithoutOne(open: seq<Failure>, k: nat, e: nat)
    requires k < |open| && forall i, j :: 0 <= i < j < |open| ==> !(open[i].event == e && open[j].event == e)
    ensures var rest := Without(open, k);
            && |rest| == |open| - 1
            && (forall j :: 0 <= j < |rest| ==> rest[j] == open[if j < k then j else j + 1])
            && ((exists j :: 0 <= j < |rest| && rest[j].event == e)
                <==> open[k].event != e && exists j :: 0 <= j < |open| && open[j].event == e)
  {
    var rest := Without(open, k);
    if j :| 0 <= j < |open| && open[j].event == e && j != k {
      assert rest[if j < k then j else j - 1] == open[j];
    }
  }

  /** An event attempted by one worker at a time is attempted no more often than the policy allows. */
  lemma AttemptsBounded(p: Policy, defs: seq<MissionDef>, ms: seq<Move>, e: nat)
    requires forall k :: 0 <= k < |ms| ==> Alone(Run(START, p, defs, ms[..k]), ms[k], e)
    ensures Made(START, p, defs, ms, e) <= Max(1, p.maxAttempts)
  {
    RunTallied(p, defs, ms, e);
  }

  lemma {:induction false} RunTallied(p: Policy, defs: seq<MissionDef>, ms: seq<Move>, e: nat)
    requires forall k :: 0 <= k < |ms| ==> Alone(Run(START, p, defs, ms[..k]), ms[k], e)
    ensures Tallied(Run(START, p, defs, ms), p, e, Made(START, p, defs, ms, e))
  {
    hide Step, Tallied, Alone, Attempts;
    if |ms| > 0 {
      var init, last := ms[..|ms| - 1], |ms| - 1;
      assert forall k :: 0 <= k < last ==> init[..k] == ms[..k];
      RunTallied(p, defs, init, e);
      StepTallied(Run(START, p, defs, init), p, defs, ms[last], e, Made(START, p, defs, init, e));
    } else {
      NothingTallied(p, e);
    }
  }

  lemma NothingTallied(p: Policy, e: nat)
    ensures Tallied(START, p, e, 0)
  {
  }

  /** The stored count stays within the policy in any case. */
  ghost predicate CountsOk(y: Workers, p: Policy) {
    && (forall e: nat :: WithinPolicy(p, WorkOf(y.s, e)))
    && (forall j :: 0 <= j < |y.open| ==> y.open[j].attempts <= Max(1, p.maxAttempts))
  }

  lemma StepCountsOk(y: Workers, p: Policy, defs: seq<MissionDef>, m: Move)
    requires CountsOk(y, p)
    ensures CountsOk(Step(y, p, defs, m), p)
  {
    hide Transact;
    if m.Try? {
      TransactLasts(y.s, defs, m.env, m.event, m.crashAt);
      TransactTallies(y.s, defs, m.env, m.event, m.crashAt);
    }
    var y' := Step(y, p, defs, m);
    forall e: nat
      ensures WithinPolicy(p, WorkOf(y'.s, e))
    {
      assert WithinPolicy(p, WorkOf(y.s, e));
    }
  }

  lemma {:induction false} StoredCountBounded(p: Policy, defs: seq<MissionDef>, ms: seq<Move>)
    ensures CountsOk(Run(START, p, defs, ms), p)
  {
    hide Step, CountsOk;
    if |ms| > 0 {
      StoredCountBounded(p, defs, ms[..|ms| - 1]);
      StepCountsOk(Run(START, p, defs, ms[..|ms| - 1]), p, defs, ms[|ms| - 1]);
    } else {
      NothingCounted(p);
    }
  }

  lemma NothingCounted(p: Policy)
    ensures CountsOk(START, p)
  {
  }

  // ---- what overlapping workers can do ----

  /** A mission of two visits, without conditions or deliveries. */
  const TWO_VISITS := MissionDef("m", "visit", map[], None, None, Single, None, None, 2, 0, 0, None)

  const VISIT := EventKey("fan", "visit", "page", Text("1"))
  const SLOT := Slot("fan", "m", Once)

  function VisitEnv(now: int): Env {
    Env(true, None, [], {}, None, now)
  }

  /** What processing the visit does. */
  function Visited(s: State, now: int): State
    requires s.db.events == [Row(VISIT, map[])]
  {
    var current := ProgressAt(s, SLOT).current + 1;
    s.(missions := s.missions[SLOT := Progress(current, current >= 2)],
       work := s.work[0 := Work(Processed, WorkOf(s, 0).attempts + 1, None)],
       log := s.log + [Row(0, OutcomeOf(s, VisitEnv(now), 0))])
  }

  lemma VisitMatches(o: Outcome)
    requires o.key == VISIT
    ensures Matching([TWO_VISITS], o) == [TWO_VISITS] && Counts(o) && BaseXpFor(o.key.kind) == 0
    ensures o.key.kind != "card_collected"
  {
    assert "visit"[0] != "card_collected"[0] && "visit"[0] != "card_revoked"[0];
    assert [TWO_VISITS][..0] == [];
  }

  lemma VisitUpdates(s: State, now: int)
    requires !ProgressAt(s, SLOT).completed && ProgressAt(s, SLOT).current < 2
    ensures var current := ProgressAt(s, SLOT).current + 1;
            UpdateMissions(s, VisitEnv(now), 0, "fan", [TWO_VISITS])
            == Ok(s.(missions := s.missions[SLOT := Progress(current, current >= 2)]))
  {
    OneMission(s, VisitEnv(now), 0, "fan", TWO_VISITS);
    hide GrantXp, GrantReward, UpdateMissions, ProgressAt;
  }

  lemma OneMission(s: State, env: Env, e: nat, u: User, m: MissionDef)
    ensures UpdateMissions(s, env, e, u, [m]) == UpdateMission(s, env, e, u, m)
  {
    hide UpdateMission;
    assert [m][..0] == [];
    assert UpdateMissions(s, env, e, u, []) == Ok(s);
  }

  lemma VisitTransact(s: State, now: int)
    requires s.db.events == [Row(VISIT, map[])] && !Finished(s, 0)
    requires !ProgressAt(s, SLOT).completed && ProgressAt(s, SLOT).current < 2
    ensures Transact(s, [TWO_VISITS], VisitEnv(now), 0, 9) == (Visited(s, now), Committed)
  {
    hide UpdateMissions, UpdateAchievements, Matching, GrantXp, BaseXpFor, ProgressAt;
    VisitMatches(OutcomeOf(s, VisitEnv(now), 0));
    VisitUpdates(s, now);
  }

  lemma RunAppend(y: Workers, p: Policy, defs: seq<MissionDef>, ms: seq<Move>, m: Move, e: nat)
    ensures Run(y, p, defs, ms + [m]) == Step(Run(y, p, defs, ms), p, defs, m)
    ensures Made(y, p, defs, ms + [m], e)
         == Made(y, p, defs, ms, e) + if Attempts(Run(y, p, defs, ms), m, e) then 1 else 0
  {
    assert (ms + [m])[..|ms|] == ms;
  }

  /** One worker fails on the visit, and another processes it. */
  function Overlap(): seq<Move> {
    [NewEvent(VISIT, map[])] + [Try(VisitEnv(0), 0, 0)] + [Try(VisitEnv(1), 0, 9)]
  }

  lemma OverlapShape(p: Policy)
    ensures var y := Run(START, p, [TWO_VISITS], Overlap());
            && y.open == [Failure(0, 1)] && y.s.db.events == [Row(VISIT, map[])]
            && |y.s.log| == 1 && y.s.log[0].key == 0
            && WorkOf(y.s, 0) == Work(Processed, 1, None) && ProgressAt(y.s, SLOT) == Progress(1, false)
  {
    var defs := [TWO_VISITS];
    var a, b, c := NewEvent(VISIT, map[]), Try(VisitEnv(0), 0, 0), Try(VisitEnv(1), 0, 9);
    RunAppend(START, p, defs, [], a, 0);
    assert [] + [a] == [a];
    var y1 := Run(START, p, defs, [a]);
    assert y1 == Workers(EMPTY_STATE.(db := y1.s.db), []) && y1.s.db.events == [Row(VISIT, map[])];
    RunAppend(START, p, defs, [a], b, 0);
    var y2 := Run(START, p, defs, [a] + [b]);
    assert y2 == y1.(open := [Failure(0, 1)]);
    RunAppend(START, p, defs, [a] + [b], c, 0);
    VisitTransact(y2.s, 1);
    hide Run, Transact;
  }

  /**
   A run in which one event counts twice: worker A fails on it, worker B processes it, A records its
   failure, and a retry processes it again, completing a mission of two visits.
   */
  lemma LateRecordCountsTwice(p: Policy)
    requires p.maxAttempts >= 2
    ensures var late, retry := RecordOpen(0, 2), Try(VisitEnv(3), 0, 9);
            var before := Run(START, p, [TWO_VISITS], Overlap());
            var y := Run(START, p, [TWO_VISITS], Overlap() + [late] + [retry]);
            && FindsProcessed(before, late)
            && |y.s.db.events| == 1 && |y.s.log| == 2 && y.s.log[0].key == y.s.log[1].key == 0
            && ProgressAt(y.s, SLOT) == Progress(2, true)
  {
    var defs, late, retry := [TWO_VISITS], RecordOpen(0, 2), Try(VisitEnv(3), 0, 9);
    OverlapShape(p);
    RunAppend(START, p, defs, Overlap(), late, 0);
    RunAppend(START, p, defs, Overlap() + [late], retry, 0);
    var y := Run(START, p, defs, Overlap());
    var y' := Run(START, p, defs, Overlap() + [late]);
    hide Run, Overlap, Transact;
    assert y'.s == RecordFailure(y.s, p, 0, 1, 2);
    assert WorkOf(y'.s, 0).status == EventStatus.Failed;
    VisitTransact(y'.s, 3);
  }

  /** Two workers fail on the visit at once, one records it, and the next attempt fails for good. */
  function TwoFailures(): seq<Move> {
    var fail := Try(VisitEnv(0), 0, 0);
    [NewEvent(VISIT, map[])] + [fail] + [fail] + [RecordOpen(1, 0)] + [fail] + [RecordOpen(1, 0)]
  }

  /** A run in which a dead event revives: three attempts were made where two are allowed, and more may follow. */
  lemma LateRecordRevives(p: Policy)
    requires p.maxAttempts == 2
    ensures var dead := Run(START, p, [], TwoFailures());
            var y := Run(START, p, [], TwoFailures() + [RecordOpen(0, 0)]);
            && WorkOf(dead.s, 0) == Work(Dead, 2, None) && FindsFinished(dead, RecordOpen(0, 0))
            && WorkOf(y.s, 0) == Work(EventStatus.Failed, 1, Some(Delay(p, 1)))
            && Made(START, p, [], TwoFailures() + [RecordOpen(0, 0)], 0) == 3
  {
    var a, fail, late := NewEvent(VISIT, map[]), Try(VisitEnv(0), 0, 0), RecordOpen(1, 0);
    var ms1, ms2, ms3 := [a], [a] + [fail], [a] + [fail] + [fail];
    RunAppend(START, p, [], [], a, 0);
    assert [] + [a] == [a];
    RunAppend(START, p, [], ms1, fail, 0);
    RunAppend(START, p, [], ms2, fail, 0);
    RunAppend(START, p, [], ms3, late, 0);
    RunAppend(START, p, [], ms3 + [late], fail, 0);
    RunAppend(START, p, [], ms3 + [late] + [fail], late, 0);
    RunAppend(START, p, [], TwoFailures(), RecordOpen(0, 0), 0);
    var y1 := Run(START, p, [], ms1);
    var y3 := Run(START, p, [], ms3);
    var y4 := Run(START, p, [], ms3 + [late]);
    var y5 := Run(START, p, [], ms3 + [late] + [fail]);
    var y6 := Run(START, p, [], TwoFailures());
    hide Run, Made, Delay, Effects;
    assert |y1.s.db.events| == 1 && WorkOf(y1.s, 0) == Work(EventStatus.Pending, 0, None) && y1.open == [];
    assert y3 == Workers(y1.s, [Failure(0, 1), Failure(0, 1)]);
    assert y4.open == [Failure(0, 1)] && WorkOf(y4.s, 0).status == EventStatus.Failed && WorkOf(y4.s, 0).attempts == 1;
    assert y5 == Workers(y4.s, [Failure(0, 1), Failure(0, 2)]);
    assert y6.open == [Failure(0, 1)] && WorkOf(y6.s, 0) == Work(Dead, 2, None);
  }
}

/** What one attempt at a growth event keeps, and what failed attempts in turn come to. */
module GrowthRuns {
  import opened Wrappers
  import opened Tables
  import opened PointTables
  import PointLedger
  import PointInvariant
  import opened Retry
  import opened GrowthTables
  import opened GrowthInvariant

  /** The definitions stay as they are, and achievements are measured against them. */
  ghost predicate Fixed(defs: seq<MissionDef>, ds: seq<AchievementDef>, env: Env) {
    && DistinctIds(defs) && DistinctAchievements(ds)
    && (forall i :: 0 <= i < |env.achievements| ==> env.achievements[i].0 in ds)
  }

  lemma TransactKeeps(s: State, defs: seq<MissionDef>, ds: seq<AchievementDef>, env: Env, e: nat, crashAt: nat)
    requires Invariant(s, defs, ds) && Fixed(defs, ds, env)
    ensures Invariant(Transact(s, defs, env, e, crashAt).0, defs, ds)
  {
    hide Effects, Stages, Sum, Lookup, MissionOk, AchievementOk, BaseOk, PointInvariant.Valid;
    if Transact(s, defs, env, e, crashAt).1.Committed? {
      EffectsOk(s, defs, ds, env, e);
      CommitOk(s, Effects(s, defs, env, e).value, defs, ds, e, OutcomeOf(s, env, e),
               Work(Processed, WorkOf(s, e).attempts + 1, None));
    }
  }

  /** The invariant does not depend on how often an unprocessed event was attempted. */
  lemma OnlyWorkChanged(s: State, s': State, defs: seq<MissionDef>, ds: seq<AchievementDef>, e: nat)
    requires Invariant(s, defs, ds) && WorkOf(s, e).status != Processed
    requires e in s'.work && s' == s.(work := s.work[e := s'.work[e]]) && s'.work[e].status != Processed
    ensures Invariant(s', defs, ds)
  {
    hide Sum, Lookup, PointInvariant.Valid;
    assert forall u: User :: LevelOk(s, u) ==> LevelOk(s', u);
    assert forall u: User :: BaseOk(s, u, 0) ==> BaseOk(s', u, 0);
    assert forall x: nat :: x != e ==> WorkOf(s', x) == WorkOf(s, x);
    forall m: MissionDef, u: User, p: Period | m in defs
      ensures MissionOk(s', m, u, p, Hits(s'.log, m, u, p))
    {
      assert MissionOk(s, m, u, p, Hits(s.log, m, u, p));
    }
    forall d: AchievementDef, u: User | d in ds
      ensures AchievementOk(s', d, u)
    {
      assert AchievementOk(s, d, u);
    }
  }

  lemma RecordKeeps(s: State, defs: seq<MissionDef>, ds: seq<AchievementDef>, key: EventKey,
                    payload: map<string, string>)
    requires Invariant(s, defs, ds)
    ensures Invariant(s.(db := PointLedger.RecordEvent(s.db, key, payload).0), defs, ds)
  {
    var s' := s.(db := PointLedger.RecordEvent(s.db, key, payload).0);
    PointInvariant.RecordKeeps(s.db, key, payload);
    hide Sum, Lookup, PointInvariant.Valid;
    assert s'.db.ledger == s.db.ledger;
    assert forall u: User :: LevelOk(s, u) ==> LevelOk(s', u);
    assert forall u: User :: BaseOk(s, u, 0) ==> BaseOk(s', u, 0);
    assert forall x: nat :: WorkOf(s', x) == WorkOf(s, x);
    forall m: MissionDef, u: User, p: Period | m in defs
      ensures MissionOk(s', m, u, p, Hits(s'.log, m, u, p))
    {
      assert MissionOk(s, m, u, p, Hits(s.log, m, u, p));
    }
    forall d: AchievementDef, u: User | d in ds
      ensures AchievementOk(s', d, u)
    {
      assert AchievementOk(s, d, u);
    }
  }

  /** Exactly when recording a failure keeps the accounts right: unless the event was processed meanwhile. */
  lemma RecordFailureKeepsIff(s: State, p: Policy, defs: seq<MissionDef>, ds: seq<AchievementDef>,
                              e: nat, attempts: nat, now: int)
    requires Invariant(s, defs, ds)
    ensures Invariant(RecordFailure(s, p, e, attempts, now), defs, ds) <==> WorkOf(s, e).status != Processed
  {
    var s' := RecordFailure(s, p, e, attempts, now);
    hide Sum, Lookup, MissionOk, AchievementOk, BaseOk, PointInvariant.Valid;
    if WorkOf(s, e).status != Processed {
      OnlyWorkChanged(s, s', defs, ds, e);
    } else {
      assert Lookup(s.log, e).Some? && WorkOf(s', e).status != Processed;
    }
  }

  const EMPTY_STATE := State(EMPTY_DB, map[], [], map[], map[], map[], [], [])

  lemma EmptyInvariant(defs: seq<MissionDef>, ds: seq<AchievementDef>)
    requires DistinctIds(defs)
    ensures Invariant(EMPTY_STATE, defs, ds)
  {
  }

  /** Processed collects of user u whose card's source was eligible. */
  function CollectedBy(u: User): Row<nat, Outcome> -> int {
    (r: Row<nat, Outcome>) =>
      if r.val.key.user == u && r.val.key.kind == "card_collected" && r.val.eligible then 1 else 0
  }

  function RevokedBy(u: User): Row<nat, Outcome> -> int {
    (r: Row<nat, Outcome>) => if r.val.key.user == u && r.val.key.kind == "card_revoked" then 1 else 0
  }

  lemma {:induction false} BaseIsThirtyEach(log: seq<Row<nat, Outcome>>, u: User)
    ensures Sum(log, BaseHit(u)) == 30 * (Sum(log, CollectedBy(u)) - Sum(log, RevokedBy(u)))
  {
    if |log| > 0 {
      BaseIsThirtyEach(log[..|log| - 1], u);
      assert "card_collected"[5] != "card_revoked"[5];
    }
  }

  // ---- what completes an achievement ----

  predicate MeasuredIn(values: seq<(AchievementDef, int)>, d: AchievementDef) {
    exists k :: 0 <= k < |values| && values[k].0 == d && values[k].1 >= d.target
  }

  /** The event is a collect of user u that measured achievement d at its target or above. */
  predicate Reaches(o: Outcome, d: AchievementDef, u: User) {
    o.key.user == u && o.key.kind == "card_collected" && MeasuredIn(o.measured, d)
  }

  predicate EverReached(log: seq<Row<nat, Outcome>>, d: AchievementDef, u: User) {
    exists i :: 0 <= i < |log| && Reaches(log[i].val, d, u)
  }

  ghost predicate AsMeasured(s: State, ds: seq<AchievementDef>) {
    forall d: AchievementDef, u: User :: d in ds ==> (AchievementAt(s, u, d.id).completed <==> EverReached(s.log, d, u))
  }

  lemma {:induction false} UpdatesMeasure(s: State, env: Env, e: nat, u: User, values: seq<(AchievementDef, int)>,
                                          ds: seq<AchievementDef>, d: AchievementDef, v: User)
    requires DistinctAchievements(ds) && d in ds && forall k :: 0 <= k < |values| ==> values[k].0 in ds
    requires UpdateAchievements(s, env, e, u, values).Ok?
    ensures AchievementAt(UpdateAchievements(s, env, e, u, values).value, v, d.id).completed
       <==> AchievementAt(s, v, d.id).completed || (v == u && MeasuredIn(values, d))
  {
    hide Sum, Lookup, DeliverXp, DeliverReward;
    if |values| > 0 {
      var init, last := values[..|values| - 1], |values| - 1;
      UpdatesMeasure(s, env, e, u, init, ds, d, v);
      UpdateMeasures(UpdateAchievements(s, env, e, u, init).value, env, e, u, values[last].0, values[last].1, d, v);
      hide UpdateAchievement, MeasuredIn;
      MeasuredLast(values, d);
      assert values[last].0.id == d.id ==> values[last].0 == d;
    }
  }

  lemma MeasuredLast(values: seq<(AchievementDef, int)>, d: AchievementDef)
    requires |values| > 0
    ensures var last := |values| - 1;
            MeasuredIn(values, d)
            <==> MeasuredIn(values[..last], d) || (values[last].0 == d && values[last].1 >= d.target)
  {
    assert forall k :: 0 <= k < |values| - 1 ==> values[..|values| - 1][k] == values[k];
  }

  lemma UpdateMeasures(s: State, env: Env, e: nat, u: User, c: AchievementDef, value: int, d: AchievementDef, v: User)
    requires UpdateAchievement(s, env, e, u, c, value).Ok? && (c.id == d.id ==> c == d)
    ensures AchievementAt(UpdateAchievement(s, env, e, u, c, value).value, v, d.id).completed
       <==> AchievementAt(s, v, d.id).completed || (v == u && c == d && value >= d.target)
  {
    hide Sum, Lookup;
  }

  lemma EffectsMeasure(s: State, defs: seq<MissionDef>, ds: seq<AchievementDef>, env: Env, e: nat, d: AchievementDef,
                       v: User)
    requires DistinctAchievements(ds) && d in ds
    requires forall k :: 0 <= k < |env.achievements| ==> env.achievements[k].0 in ds
    requires e < |s.db.events| && Effects(s, defs, env, e).Ok?
    ensures AchievementAt(Effects(s, defs, env, e).value, v, d.id).completed
       <==> AchievementAt(s, v, d.id).completed || Reaches(OutcomeOf(s, env, e), d, v)
  {
    hide Sum, Lookup, Matching, UpdateMissions, UpdateAchievements, MeasuredIn;
    var o := OutcomeOf(s, env, e);
    var amount := if Counts(o) then BaseXpFor(o.key.kind) else 0;
    var s1 := DeliverXp(s, env, LedgerKey(o.key.user, e, EventKind(o.key.kind)), amount);
    MissionsLast(s1, env, e, o.key.user, Matching(defs, o));
    var s2 := UpdateMissions(s1, env, e, o.key.user, Matching(defs, o)).value;
    assert AchievementAt(s2, v, d.id) == AchievementAt(s, v, d.id);
    if o.key.kind == "card_collected" {
      UpdatesMeasure(s2, env, e, o.key.user, env.achievements, ds, d, v);
    }
  }

  lemma TransactMeasures(s: State, defs: seq<MissionDef>, ds: seq<AchievementDef>, env: Env, e: nat, crashAt: nat)
    requires AsMeasured(s, ds) && Fixed(defs, ds, env)
    ensures AsMeasured(Transact(s, defs, env, e, crashAt).0, ds)
  {
    hide Effects, Stages, Reaches, EverReached;
    var (s', end) := Transact(s, defs, env, e, crashAt);
    if end.Committed? {
      EffectsLast(s, defs, env, e);
      var o := OutcomeOf(s, env, e);
      forall d: AchievementDef, u: User | d in ds
        ensures AchievementAt(s', u, d.id).completed <==> EverReached(s'.log, d, u)
      {
        EffectsMeasure(s, defs, ds, env, e, d, u);
        LogReaches(s.log, e, o, d, u);
      }
    }
  }

  lemma LogReaches(log: seq<Row<nat, Outcome>>, e: nat, o: Outcome, d: AchievementDef, u: User)
    ensures EverReached(log + [Row(e, o)], d, u) <==> EverReached(log, d, u) || Reaches(o, d, u)
  {
    hide Reaches;
    var log' := log + [Row(e, o)];
    assert forall i :: 0 <= i < |log| ==> log'[i] == log[i];
    assert log'[|log|].val == o;
  }

  // ---- completion lasts ----

  lemma MissionLasts(s: State, env: Env, e: nat, u: User, m: MissionDef)
    requires UpdateMission(s, env, e, u, m).Ok?
    ensures var s' := UpdateMission(s, env, e, u, m).value;
            s'.achievements == s.achievements && s'.work == s.work && s'.log == s.log && s'.db.events == s.db.events
            && forall slot :: ProgressAt(s, slot).completed ==> ProgressAt(s', slot) == ProgressAt(s, slot)
  {
    hide DeliverMission;
    var slot := Slot(u, m.id, MissionPeriod(m, env.now));
    var current := Min(ProgressAt(s, slot).current + 1, m.target);
    var s1 := s.(missions := s.missions[slot := Progress(current, current >= m.target)]);
    DeliveryLeavesProgress(s1, env, LedgerKey(u, e, Mission(m.id, slot.period)), m);
  }

  /** Deliveries touch the ledgers and the totals only. */
  ghost predicate OnlyDelivered(s: State, s': State) {
    && s'.missions == s.missions && s'.achievements == s.achievements
    && s'.work == s.work && s'.log == s.log && s'.db.events == s.db.events
  }

  lemma DeliverPointsOnly(s: State, key: LedgerKey, amount: int)
    ensures DeliverPoints(s, key, amount).Ok? ==> OnlyDelivered(s, DeliverPoints(s, key, amount).value)
  {
    hide Sum, Lookup;
  }

  lemma DeliverXpOnly(s: State, env: Env, key: LedgerKey, amount: int)
    ensures OnlyDelivered(s, DeliverXp(s, env, key, amount))
  {
    hide Sum, Lookup;
  }

  lemma DeliverRewardOnly(s: State, env: Env, key: LedgerKey, reward: Option<string>)
    ensures var r := DeliverReward(s, env, key, reward); r.Ok? ==> OnlyDelivered(s, r.value)
  {
    hide Sum, Lookup;
  }

  lemma DeliveryLeavesProgress(s: State, env: Env, key: LedgerKey, m: MissionDef)
    ensures var r := DeliverMission(s, env, key, m); r.Ok? ==> OnlyDelivered(s, r.value)
  {
    hide DeliverXp, DeliverPoints, DeliverReward;
    var s1 := DeliverXp(s, env, key, m.xp);
    DeliverXpOnly(s, env, key, m.xp);
    DeliverPointsOnly(s1, key, m.points);
    var s2 := DeliverPoints(s1, key, m.points);
    if s2.Ok? {
      DeliverRewardOnly(s2.value, env, key, m.reward);
    }
  }

  lemma {:induction false} MissionsLast(s: State, env: Env, e: nat, u: User, ms: seq<MissionDef>)
    requires UpdateMissions(s, env, e, u, ms).Ok?
    ensures var s' := UpdateMissions(s, env, e, u, ms).value;
            s'.achievements == s.achievements && s'.work == s.work && s'.log == s.log && s'.db.events == s.db.events
            && forall slot :: ProgressAt(s, slot).completed ==> ProgressAt(s', slot) == ProgressAt(s, slot)
  {
    hide UpdateMission;
    if |ms| > 0 {
      MissionsLast(s, env, e, u, ms[..|ms| - 1]);
      MissionLasts(UpdateMissions(s, env, e, u, ms[..|ms| - 1]).value, env, e, u, ms[|ms| - 1]);
    }
  }

  lemma {:induction false} AchievementsLast(s: State, env: Env, e: nat, u: User, ds: seq<(AchievementDef, int)>)
    requires UpdateAchievements(s, env, e, u, ds).Ok?
    ensures var s' := UpdateAchievements(s, env, e, u, ds).value;
            s'.missions == s.missions && s'.work == s.work && s'.log == s.log && s'.db.events == s.db.events
            && forall v: User, id: string :: AchievementAt(s, v, id).completed ==> AchievementAt(s', v, id).completed
  {
    if |ds| > 0 {
      AchievementsLast(s, env, e, u, ds[..|ds| - 1]);
    }
  }

  lemma EffectsLast(s: State, defs: seq<MissionDef>, env: Env, e: nat)
    requires e < |s.db.events| && Effects(s, defs, env, e).Ok?
    ensures var s' := Effects(s, defs, env, e).value;
            && s'.work == s.work && s'.log == s.log && s'.db.events == s.db.events
            && (forall slot :: ProgressAt(s, slot).completed ==> ProgressAt(s', slot) == ProgressAt(s, slot))
            && (forall v: User, id: string :: AchievementAt(s, v, id).completed ==> AchievementAt(s', v, id).completed)
  {
    hide Sum, Lookup, Matching, UpdateMissions, UpdateAchievements;
    var o := OutcomeOf(s, env, e);
    var amount := if Counts(o) then BaseXpFor(o.key.kind) else 0;
    var s1 := DeliverXp(s, env, LedgerKey(o.key.user, e, EventKind(o.key.kind)), amount);
    MissionsLast(s1, env, e, o.key.user, Matching(defs, o));
    assert forall slot :: ProgressAt(s1, slot) == ProgressAt(s, slot);
    assert forall v: User, id: string :: AchievementAt(s1, v, id) == AchievementAt(s, v, id);
    var s2 := UpdateMissions(s1, env, e, o.key.user, Matching(defs, o)).value;
    assert forall v: User, id: string :: AchievementAt(s2, v, id) == AchievementAt(s1, v, id);
    if o.key.kind == "card_collected" {
      AchievementsLast(s2, env, e, o.key.user, env.achievements);
      var s3 := UpdateAchievements(s2, env, e, o.key.user, env.achievements).value;
      assert forall slot :: ProgressAt(s3, slot) == ProgressAt(s2, slot);
    }
  }

  /** A transaction clears no completion and leaves every finished event as it is. */
  lemma TransactLasts(s: State, defs: seq<MissionDef>, env: Env, e: nat, crashAt: nat)
    ensures var s' := Transact(s, defs, env, e, crashAt).0;
            && (forall slot :: ProgressAt(s, slot).completed ==> ProgressAt(s', slot) == ProgressAt(s, slot))
            && (forall v: User, id: string :: AchievementAt(s, v, id).completed ==> AchievementAt(s', v, id).completed)
            && (forall x: nat :: x != e || Finished(s, x) ==> WorkOf(s', x) == WorkOf(s, x))
            && s'.db.events == s.db.events
  {
    hide Effects, Stages;
    if Transact(s, defs, env, e, crashAt).1.Committed? {
      EffectsLast(s, defs, env, e);
    }
  }

  // ---- retries ----

  /** The same outcome on the same tables with other attempt counts. */
  function WithWork(r: Result<State, GrowthError>, w: map<nat, Work>): Result<State, GrowthError> {
    match r
    case Ok(s) => Ok(s.(work := w))
    case Err(x) => Err(x)
  }

  lemma DeliveriesIgnoreWork(s: State, w: map<nat, Work>, env: Env, key: LedgerKey, amount: int, reward: Option<string>)
    ensures DeliverXp(s.(work := w), env, key, amount) == DeliverXp(s, env, key, amount).(work := w)
    ensures DeliverPoints(s.(work := w), key, amount) == WithWork(DeliverPoints(s, key, amount), w)
    ensures DeliverReward(s.(work := w), env, key, reward) == WithWork(DeliverReward(s, env, key, reward), w)
  {
  }

  lemma MissionIgnoresWork(s: State, w: map<nat, Work>, env: Env, e: nat, u: User, m: MissionDef)
    ensures UpdateMission(s.(work := w), env, e, u, m) == WithWork(UpdateMission(s, env, e, u, m), w)
  {
    hide Sum, Lookup, DeliverXp, DeliverPoints, DeliverReward;
    var slot := Slot(u, m.id, MissionPeriod(m, env.now));
    var key := LedgerKey(u, e, Mission(m.id, slot.period));
    var current := Min(ProgressAt(s, slot).current + 1, m.target);
    var s1 := s.(missions := s.missions[slot := Progress(current, current >= m.target)]);
    DeliveriesIgnoreWork(s1, w, env, key, m.xp, m.reward);
    var s2 := DeliverXp(s1, env, key, m.xp);
    DeliveriesIgnoreWork(s2, w, env, key, m.points, m.reward);
    var s3 := DeliverPoints(s2, key, m.points);
    if s3.Ok? {
      DeliveriesIgnoreWork(s3.value, w, env, key, 0, m.reward);
    }
  }

  lemma {:induction false} MissionsIgnoreWork(s: State, w: map<nat, Work>, env: Env, e: nat, u: User,
                                              ms: seq<MissionDef>)
    ensures UpdateMissions(s.(work := w), env, e, u, ms) == WithWork(UpdateMissions(s, env, e, u, ms), w)
  {
    hide UpdateMission;
    if |ms| > 0 {
      var init := UpdateMissions(s, env, e, u, ms[..|ms| - 1]);
      MissionsIgnoreWork(s, w, env, e, u, ms[..|ms| - 1]);
      if init.Ok? {
        MissionIgnoresWork(init.value, w, env, e, u, ms[|ms| - 1]);
      }
    }
  }

  lemma AchievementIgnoresWork(s: State, w: map<nat, Work>, env: Env, e: nat, u: User, d: AchievementDef, value: int)
    ensures UpdateAchievement(s.(work := w), env, e, u, d, value)
      == WithWork(UpdateAchievement(s, env, e, u, d, value), w)
  {
    hide Sum, Lookup, DeliverXp, DeliverReward;
    var key := LedgerKey(u, e, Achievement(d.id));
    var current := Min(value, d.target);
    var completed := AchievementAt(s, u, d.id).completed || current >= d.target;
    var s1 := s.(achievements := s.achievements[(u, d.id) := Progress(current, completed)]);
    DeliveriesIgnoreWork(s1, w, env, key, d.xpBonus, d.reward);
    DeliveriesIgnoreWork(DeliverXp(s1, env, key, d.xpBonus), w, env, key, 0, d.reward);
  }

  lemma {:induction false} AchievementsIgnoreWork(s: State, w: map<nat, Work>, env: Env, e: nat, u: User,
                                                  ds: seq<(AchievementDef, int)>)
    ensures UpdateAchievements(s.(work := w), env, e, u, ds) == WithWork(UpdateAchievements(s, env, e, u, ds), w)
  {
    hide UpdateAchievement;
    if |ds| > 0 {
      var init := UpdateAchievements(s, env, e, u, ds[..|ds| - 1]);
      AchievementsIgnoreWork(s, w, env, e, u, ds[..|ds| - 1]);
      if init.Ok? {
        AchievementIgnoresWork(init.value, w, env, e, u, ds[|ds| - 1].0, ds[|ds| - 1].1);
      }
    }
  }

  lemma EffectsIgnoreWork(s: State, w: map<nat, Work>, defs: seq<MissionDef>, env: Env, e: nat)
    requires e < |s.db.events|
    ensures Effects(s.(work := w), defs, env, e) == WithWork(Effects(s, defs, env, e), w)
  {
    hide Sum, Lookup, Matching, UpdateMissions, UpdateAchievements;
    var o := OutcomeOf(s, env, e);
    var amount := if Counts(o) then BaseXpFor(o.key.kind) else 0;
    var s1 := DeliverXp(s, env, LedgerKey(o.key.user, e, EventKind(o.key.kind)), amount);
    MissionsIgnoreWork(s1, w, env, e, o.key.user, Matching(defs, o));
    var r2 := UpdateMissions(s1, env, e, o.key.user, Matching(defs, o));
    if r2.Ok? {
      AchievementsIgnoreWork(r2.value, w, env, e, o.key.user, env.achievements);
    }
  }

  /** Attempts at one event, in turn. */
  function Tries(s: State, p: Policy, defs: seq<MissionDef>, e: nat, tries: seq<(Env, nat)>): State {
    if |tries| == 0 then s
    else
      var last := |tries| - 1;
      Attempt(Tries(s, p, defs, e, tries[..last]), p, defs, tries[last].0, e, tries[last].1).0
  }

  /** The attempt crashes at some stage, or is refused: a reward is not published, say, or points are not positive. */
  predicate Fails(s: State, defs: seq<MissionDef>, e: nat, t: (Env, nat))
    requires e < |s.db.events|
  {
    t.1 < Stages(s, defs, t.0, e) || Effects(s, defs, t.0, e).Err?
  }

  ghost predicate AllFail(s: State, defs: seq<MissionDef>, e: nat, tries: seq<(Env, nat)>)
    requires e < |s.db.events|
  {
    forall i :: 0 <= i < |tries| ==> Fails(s, defs, e, tries[i])
  }

  /**
   An event that fails every time is attempted exactly max(1, maxAttempts) times and is then
   dead; none of its attempts leaves a trace but the count.
   */
  lemma {:induction false} AlwaysFailing(s: State, p: Policy, defs: seq<MissionDef>, e: nat, tries: seq<(Env, nat)>)
    requires e < |s.db.events| && WorkOf(s, e) == Work(EventStatus.Pending, 0, None) && AllFail(s, defs, e, tries)
    ensures var s' := Tries(s, p, defs, e, tries);
            var most := Max(1, p.maxAttempts);
            && s' == s.(work := s'.work)
            && WorkOf(s', e).attempts == Min(|tries|, most)
            && WorkOf(s', e).status == if tries == [] then EventStatus.Pending
                                       else if |tries| < most then EventStatus.Failed else Dead
  {
    hide Attempt, Fails;
    if |tries| > 0 {
      var last := |tries| - 1;
      assert forall i :: 0 <= i < last ==> tries[..last][i] == tries[i];
      AlwaysFailing(s, p, defs, e, tries[..last]);
      OneFailure(s, Tries(s, p, defs, e, tries[..last]), p, defs, e, tries[last]);
    }
  }

  /** One more failure, on tables that differ from s in attempt counts only. */
  lemma OneFailure(s: State, s1: State, p: Policy, defs: seq<MissionDef>, e: nat, t: (Env, nat))
    requires e < |s.db.events| && s1 == s.(work := s1.work) && Fails(s, defs, e, t)
    ensures var s2 := Attempt(s1, p, defs, t.0, e, t.1).0;
            s2 == s.(work := s2.work)
            && WorkOf(s2, e) == if Finished(s1, e) then WorkOf(s1, e)
                                else AfterFailure(p, WorkOf(s1, e).attempts + 1, t.0.now)
  {
    EffectsIgnoreWork(s, s1.work, defs, t.0, e);
    assert Stages(s1, defs, t.0, e) == Stages(s, defs, t.0, e);
    hide Effects, Stages;
  }

  /**
   Failures are invisible: an event that fails fewer times than the policy allows and then goes
   through leaves the same tables as if it had gone through at once; only the attempt count tells.
   */
  lemma RetryEqualsFirstTry(s: State, p: Policy, defs: seq<MissionDef>, e: nat, tries: seq<(Env, nat)>, env: Env,
                            crashAt: nat)
    requires e < |s.db.events| && WorkOf(s, e) == Work(EventStatus.Pending, 0, None) && AllFail(s, defs, e, tries)
    requires |tries| < Max(1, p.maxAttempts) && Attempt(s, p, defs, env, e, crashAt).1.None?
    ensures var once := Attempt(s, p, defs, env, e, crashAt).0;
            var (retried, x) := Attempt(Tries(s, p, defs, e, tries), p, defs, env, e, crashAt);
            x.None? && retried == once.(work := retried.work)
            && WorkOf(once, e).status == WorkOf(retried, e).status == EventStatus.Processed
            && WorkOf(retried, e).attempts == |tries| + 1
  {
    AlwaysFailing(s, p, defs, e, tries);
    hide Attempt, Tries, AllFail;
    SuccessIgnoresWork(s, Tries(s, p, defs, e, tries), p, defs, env, e, crashAt);
  }

  /** A successful attempt does the same to tables that differ in attempt counts only. */
  lemma SuccessIgnoresWork(s: State, s': State, p: Policy, defs: seq<MissionDef>, env: Env, e: nat, crashAt: nat)
    requires e < |s.db.events| && s' == s.(work := s'.work) && !Finished(s, e) && !Finished(s', e)
    requires Attempt(s, p, defs, env, e, crashAt).1.None?
    ensures var once := Attempt(s, p, defs, env, e, crashAt).0;
            var (again, x) := Attempt(s', p, defs, env, e, crashAt);
            x.None? && again == once.(work := again.work)
            && WorkOf(once, e).status == WorkOf(again, e).status == EventStatus.Processed
            && WorkOf(again, e).attempts == WorkOf(s', e).attempts + 1
  {
    EffectsIgnoreWork(s, s'.work, defs, env, e);
    assert Stages(s', defs, env, e) == Stages(s, defs, env, e);
    hide Effects, Stages;
  }
}

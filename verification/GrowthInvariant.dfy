/** What every attempt keeps: the totals, the mission counters and what was delivered for them. */
module GrowthInvariant {
  import opened Wrappers
  import opened Tables
  import opened PointTables
  import PointLedger
  import PointInvariant
  import opened LedgerRows
  import opened GrowthTables

  ghost predicate LevelOk(s: State, u: User) {
    Sum(s.xp, XpOf(u)) == if u in s.levels then s.levels[u].totalXp else 0
  }

  ghost predicate Core(s: State) {
    PointInvariant.Valid(s.db) && Unique(s.xp) && Unique(s.rewards) && forall u: User :: LevelOk(s, u)
  }

  lemma DeliverXpAdds(s: State, env: Env, key: LedgerKey, amount: int)
    requires Core(s) && Lookup(s.xp, key).None?
    ensures var s' := DeliverXp(s, env, key, amount);
            Core(s') && s' == s.(xp := Plus(s.xp, amount != 0, Row(key, amount)), levels := s'.levels)
  {
    var s' := DeliverXp(s, env, key, amount);
    forall u: User
      ensures LevelOk(s', u)
    {
      assert LevelOk(s, u);
      SumPlus(s.xp, amount != 0, Row(key, amount), XpOf(u));
    }
  }

  lemma DeliverPointsAdds(s: State, key: LedgerKey, amount: int) returns (after: Posting)
    requires Core(s) && Lookup(s.db.ledger, key).None? && DeliverPoints(s, key, amount).Ok?
    ensures var s' := DeliverPoints(s, key, amount).value;
            Core(s') && s' == s.(db := s'.db) && s'.db.events == s.db.events
            && s'.db.ledger == Plus(s.db.ledger, amount != 0, Row(key, after)) && after.amount == amount
  {
    var s' := DeliverPoints(s, key, amount).value;
    hide Sum, Lookup;
    PointInvariant.GrantKeeps(s.db, key.user, key.event, key.rule, amount);
    after := Posting(Earn, amount, Balance(s.db, key.user) + amount, None);
    assert forall u: User :: LevelOk(s, u) ==> LevelOk(s', u);
  }

  lemma DeliverRewardAdds(s: State, env: Env, key: LedgerKey, reward: Option<string>)
    requires Core(s) && Lookup(s.rewards, key).None? && DeliverReward(s, env, key, reward).Ok?
    ensures var s' := DeliverReward(s, env, key, reward).value;
            Core(s')
            && s' == s.(rewards := Plus(s.rewards, reward.Some?, Row(key, if reward.Some? then reward.value else "")))
  {
    var s' := DeliverReward(s, env, key, reward).value;
    hide Sum;
    assert forall u: User :: LevelOk(s, u) ==> LevelOk(s', u);
  }

  // ---- missions ----

  /** Exactly one row under the rule when the delivery is due, and none otherwise. */
  ghost predicate Delivered<V>(t: seq<Row<LedgerKey, V>>, u: User, rule: RuleKey, due: bool) {
    Sum(t, Under(u, rule)) == if due then 1 else 0
  }

  /**
   A mission in one period after `hits` matching events: the counter, its completion, and one
   delivery each of the experience, points and reward the mission promises.
   */
  ghost predicate MissionOk(s: State, m: MissionDef, u: User, p: Period, hits: int) {
    var progress := ProgressAt(s, Slot(u, m.id, p));
    var rule := Mission(m.id, p);
    && progress == Progress(Min(hits, m.target), hits >= m.target)
    && Delivered(s.xp, u, rule, progress.completed && m.xp != 0)
    && Delivered(s.db.ledger, u, rule, progress.completed && m.points != 0)
    && Delivered(s.rewards, u, rule, progress.completed && m.reward.Some?)
    && (forall i :: 0 <= i < |s.xp| && s.xp[i].key.user == u && s.xp[i].key.rule == rule ==> s.xp[i].val == m.xp)
    && (forall i :: 0 <= i < |s.db.ledger| && s.db.ledger[i].key.user == u && s.db.ledger[i].key.rule == rule ==>
          s.db.ledger[i].val.amount == m.points)
    && (forall i :: 0 <= i < |s.rewards| && s.rewards[i].key.user == u && s.rewards[i].key.rule == rule ==>
          m.reward == Some(s.rewards[i].val))
  }

  lemma DeliverMissionAdds(s: State, env: Env, key: LedgerKey, m: MissionDef) returns (after: Posting)
    requires Core(s) && DeliverMission(s, env, key, m).Ok?
    requires Lookup(s.xp, key).None? && Lookup(s.db.ledger, key).None? && Lookup(s.rewards, key).None?
    ensures var s' := DeliverMission(s, env, key, m).value;
            Core(s') && s'.db.events == s.db.events
            && s' == s.(xp := Plus(s.xp, m.xp != 0, Row(key, m.xp)), levels := s'.levels, db := s'.db,
                        rewards := Plus(s.rewards, m.reward.Some?,
                                        Row(key, if m.reward.Some? then m.reward.value else "")))
            && s'.db.ledger == Plus(s.db.ledger, m.points != 0, Row(key, after)) && after.amount == m.points
  {
    hide Sum, Lookup, GrantXp, GrantReward, DeliverXp, DeliverReward, DeliverPoints, Core, Plus;
    DeliverXpAdds(s, env, key, m.xp);
    var s2 := DeliverXp(s, env, key, m.xp);
    after := DeliverPointsAdds(s2, key, m.points);
    DeliverRewardAdds(DeliverPoints(s2, key, m.points).value, env, key, m.reward);
  }

  /** One more row in each table where the mission delivers turns "none due" into "one due". */
  lemma DeliveredOnce<V>(t: seq<Row<LedgerKey, V>>, key: LedgerKey, add: bool, v: V)
    requires Delivered(t, key.user, key.rule, false)
    ensures var t' := Plus(t, add, Row(key, v));
            Delivered(t', key.user, key.rule, add) && Posts(t, t', key)
            && forall i :: 0 <= i < |t'| && t'[i].key.user == key.user && t'[i].key.rule == key.rule ==> t'[i].val == v
  {
    NoneUnder(t, key.user, key.rule);
    SumPlus(t, add, Row(key, v), Under(key.user, key.rule));
  }

  /** One more hit: the slot's mission moves on, and a completing hit delivers. */
  lemma MissionHit(s: State, env: Env, e: nat, u: User, m: MissionDef, hits: int)
    requires Core(s) && m.target > 0 && hits >= 0 && UpdateMission(s, env, e, u, m).Ok?
    requires MissionOk(s, m, u, MissionPeriod(m, env.now), hits)
    ensures var s' := UpdateMission(s, env, e, u, m).value;
            Core(s') && MissionOk(s', m, u, MissionPeriod(m, env.now), hits + 1)
            && Advanced(s, s', LedgerKey(u, e, Mission(m.id, MissionPeriod(m, env.now))))
            && s'.achievements == s.achievements
            && forall slot :: slot != Slot(u, m.id, MissionPeriod(m, env.now)) ==>
              ProgressAt(s', slot) == ProgressAt(s, slot)
  {
    hide Sum, Lookup, DeliverMission, Plus, MissionPeriod;
    var p := MissionPeriod(m, env.now);
    var slot, key := Slot(u, m.id, p), LedgerKey(u, e, Mission(m.id, p));
    var progress := ProgressAt(s, slot);
    if !progress.completed {
      var current := Min(progress.current + 1, m.target);
      var s1 := s.(missions := s.missions[slot := Progress(current, current >= m.target)]);
      assert forall v: User :: LevelOk(s, v) ==> LevelOk(s1, v);
      if current >= m.target {
        NoneUnder(s.xp, u, key.rule);
        NoneUnder(s.db.ledger, u, key.rule);
        NoneUnder(s.rewards, u, key.rule);
        var after := DeliverMissionAdds(s1, env, key, m);
        DeliveredOnce(s.xp, key, m.xp != 0, m.xp);
        DeliveredOnce(s.db.ledger, key, m.points != 0, after);
        DeliveredOnce(s.rewards, key, m.reward.Some?, if m.reward.Some? then m.reward.value else "");
        RewardRows(s.rewards, key, m);
      }
    }
  }

  /** A mission without a reward leaves no reward row. */
  lemma RewardRows(t: seq<Row<LedgerKey, string>>, key: LedgerKey, m: MissionDef)
    requires Delivered(t, key.user, key.rule, false)
    ensures var t' := Plus(t, m.reward.Some?, Row(key, if m.reward.Some? then m.reward.value else ""));
            forall i :: 0 <= i < |t'| && t'[i].key.user == key.user && t'[i].key.rule == key.rule ==>
              m.reward == Some(t'[i].val)
  {
    NoneUnder(t, key.user, key.rule);
  }

  /** Nothing but deliveries under one key happened to the tables. */
  ghost predicate Advanced(s: State, s': State, key: LedgerKey) {
    && s'.log == s.log && s'.work == s.work && s'.db.events == s.db.events
    && Posts(s.xp, s'.xp, key) && Posts(s.db.ledger, s'.db.ledger, key) && Posts(s.rewards, s'.rewards, key)
  }

  lemma MissionElsewhere(s: State, s': State, key: LedgerKey, m: MissionDef, u: User, p: Period, hits: int)
    requires MissionOk(s, m, u, p, hits) && Advanced(s, s', key)
    requires !(key.user == u && key.rule == Mission(m.id, p))
    requires ProgressAt(s', Slot(u, m.id, p)) == ProgressAt(s, Slot(u, m.id, p))
    ensures MissionOk(s', m, u, p, hits)
  {
    hide Sum;
    PostsElsewhere(s.xp, s'.xp, key, u, Mission(m.id, p));
    PostsElsewhere(s.db.ledger, s'.db.ledger, key, u, Mission(m.id, p));
    PostsElsewhere(s.rewards, s'.rewards, key, u, Mission(m.id, p));
  }

  /** The processed events that matched mission m for user u in period p. */
  function HitOf(m: MissionDef, u: User, p: Period): Row<nat, Outcome> -> int {
    (r: Row<nat, Outcome>) =>
      if r.val.key.user == u && Counts(r.val) && Matches(m, r.val) && MissionPeriod(m, r.val.now) == p then 1 else 0
  }

  function Hits(log: seq<Row<nat, Outcome>>, m: MissionDef, u: User, p: Period): int {
    Sum(log, HitOf(m, u, p))
  }

  lemma {:induction false} HitsNatural(log: seq<Row<nat, Outcome>>, m: MissionDef, u: User, p: Period)
    ensures Hits(log, m, u, p) >= 0
  {
    if |log| > 0 {
      HitsNatural(log[..|log| - 1], m, u, p);
    }
  }

  /** The hit that the event being processed has already had, once its mission is among those done. */
  function Pending(o: Outcome, done: seq<MissionDef>, m: MissionDef, u: User, p: Period): int {
    if m in done && u == o.key.user && p == MissionPeriod(m, o.now) then 1 else 0
  }

  ghost predicate DistinctIds(defs: seq<MissionDef>) {
    && (forall i, j :: 0 <= i < j < |defs| ==> defs[i].id != defs[j].id)
    && (forall i :: 0 <= i < |defs| ==> defs[i].target > 0)
  }

  ghost predicate MissionsOk(s: State, defs: seq<MissionDef>, o: Outcome, done: seq<MissionDef>) {
    forall m: MissionDef, u: User, p: Period :: m in defs ==>
      MissionOk(s, m, u, p, Hits(s.log, m, u, p) + Pending(o, done, m, u, p))
  }

  // ---- achievements ----

  /** An achievement pays its bonus and its reward once, whatever its value does afterwards. */
  ghost predicate AchievementOk(s: State, d: AchievementDef, u: User) {
    var completed := AchievementAt(s, u, d.id).completed;
    var rule := Achievement(d.id);
    && Delivered(s.xp, u, rule, completed && d.xpBonus != 0)
    && Delivered(s.rewards, u, rule, completed && d.reward.Some?)
    && (forall i :: 0 <= i < |s.xp| && s.xp[i].key.user == u && s.xp[i].key.rule == rule ==> s.xp[i].val == d.xpBonus)
    && (forall i :: 0 <= i < |s.rewards| && s.rewards[i].key.user == u && s.rewards[i].key.rule == rule ==>
          d.reward == Some(s.rewards[i].val))
  }

  ghost predicate AchievementsOk(s: State, ds: seq<AchievementDef>) {
    forall d: AchievementDef, u: User :: d in ds ==> AchievementOk(s, d, u)
  }

  ghost predicate DistinctAchievements(ds: seq<AchievementDef>) {
    forall i, j :: 0 <= i < j < |ds| ==> ds[i].id != ds[j].id
  }

  lemma AchievementUpdate(s: State, env: Env, e: nat, u: User, d: AchievementDef, value: int)
    requires Core(s) && AchievementOk(s, d, u) && UpdateAchievement(s, env, e, u, d, value).Ok?
    ensures var s' := UpdateAchievement(s, env, e, u, d, value).value;
            Core(s') && AchievementOk(s', d, u) && Advanced(s, s', LedgerKey(u, e, Achievement(d.id)))
            && s'.missions == s.missions
            && (AchievementAt(s, u, d.id).completed ==> AchievementAt(s', u, d.id).completed)
            && forall v: User, id: string :: (v, id) != (u, d.id) ==>
              AchievementAt(s', v, id) == AchievementAt(s, v, id)
  {
    hide Sum, Lookup, GrantXp, GrantReward, DeliverXp, DeliverReward;
    var s' := UpdateAchievement(s, env, e, u, d, value).value;
    var progress := AchievementAt(s, u, d.id);
    var current := Min(value, d.target);
    var completed := progress.completed || current >= d.target;
    var s1 := s.(achievements := s.achievements[(u, d.id) := Progress(current, completed)]);
    assert forall v: User :: LevelOk(s, v) ==> LevelOk(s1, v);
    if !progress.completed && current >= d.target {
      var key := LedgerKey(u, e, Achievement(d.id));
      NoneUnder(s.xp, u, key.rule);
      NoneUnder(s.rewards, u, key.rule);
      DeliverXpAdds(s1, env, key, d.xpBonus);
      DeliverRewardAdds(DeliverXp(s1, env, key, d.xpBonus), env, key, d.reward);
      SumPlus(s.xp, d.xpBonus != 0, Row(key, d.xpBonus), Under(u, key.rule));
      SumPlus(s.rewards, d.reward.Some?, Row(key, if d.reward.Some? then d.reward.value else ""), Under(u, key.rule));
    }
  }

  lemma AchievementElsewhere(s: State, s': State, key: LedgerKey, d: AchievementDef, u: User)
    requires AchievementOk(s, d, u) && Advanced(s, s', key)
    requires !(key.user == u && key.rule == Achievement(d.id))
    requires AchievementAt(s', u, d.id) == AchievementAt(s, u, d.id)
    ensures AchievementOk(s', d, u)
  {
  }

  // ---- base experience ----

  function BaseOf(u: User): XpRow -> int {
    (r: XpRow) => if r.key.user == u && r.key.rule.EventKind? then r.val else 0
  }

  function BaseHit(u: User): Row<nat, Outcome> -> int {
    (r: Row<nat, Outcome>) => if r.val.key.user == u && Counts(r.val) then BaseXpFor(r.val.key.kind) else 0
  }

  /** Every base row stems from a processed event, or from event `current`. */
  ghost predicate BaseRows(s: State, current: set<nat>) {
    forall i :: 0 <= i < |s.xp| && s.xp[i].key.rule.EventKind? ==>
      s.xp[i].key.event in current || Lookup(s.log, s.xp[i].key.event).Some?
  }

  ghost predicate BaseOk(s: State, u: User, extra: int) {
    Sum(s.xp, BaseOf(u)) == Sum(s.log, BaseHit(u)) + extra
  }

  /** The base experience of the event being processed. */
  function BaseExtra(o: Outcome, u: User): int {
    if u == o.key.user && Counts(o) then BaseXpFor(o.key.kind) else 0
  }

  // ---- one attempt ----

  /** While event e with outcome o is processed: its base experience is in, and the missions in `done` are updated. */
  ghost predicate During(s: State, defs: seq<MissionDef>, ds: seq<AchievementDef>, e: nat, o: Outcome,
                         done: seq<MissionDef>)
  {
    && Core(s) && BaseRows(s, {e})
    && (forall u: User :: BaseOk(s, u, BaseExtra(o, u)))
    && MissionsOk(s, defs, o, done)
    && AchievementsOk(s, ds)
  }

  ghost predicate LogOk(s: State) {
    && Unique(s.log)
    && (forall e: nat :: Lookup(s.log, e).Some? <==> WorkOf(s, e).status == Processed)
    && (forall i :: 0 <= i < |s.log| ==>
      s.log[i].key < |s.db.events| && s.db.events[s.log[i].key].key == s.log[i].val.key)
  }

  /** The invariant between attempts. */
  ghost predicate Invariant(s: State, defs: seq<MissionDef>, ds: seq<AchievementDef>) {
    && Core(s) && LogOk(s) && BaseRows(s, {})
    && (forall u: User :: BaseOk(s, u, 0))
    && (forall m: MissionDef, u: User, p: Period :: m in defs ==> MissionOk(s, m, u, p, Hits(s.log, m, u, p)))
    && AchievementsOk(s, ds)
  }

  lemma BaseStage(s: State, defs: seq<MissionDef>, ds: seq<AchievementDef>, env: Env, e: nat)
    requires Invariant(s, defs, ds) && e < |s.db.events| && WorkOf(s, e).status != Processed
    ensures var o := OutcomeOf(s, env, e);
            var amount := if Counts(o) then BaseXpFor(o.key.kind) else 0;
            var key := LedgerKey(o.key.user, e, EventKind(o.key.kind));
            var s1 := DeliverXp(s, env, key, amount);
            During(s1, defs, ds, e, o, []) && Advanced(s, s1, key)
  {
    hide Sum, Lookup, MissionOk, AchievementOk;
    var o := OutcomeOf(s, env, e);
    var amount := if Counts(o) then BaseXpFor(o.key.kind) else 0;
    var key := LedgerKey(o.key.user, e, EventKind(o.key.kind));
    var s1 := DeliverXp(s, env, key, amount);
    DeliverXpAdds(s, env, key, amount);
    forall u: User
      ensures BaseOk(s1, u, BaseExtra(o, u))
    {
      assert BaseOk(s, u, 0);
      SumPlus(s.xp, amount != 0, Row(key, amount), BaseOf(u));
    }
    forall m: MissionDef, u: User, p: Period | m in defs
      ensures MissionOk(s1, m, u, p, Hits(s1.log, m, u, p) + Pending(o, [], m, u, p))
    {
      assert MissionOk(s, m, u, p, Hits(s.log, m, u, p));
      MissionElsewhere(s, s1, key, m, u, p, Hits(s.log, m, u, p));
    }
    forall d: AchievementDef, u: User | d in ds
      ensures AchievementOk(s1, d, u)
    {
      AchievementElsewhere(s, s1, key, d, u);
    }
  }

  lemma MissionStage(s: State, defs: seq<MissionDef>, ds: seq<AchievementDef>, env: Env, e: nat, o: Outcome,
                     done: seq<MissionDef>, m: MissionDef)
    requires During(s, defs, ds, e, o, done) && DistinctIds(defs) && m in defs && m !in done && o.now == env.now
    requires UpdateMission(s, env, e, o.key.user, m).Ok?
    ensures var s' := UpdateMission(s, env, e, o.key.user, m).value;
            During(s', defs, ds, e, o, done + [m])
            && s'.log == s.log && s'.work == s.work && s'.db.events == s.db.events && s'.achievements == s.achievements
  {
    hide Sum, Lookup, MissionOk, AchievementOk, UpdateMission, Hits;
    var u, p := o.key.user, MissionPeriod(m, env.now);
    var s' := UpdateMission(s, env, e, u, m).value;
    var key := LedgerKey(u, e, Mission(m.id, p));
    HitsNatural(s.log, m, u, p);
    assert MissionOk(s, m, u, p, Hits(s.log, m, u, p) + Pending(o, done, m, u, p));
    MissionHit(s, env, e, u, m, Hits(s.log, m, u, p));
    forall m': MissionDef, u': User, p': Period | m' in defs
      ensures MissionOk(s', m', u', p', Hits(s'.log, m', u', p') + Pending(o, done + [m], m', u', p'))
    {
      assert MissionOk(s, m', u', p', Hits(s.log, m', u', p') + Pending(o, done, m', u', p'));
      assert m'.id == m.id ==> m' == m;
      if !(m' == m && u' == u && p' == p) {
        MissionElsewhere(s, s', key, m', u', p', Hits(s.log, m', u', p') + Pending(o, done, m', u', p'));
      }
    }
    forall d: AchievementDef, v: User | d in ds
      ensures AchievementOk(s', d, v)
    {
      AchievementElsewhere(s, s', key, d, v);
    }
    BaseKept(s, s', key, e, o);
  }

  lemma BaseKept(s: State, s': State, key: LedgerKey, e: nat, o: Outcome)
    requires Advanced(s, s', key) && !key.rule.EventKind? && BaseRows(s, {e})
    requires forall u: User :: BaseOk(s, u, BaseExtra(o, u))
    ensures BaseRows(s', {e})
    ensures forall u: User :: BaseOk(s', u, BaseExtra(o, u))
  {
  }

  lemma {:induction false} MissionStages(s: State, defs: seq<MissionDef>, ds: seq<AchievementDef>, env: Env, e: nat,
                                         o: Outcome, ms: seq<MissionDef>)
    requires During(s, defs, ds, e, o, []) && DistinctIds(defs) && o.now == env.now
    requires (forall m :: m in ms ==> m in defs) && forall i, j :: 0 <= i < j < |ms| ==> ms[i] != ms[j]
    requires UpdateMissions(s, env, e, o.key.user, ms).Ok?
    ensures var s' := UpdateMissions(s, env, e, o.key.user, ms).value;
            During(s', defs, ds, e, o, ms)
            && s'.log == s.log && s'.work == s.work && s'.db.events == s.db.events && s'.achievements == s.achievements
  {
    hide During, UpdateMission;
    if |ms| > 0 {
      var init, m := ms[..|ms| - 1], ms[|ms| - 1];
      assert ms == init + [m];
      MissionStages(s, defs, ds, env, e, o, init);
      MissionStage(UpdateMissions(s, env, e, o.key.user, init).value, defs, ds, env, e, o, init, m);
    }
  }

  lemma {:induction false} MatchingDistinct(defs: seq<MissionDef>, o: Outcome)
    requires DistinctIds(defs)
    ensures forall i, j :: 0 <= i < j < |Matching(defs, o)| ==> Matching(defs, o)[i] != Matching(defs, o)[j]
  {
    hide Matches;
    if |defs| > 0 {
      MatchingDistinct(defs[..|defs| - 1], o);
    }
  }

  lemma AchievementStage(s: State, defs: seq<MissionDef>, ds: seq<AchievementDef>, env: Env, e: nat, o: Outcome,
                         done: seq<MissionDef>, d: AchievementDef, value: int)
    requires During(s, defs, ds, e, o, done) && DistinctAchievements(ds) && d in ds
    requires UpdateAchievement(s, env, e, o.key.user, d, value).Ok?
    ensures var s' := UpdateAchievement(s, env, e, o.key.user, d, value).value;
            During(s', defs, ds, e, o, done)
            && s'.log == s.log && s'.work == s.work && s'.db.events == s.db.events
            && forall v: User, id: string :: AchievementAt(s, v, id).completed ==> AchievementAt(s', v, id).completed
  {
    hide Sum, Lookup, MissionOk, AchievementOk, UpdateAchievement, Hits;
    var u := o.key.user;
    var s' := UpdateAchievement(s, env, e, u, d, value).value;
    var key := LedgerKey(u, e, Achievement(d.id));
    AchievementUpdate(s, env, e, u, d, value);
    forall m: MissionDef, u': User, p: Period | m in defs
      ensures MissionOk(s', m, u', p, Hits(s'.log, m, u', p) + Pending(o, done, m, u', p))
    {
      assert MissionOk(s, m, u', p, Hits(s.log, m, u', p) + Pending(o, done, m, u', p));
      MissionElsewhere(s, s', key, m, u', p, Hits(s.log, m, u', p) + Pending(o, done, m, u', p));
    }
    forall d': AchievementDef, v: User | d' in ds
      ensures AchievementOk(s', d', v)
    {
      assert AchievementOk(s, d', v);
      assert d'.id == d.id ==> d' == d;
      if !(d' == d && v == u) {
        AchievementElsewhere(s, s', key, d', v);
      }
    }
    BaseKept(s, s', key, e, o);
  }

  lemma {:induction false} AchievementStages(s: State, defs: seq<MissionDef>, ds: seq<AchievementDef>, env: Env, e: nat,
                                             o: Outcome, done: seq<MissionDef>, values: seq<(AchievementDef, int)>)
    requires During(s, defs, ds, e, o, done) && DistinctAchievements(ds)
    requires forall i :: 0 <= i < |values| ==> values[i].0 in ds
    requires UpdateAchievements(s, env, e, o.key.user, values).Ok?
    ensures var s' := UpdateAchievements(s, env, e, o.key.user, values).value;
            During(s', defs, ds, e, o, done)
            && s'.log == s.log && s'.work == s.work && s'.db.events == s.db.events
            && forall v: User, id: string :: AchievementAt(s, v, id).completed ==> AchievementAt(s', v, id).completed
  {
    hide During, UpdateAchievement;
    if |values| > 0 {
      var init := values[..|values| - 1];
      AchievementStages(s, defs, ds, env, e, o, done, init);
      AchievementStage(UpdateAchievements(s, env, e, o.key.user, init).value, defs, ds, env, e, o, done,
                       values[|values| - 1].0, values[|values| - 1].1);
    }
  }

  /** A successful attempt's effects, before the event is marked processed. */
  lemma EffectsOk(s: State, defs: seq<MissionDef>, ds: seq<AchievementDef>, env: Env, e: nat)
    requires Invariant(s, defs, ds) && DistinctIds(defs) && DistinctAchievements(ds)
    requires forall i :: 0 <= i < |env.achievements| ==> env.achievements[i].0 in ds
    requires e < |s.db.events| && WorkOf(s, e).status != Processed && Effects(s, defs, env, e).Ok?
    ensures var s' := Effects(s, defs, env, e).value;
            var o := OutcomeOf(s, env, e);
            During(s', defs, ds, e, o, Matching(defs, o))
            && s'.log == s.log && s'.work == s.work && s'.db.events == s.db.events
            && forall v: User, id: string :: AchievementAt(s, v, id).completed ==> AchievementAt(s', v, id).completed
  {
    hide During, Invariant, UpdateMission, UpdateAchievement, Matching, Matches;
    var o := OutcomeOf(s, env, e);
    var amount := if Counts(o) then BaseXpFor(o.key.kind) else 0;
    BaseStage(s, defs, ds, env, e);
    var s1 := DeliverXp(s, env, LedgerKey(o.key.user, e, EventKind(o.key.kind)), amount);
    assert s1.achievements == s.achievements;
    MatchingDistinct(defs, o);
    MissionStages(s1, defs, ds, env, e, o, Matching(defs, o));
    if o.key.kind == "card_collected" {
      AchievementStages(UpdateMissions(s1, env, e, o.key.user, Matching(defs, o)).value, defs, ds, env, e, o,
                        Matching(defs, o), env.achievements);
    }
  }

  lemma CommitOk(s: State, s': State, defs: seq<MissionDef>, ds: seq<AchievementDef>, e: nat, o: Outcome, w: Work)
    requires LogOk(s) && During(s', defs, ds, e, o, Matching(defs, o))
    requires s'.log == s.log && s'.work == s.work && s'.db.events == s.db.events
    requires e < |s.db.events| && o.key == s.db.events[e].key && WorkOf(s, e).status != Processed
      && w.status == Processed
    ensures Invariant(s'.(work := s'.work[e := w], log := s'.log + [Row(e, o)]), defs, ds)
  {
    hide Sum, Lookup, Matching, Matches, Counts;
    var t := s'.(work := s'.work[e := w], log := s'.log + [Row(e, o)]);
    assert forall u: User :: LevelOk(s', u) ==> LevelOk(t, u);
    forall u: User
      ensures BaseOk(t, u, 0)
    {
      SumAppend(s.log, Row(e, o), BaseHit(u));
      assert BaseOk(s', u, BaseExtra(o, u));
    }
    forall m: MissionDef, u: User, p: Period | m in defs
      ensures MissionOk(t, m, u, p, Hits(t.log, m, u, p))
    {
      SumAppend(s.log, Row(e, o), HitOf(m, u, p));
      assert MissionOk(s', m, u, p, Hits(s'.log, m, u, p) + Pending(o, Matching(defs, o), m, u, p));
    }
    forall d: AchievementDef, u: User | d in ds
      ensures AchievementOk(t, d, u)
    {
      assert AchievementOk(s', d, u);
    }
    LogGrows(s.log, e, o);
    assert forall x: nat :: WorkOf(t, x) == if x == e then w else WorkOf(s, x);
  }

  lemma LogGrows(log: seq<Row<nat, Outcome>>, e: nat, o: Outcome)
    requires Unique(log) && Lookup(log, e).None?
    ensures Unique(log + [Row(e, o)])
    ensures forall x: nat :: Lookup(log + [Row(e, o)], x).Some? <==> x == e || Lookup(log, x).Some?
  {
  }
}

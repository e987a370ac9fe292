/** What one committed attempt does, told by the event and the definitions themselves. */
module GrowthOutcomes {
  import opened Wrappers
  import opened Tables
  import opened PointTables
  import PointInvariant
  import opened GrowthTables
  import opened GrowthInvariant
  import opened GrowthRuns

  // ---- base experience and eligibility ----

  /**
   A committed attempt earns its user 30 for a collected card from an eligible source, costs 30 for
   a revoked card, and moves no other base experience. An ineligible collect moves no mission either.
   */
  lemma CommittedBase(s: State, defs: seq<MissionDef>, ds: seq<AchievementDef>, env: Env, e: nat, crashAt: nat, u: User)
    requires Invariant(s, defs, ds) && Fixed(defs, ds, env) && Transact(s, defs, env, e, crashAt).1.Committed?
    ensures var s' := Transact(s, defs, env, e, crashAt).0;
            var key := s.db.events[e].key;
            && Sum(s'.xp, BaseOf(u)) - Sum(s.xp, BaseOf(u))
               == (if key.user != u then 0
                   else if key.kind == "card_collected" then (if env.eligible then 30 else 0)
                   else if key.kind == "card_revoked" then -30 else 0)
            && (key.kind == "card_collected" && !env.eligible ==> s'.missions == s.missions)
  {
    TransactKeeps(s, defs, ds, env, e, crashAt);
    CommittedLog(s, defs, env, e, crashAt);
    BaseOfOne(s, env, e, u);
    if s.db.events[e].key.kind == "card_collected" && !env.eligible {
      NoMissions(s, defs, env, e, crashAt);
    }
    hide Transact, Invariant, Sum, BaseOf, BaseHit, OutcomeOf, Fixed;
    BaseFollowsLog(s, defs, ds, u);
    BaseFollowsLog(Transact(s, defs, env, e, crashAt).0, defs, ds, u);
    SumAppend(s.log, Row(e, OutcomeOf(s, env, e)), BaseHit(u));
  }

  lemma BaseOfOne(s: State, env: Env, e: nat, u: User)
    requires e < |s.db.events|
    ensures var key := s.db.events[e].key;
            BaseHit(u)(Row(e, OutcomeOf(s, env, e)))
            == if key.user != u then 0
               else if key.kind == "card_collected" then (if env.eligible then 30 else 0)
               else if key.kind == "card_revoked" then -30 else 0
  {
    assert "card_collected"[5] != "card_revoked"[5];
  }

  lemma BaseFollowsLog(s: State, defs: seq<MissionDef>, ds: seq<AchievementDef>, u: User)
    requires Invariant(s, defs, ds)
    ensures Sum(s.xp, BaseOf(u)) == Sum(s.log, BaseHit(u))
  {
    hide Sum;
    assert BaseOk(s, u, 0);
  }

  lemma CommittedLog(s: State, defs: seq<MissionDef>, env: Env, e: nat, crashAt: nat)
    requires Transact(s, defs, env, e, crashAt).1.Committed?
    ensures e < |s.db.events| && Transact(s, defs, env, e, crashAt).0.log == s.log + [Row(e, OutcomeOf(s, env, e))]
  {
    hide Effects, Stages;
    EffectsLast(s, defs, env, e);
  }

  lemma NoMissions(s: State, defs: seq<MissionDef>, env: Env, e: nat, crashAt: nat)
    requires Transact(s, defs, env, e, crashAt).1.Committed?
    requires s.db.events[e].key.kind == "card_collected" && !env.eligible
    ensures Transact(s, defs, env, e, crashAt).0.missions == s.missions
  {
    var o := OutcomeOf(s, env, e);
    assert forall m :: m in Matching(defs, o) ==> Counts(o);
    var ms := Matching(defs, o);
    assert forall k :: 0 <= k < |ms| ==> ms[k] in ms;
    hide Sum, Lookup, Matching, UpdateAchievements, Stages;
    assert UpdateMissions(s, env, e, o.key.user, []) == Ok(s);
    AchievementsLast(s, env, e, o.key.user, env.achievements);
  }

  // ---- missions ----

  /** Whether an event counts for mission m: every guard of the definition, and an eligible source for a collect. */
  predicate CountsFor(m: MissionDef, key: EventKey, payload: map<string, string>, env: Env) {
    && key.kind == m.eventKind && (key.kind == "card_collected" ==> env.eligible)
    && (m.startsAt.Some? ==> m.startsAt.value <= env.now) && (m.endsAt.Some? ==> env.now <= m.endsAt.value)
    && (m.organization.Some? ==> env.organization == m.organization)
    && (m.artist.Some? ==> "artistId" in payload && payload["artistId"] == m.artist.value)
    && (forall f :: f in m.conditions ==> f in payload && payload[f] in m.conditions[f])
  }

  /**
   A committed attempt moves exactly the missions it counts for, in the period of its time, by one,
   until complete.
   */
  lemma CommittedMission(s: State, defs: seq<MissionDef>, ds: seq<AchievementDef>, env: Env, e: nat, crashAt: nat,
                         m: MissionDef, u: User, p: Period)
    requires Invariant(s, defs, ds) && Fixed(defs, ds, env) && Transact(s, defs, env, e, crashAt).1.Committed?
    requires m in defs
    ensures var Row(key, payload) := s.db.events[e];
            var before := ProgressAt(s, Slot(u, m.id, p));
            ProgressAt(Transact(s, defs, env, e, crashAt).0, Slot(u, m.id, p))
            == if key.user == u && MissionPeriod(m, env.now) == p && CountsFor(m, key, payload, env)
                  && !before.completed
               then Progress(before.current + 1, before.current + 1 >= m.target) else before
  {
    TransactKeeps(s, defs, ds, env, e, crashAt);
    CommittedLog(s, defs, env, e, crashAt);
    HitWhenCounted(s, env, e, m, u, p);
    hide Transact, Invariant, Sum, MissionPeriod, ProgressAt, HitOf, CountsFor, OutcomeOf;
    MissionFollowsLog(s, defs, ds, m, u, p);
    MissionFollowsLog(Transact(s, defs, env, e, crashAt).0, defs, ds, m, u, p);
    SumAppend(s.log, Row(e, OutcomeOf(s, env, e)), HitOf(m, u, p));
  }

  lemma HitWhenCounted(s: State, env: Env, e: nat, m: MissionDef, u: User, p: Period)
    requires e < |s.db.events|
    ensures var Row(key, payload) := s.db.events[e];
            HitOf(m, u, p)(Row(e, OutcomeOf(s, env, e)))
            == if key.user == u && MissionPeriod(m, env.now) == p && CountsFor(m, key, payload, env) then 1 else 0
  {
    hide MissionPeriod;
  }

  lemma MissionFollowsLog(s: State, defs: seq<MissionDef>, ds: seq<AchievementDef>, m: MissionDef, u: User, p: Period)
    requires Invariant(s, defs, ds) && m in defs
    ensures var hits := Hits(s.log, m, u, p);
            hits >= 0 && ProgressAt(s, Slot(u, m.id, p)) == Progress(Min(hits, m.target), hits >= m.target)
  {
    HitsNatural(s.log, m, u, p);
    hide Sum, Hits;
    assert MissionOk(s, m, u, p, Hits(s.log, m, u, p));
  }

  /** Days begin at midnight UTC, weeks on Monday at midnight UTC: 5 January 1970 was a Monday. */
  lemma PeriodsChange(m: MissionDef, t: int)
    ensures m.recurrence == Daily ==> (MissionPeriod(m, t - 1) != MissionPeriod(m, t) <==> t % 86400 == 0)
    ensures m.recurrence == Weekly ==>
      (MissionPeriod(m, t - 1) != MissionPeriod(m, t) <==> (t - 4 * 86400) % (7 * 86400) == 0)
    ensures m.recurrence == Seasonal || m.recurrence == Single ==> MissionPeriod(m, t - 1) == MissionPeriod(m, t)
  {
    if m.recurrence == Daily {
      DayStep(t);
    } else if m.recurrence == Weekly {
      WeekNumber(t - 1);
      WeekNumber(t);
      WeekStep(t + 3 * 86400);
    }
  }

  lemma WeekNumber(x: int)
    ensures (x / 86400 + 3) / 7 == (x + 259200) / 604800
  {
    var day, second := x / 86400, x % 86400;
    var week, weekday := (day + 3) / 7, (day + 3) % 7;
    assert x + 259200 == 604800 * week + (86400 * weekday + second);
  }

  lemma DayStep(x: int)
    ensures (x - 1) / 86400 != x / 86400 <==> x % 86400 == 0
  {
  }

  lemma WeekStep(x: int)
    ensures (x - 1) / 604800 != x / 604800 <==> x % 604800 == 0
  {
  }

  // ---- achievements ----

  /**
   After a processed collect, every achievement it measured shows the value measured, up to its
   target; other events show nothing new.
   */
  lemma CommittedAchievement(s: State, defs: seq<MissionDef>, env: Env, e: nat, crashAt: nat, k: nat)
    requires Transact(s, defs, env, e, crashAt).1.Committed? && k < |env.achievements|
    requires forall i, j :: 0 <= i < j < |env.achievements| ==> env.achievements[i].0.id != env.achievements[j].0.id
    ensures var s' := Transact(s, defs, env, e, crashAt).0;
            var key := s.db.events[e].key;
            var (d, value) := env.achievements[k];
            if key.kind == "card_collected" then AchievementAt(s', key.user, d.id).current == Min(value, d.target)
            else s'.achievements == s.achievements
  {
    hide Sum, Lookup, Matching, UpdateMissions, UpdateAchievements, Stages;
    var o := OutcomeOf(s, env, e);
    var amount := if Counts(o) then BaseXpFor(o.key.kind) else 0;
    var s1 := DeliverXp(s, env, LedgerKey(o.key.user, e, EventKind(o.key.kind)), amount);
    MissionsLast(s1, env, e, o.key.user, Matching(defs, o));
    if o.key.kind == "card_collected" {
      var s2 := UpdateMissions(s1, env, e, o.key.user, Matching(defs, o)).value;
      MeasuredCurrent(s2, env, e, o.key.user, env.achievements, k);
    }
  }

  lemma {:induction false} MeasuredCurrent(s: State, env: Env, e: nat, u: User, values: seq<(AchievementDef, int)>,
                                           k: nat)
    requires UpdateAchievements(s, env, e, u, values).Ok? && k < |values|
    requires forall i, j :: 0 <= i < j < |values| ==> values[i].0.id != values[j].0.id
    ensures var (d, value) := values[k];
            AchievementAt(UpdateAchievements(s, env, e, u, values).value, u, d.id).current == Min(value, d.target)
  {
    var last := |values| - 1;
    var before := UpdateAchievements(s, env, e, u, values[..last]).value;
    UpdateCurrent(before, env, e, u, values[last].0, values[last].1, values[k].0.id);
    hide UpdateAchievement;
    if k < last {
      MeasuredCurrent(s, env, e, u, values[..last], k);
    }
  }

  lemma UpdateCurrent(s: State, env: Env, e: nat, u: User, d: AchievementDef, value: int, id: string)
    requires UpdateAchievement(s, env, e, u, d, value).Ok?
    ensures AchievementAt(UpdateAchievement(s, env, e, u, d, value).value, u, id).current
         == if id == d.id then Min(value, d.target) else AchievementAt(s, u, id).current
  {
    hide Sum, Lookup;
  }

  // ---- levels and rewards ----

  /** Every stored level is the one due to the stored total. */
  ghost predicate LevelsDue(s: State, policy: Option<seq<Threshold>>) {
    forall u :: u in s.levels ==> s.levels[u].level == LevelForTotalXp(policy, s.levels[u].totalXp)
  }

  /** Rewards were only added, and only published ones; levels that were due still are. */
  ghost predicate Grew(s: State, s': State, env: Env) {
    && s.rewards <= s'.rewards
    && (forall i :: |s.rewards| <= i < |s'.rewards| ==> s'.rewards[i].val in env.publishedRewards)
    && (LevelsDue(s, env.levelPolicy) ==> LevelsDue(s', env.levelPolicy))
  }

  lemma XpGrew(s: State, env: Env, key: LedgerKey, amount: int)
    ensures Grew(s, DeliverXp(s, env, key, amount), env)
  {
    hide Sum, Lookup;
  }

  lemma PointsGrew(s: State, env: Env, key: LedgerKey, amount: int)
    ensures DeliverPoints(s, key, amount).Ok? ==> Grew(s, DeliverPoints(s, key, amount).value, env)
  {
    hide Sum, Lookup;
  }

  lemma RewardGrew(s: State, env: Env, key: LedgerKey, reward: Option<string>)
    ensures var r := DeliverReward(s, env, key, reward); r.Ok? ==> Grew(s, r.value, env)
  {
    hide Sum, Lookup;
  }

  lemma SlotsGrew(s: State, s': State, env: Env)
    requires s'.rewards == s.rewards && s'.levels == s.levels
    ensures Grew(s, s', env)
  {
  }

  lemma GrewOn(a: State, b: State, c: State, env: Env)
    requires Grew(a, b, env) && Grew(b, c, env)
    ensures Grew(a, c, env)
  {
  }

  lemma MissionGrew(s: State, env: Env, e: nat, u: User, m: MissionDef)
    ensures var r := UpdateMission(s, env, e, u, m); r.Ok? ==> Grew(s, r.value, env)
  {
    hide Grew, DeliverXp, DeliverPoints, DeliverReward;
    var slot := Slot(u, m.id, MissionPeriod(m, env.now));
    var key := LedgerKey(u, e, Mission(m.id, slot.period));
    var current := Min(ProgressAt(s, slot).current + 1, m.target);
    var s1 := s.(missions := s.missions[slot := Progress(current, current >= m.target)]);
    SlotsGrew(s, s, env);
    SlotsGrew(s, s1, env);
    var s2 := DeliverXp(s1, env, key, m.xp);
    XpGrew(s1, env, key, m.xp);
    GrewOn(s, s1, s2, env);
    var s3 := DeliverPoints(s2, key, m.points);
    if s3.Ok? {
      PointsGrew(s2, env, key, m.points);
      GrewOn(s, s2, s3.value, env);
      RewardGrew(s3.value, env, key, m.reward);
      var s4 := DeliverReward(s3.value, env, key, m.reward);
      if s4.Ok? {
        GrewOn(s, s3.value, s4.value, env);
      }
    }
  }

  lemma {:induction false} MissionsGrew(s: State, env: Env, e: nat, u: User, ms: seq<MissionDef>)
    ensures var r := UpdateMissions(s, env, e, u, ms); r.Ok? ==> Grew(s, r.value, env)
  {
    hide Grew, UpdateMission;
    if |ms| == 0 {
      SlotsGrew(s, s, env);
    } else {
      var before := UpdateMissions(s, env, e, u, ms[..|ms| - 1]);
      MissionsGrew(s, env, e, u, ms[..|ms| - 1]);
      if before.Ok? && UpdateMissions(s, env, e, u, ms).Ok? {
        MissionGrew(before.value, env, e, u, ms[|ms| - 1]);
        GrewOn(s, before.value, UpdateMissions(s, env, e, u, ms).value, env);
      }
    }
  }

  lemma AchievementGrew(s: State, env: Env, e: nat, u: User, d: AchievementDef, value: int)
    ensures var r := UpdateAchievement(s, env, e, u, d, value); r.Ok? ==> Grew(s, r.value, env)
  {
    hide Grew, DeliverXp, DeliverReward;
    var key := LedgerKey(u, e, Achievement(d.id));
    var current := Min(value, d.target);
    var completed := AchievementAt(s, u, d.id).completed || current >= d.target;
    var s1 := s.(achievements := s.achievements[(u, d.id) := Progress(current, completed)]);
    SlotsGrew(s, s1, env);
    var s2 := DeliverXp(s1, env, key, d.xpBonus);
    XpGrew(s1, env, key, d.xpBonus);
    GrewOn(s, s1, s2, env);
    RewardGrew(s2, env, key, d.reward);
    var s3 := DeliverReward(s2, env, key, d.reward);
    if s3.Ok? {
      GrewOn(s, s2, s3.value, env);
    }
  }

  lemma {:induction false} AchievementsGrew(s: State, env: Env, e: nat, u: User, values: seq<(AchievementDef, int)>)
    ensures var r := UpdateAchievements(s, env, e, u, values); r.Ok? ==> Grew(s, r.value, env)
  {
    hide Grew, UpdateAchievement;
    if |values| == 0 {
      SlotsGrew(s, s, env);
    } else {
      var last := |values| - 1;
      var before := UpdateAchievements(s, env, e, u, values[..last]);
      AchievementsGrew(s, env, e, u, values[..last]);
      if before.Ok? && UpdateAchievements(s, env, e, u, values).Ok? {
        AchievementGrew(before.value, env, e, u, values[last].0, values[last].1);
        GrewOn(s, before.value, UpdateAchievements(s, env, e, u, values).value, env);
      }
    }
  }

  /** An attempt adds only published rewards, and keeps every level the one due to its total under the policy. */
  lemma CommittedGrew(s: State, defs: seq<MissionDef>, env: Env, e: nat, crashAt: nat)
    ensures Grew(s, Transact(s, defs, env, e, crashAt).0, env)
  {
    hide UpdateMissions, UpdateAchievements, DeliverXp, Stages, Matching, LevelsDue;
    var s' := Transact(s, defs, env, e, crashAt).0;
    if Transact(s, defs, env, e, crashAt).1.Committed? {
      var o := OutcomeOf(s, env, e);
      var amount := if Counts(o) then BaseXpFor(o.key.kind) else 0;
      var key := LedgerKey(o.key.user, e, EventKind(o.key.kind));
      var s1 := DeliverXp(s, env, key, amount);
      XpGrew(s, env, key, amount);
      var s2 := UpdateMissions(s1, env, e, o.key.user, Matching(defs, o)).value;
      MissionsGrew(s1, env, e, o.key.user, Matching(defs, o));
      GrewOn(s, s1, s2, env);
      AchievementsGrew(s2, env, e, o.key.user, env.achievements);
      var s3 := Effects(s, defs, env, e).value;
      if o.key.kind == "card_collected" {
        GrewOn(s, s2, s3, env);
      }
      SlotsGrew(s3, s', env);
      GrewOn(s, s3, s', env);
    } else {
      SlotsGrew(s, s', env);
    }
  }

  /** Without a table of levels, each one takes 100 points more. */
  lemma HundredPointsEach(xp: int, level: int)
    requires level >= 1
    ensures LevelForTotalXp(None, xp) == level <==> (level == 1 || 100 * (level - 1) <= xp) && xp < 100 * level
  {
  }

  /** With a table, the level is the highest one reached, and 1 before any is. */
  lemma HighestReached(ts: seq<Threshold>, xp: int)
    requires forall t :: t in ts ==> t.level >= 1
    ensures var level := LevelForTotalXp(Some(ts), xp);
            && (forall t :: t in ts && t.requiredXp <= Max(0, xp) ==> t.level <= level)
            && (if exists t :: t in ts && t.requiredXp <= Max(0, xp)
                then exists t :: t in ts && t.requiredXp <= Max(0, xp) && t.level == level
                else level == 1)
  {
  }
}

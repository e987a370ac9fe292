/**
 Growth-event processing over stored rows. A method that reports an error leaves partial changes,
 which its caller rolls back.
 */
module GrowthService {
  import opened Wrappers
  import opened Tables
  import opened PointTables
  import PointLedger
  import opened Retry
  import Spec = GrowthTables
  import GrowthRuns
  import opened GrowthTables

  class GrowthStore {
    var db: Db
    var work: map<nat, Work>
    var xp: seq<XpRow>
    var levels: map<User, FanLevel>
    var missions: map<Slot, Progress>
    var achievements: map<(User, string), Progress>
    var rewards: seq<Row<LedgerKey, string>>
    ghost var log: seq<Row<nat, Outcome>>

    ghost function Content(): State
      reads this
    {
      State(db, work, xp, levels, missions, achievements, rewards, log)
    }

    constructor ()
      ensures Content() == State(EMPTY_DB, map[], [], map[], map[], map[], [], [])
    {
      db, work, xp, levels := EMPTY_DB, map[], [], map[];
      missions, achievements, rewards, log := map[], map[], [], [];
    }

    method RecordEvent(key: EventKey, payload: map<string, string>) returns (id: nat)
      modifies this`db
      ensures Content() == old(Content()).(db := PointLedger.RecordEvent(old(db), key, payload).0)
      ensures id < |db.events| && db.events[id].key == key
    {
      var recorded := PointLedger.RecordEvent(db, key, payload);
      db, id := recorded.0, recorded.1;
    }

    method GrantXp(env: Env, key: LedgerKey, amount: int)
      modifies this`xp, this`levels
      ensures Content() == Spec.GrantXp(old(Content()), env, key, amount)
    {
      var existing := Lookup(xp, key);
      if existing.Some? {
        return;
      }
      xp := xp + [Row(key, amount)];
      var total := Sum(xp, XpOf(key.user));
      levels := levels[key.user := FanLevel(total, LevelForTotalXp(env.levelPolicy, total))];
    }

    method GrantReward(env: Env, key: LedgerKey, reward: string) returns (error: Option<GrowthError>)
      modifies this`rewards
      ensures var r := Spec.GrantReward(old(Content()), env, key, reward);
              if error.None? then r == Ok(Content()) else r == Err(error.value)
    {
      var existing := Lookup(rewards, key);
      if existing.Some? {
        return None;
      }
      if reward !in env.publishedRewards {
        return Some(RewardNotPublished);
      }
      rewards := rewards + [Row(key, reward)];
      return None;
    }

    method DeliverMissionReward(env: Env, key: LedgerKey, m: MissionDef) returns (error: Option<GrowthError>)
      modifies this`db, this`xp, this`levels, this`rewards
      ensures var r := DeliverMission(old(Content()), env, key, m);
              if error.None? then r == Ok(Content()) else r == Err(error.value)
    {
      hide Sum, Lookup;
      if m.xp != 0 {
        GrantXp(env, key, m.xp);
      }
      if m.points != 0 {
        var granted := PointLedger.Grant(db, key.user, key.event, key.rule, m.points);
        if granted.1.Err? {
          return Some(PointsRefused);
        }
        db := granted.0;
      }
      if m.reward.Some? {
        error := GrantReward(env, key, m.reward.value);
        return;
      }
      return None;
    }

    method UpdateMissionProgress(env: Env, e: nat, u: User, m: MissionDef) returns (error: Option<GrowthError>)
      modifies this
      ensures var r := UpdateMission(old(Content()), env, e, u, m);
              if error.None? then r == Ok(Content()) else r == Err(error.value)
      ensures work == old(work) && log == old(log)
    {
      hide DeliverMission;
      var slot := Slot(u, m.id, MissionPeriod(m, env.now));
      if slot !in missions {
        missions := missions[slot := Progress(0, false)];
      }
      var wasCompleted := missions[slot].completed;
      if wasCompleted {
        assert missions == old(missions);
        return None;
      }
      missions := missions[slot := missions[slot].(current := Min(missions[slot].current + 1, m.target))];
      if missions[slot].current >= m.target {
        missions := missions[slot := missions[slot].(completed := true)];
      }
      assert missions == old(missions)[slot := missions[slot]];
      if missions[slot].completed {
        error := DeliverMissionReward(env, LedgerKey(u, e, Mission(m.id, slot.period)), m);
        return;
      }
      return None;
    }

    method UpdateAchievementProgress(env: Env, e: nat, u: User, d: AchievementDef, value: int)
      returns (error: Option<GrowthError>)
      modifies this
      ensures var r := UpdateAchievement(old(Content()), env, e, u, d, value);
              if error.None? then r == Ok(Content()) else r == Err(error.value)
      ensures work == old(work) && log == old(log)
    {
      hide Sum, Lookup;
      if (u, d.id) !in achievements {
        achievements := achievements[(u, d.id) := Progress(0, false)];
      }
      var wasCompleted := achievements[(u, d.id)].completed;
      achievements := achievements[(u, d.id) := Progress(Min(value, d.target), wasCompleted)];
      if achievements[(u, d.id)].current >= d.target && !wasCompleted {
        achievements := achievements[(u, d.id) := achievements[(u, d.id)].(completed := true)];
      }
      assert achievements == old(achievements)[(u, d.id) := achievements[(u, d.id)]];
      if achievements[(u, d.id)].completed && !wasCompleted {
        var key := LedgerKey(u, e, Achievement(d.id));
        if d.xpBonus != 0 {
          GrantXp(env, key, d.xpBonus);
        }
        if d.reward.Some? {
          error := GrantReward(env, key, d.reward.value);
          return;
        }
      }
      return None;
    }

    /** The effects of an attempt, statement by statement; it may crash before any of them. */
    method ApplyEffects(defs: seq<MissionDef>, env: Env, e: nat, crashAt: nat) returns (error: Option<GrowthError>)
      requires e < |db.events|
      modifies this
      ensures error.None? ==>
        crashAt >= Stages(old(Content()), defs, env, e) && Effects(old(Content()), defs, env, e) == Ok(Content())
      ensures error.Some? && crashAt < Stages(old(Content()), defs, env, e) ==>
        error.value == Crashed || Effects(old(Content()), defs, env, e) == Err(error.value)
      ensures error.Some? && crashAt >= Stages(old(Content()), defs, env, e) ==>
        Effects(old(Content()), defs, env, e) == Err(error.value)
      ensures work == old(work) && log == old(log)
    {
      hide Sum, Lookup, UpdateMission, UpdateAchievement, Matches;
      ghost var s := Content();
      var o := Outcome(db.events[e].key, db.events[e].val, env.eligible, env.organization, env.achievements, env.now);
      var u := o.key.user;
      if crashAt == 0 {
        return Some(Crashed);
      }
      var amount := if Counts(o) then BaseXpFor(o.key.kind) else 0;
      if amount != 0 {
        GrantXp(env, LedgerKey(u, e, EventKind(o.key.kind)), amount);
      }
      ghost var s1 := Content();
      var ms := Matching(defs, o);
      for i := 0 to |ms|
        invariant UpdateMissions(s1, env, e, u, ms[..i]) == Ok(Content())
        invariant crashAt > i && work == s.work && log == s.log
      {
        assert ms[..i + 1][..i] == ms[..i];
        if crashAt == i + 1 {
          return Some(Crashed);
        }
        error := UpdateMissionProgress(env, e, u, ms[i]);
        if error.Some? {
          FirstRefusal(s1, env, e, u, ms, i, error.value);
          return;
        }
      }
      assert ms[..|ms|] == ms;
      ghost var s2 := Content();
      if o.key.kind == "card_collected" {
        for i := 0 to |env.achievements|
          invariant UpdateAchievements(s2, env, e, u, env.achievements[..i]) == Ok(Content())
          invariant crashAt > |ms| + i && work == s.work && log == s.log
        {
          assert env.achievements[..i + 1][..i] == env.achievements[..i];
          if crashAt == |ms| + i + 1 {
            return Some(Crashed);
          }
          error := UpdateAchievementProgress(env, e, u, env.achievements[i].0, env.achievements[i].1);
          if error.Some? {
            FirstAchievementRefusal(s2, env, e, u, env.achievements, i, error.value);
            return;
          }
        }
        assert env.achievements[..|env.achievements|] == env.achievements;
        if crashAt == |ms| + |env.achievements| + 1 {
          return Some(Crashed);
        }
      } else if crashAt == |ms| + 1 {
        return Some(Crashed);
      }
      return None;
    }

    /** The attempt's transaction: commits the effects and the status together, or rolls both back. */
    method TransactEvent(defs: seq<MissionDef>, env: Env, e: nat, crashAt: nat) returns (end: End)
      modifies this
      ensures var (s', end') := Transact(old(Content()), defs, env, e, crashAt);
              Content() == s' && SameEnd(end, end')
    {
      hide Effects, Stages;
      if e >= |db.events| {
        return NotFound;
      }
      var w := if e in work then work[e] else Work(EventStatus.Pending, 0, None);
      if w.status == Processed || w.status == Dead {
        return Skipped;
      }
      var nextAttemptCount := w.attempts + 1;
      ghost var s := Content();
      var db0, xp0, levels0, missions0, achievements0, rewards0 := db, xp, levels, missions, achievements, rewards;
      var error := ApplyEffects(defs, env, e, crashAt);
      if error.Some? {
        db, xp, levels, missions, achievements, rewards := db0, xp0, levels0, missions0, achievements0, rewards0;
        return RolledBack(error.value, nextAttemptCount);
      }
      work := work[e := Work(Processed, nextAttemptCount, None)];
      log := log + [Row(e, OutcomeOf(s, env, e))];
      return Committed;
    }

    /** The transaction that records a failed attempt. */
    method RecordFailedAttempt(p: Policy, e: nat, attempts: nat, now: int)
      modifies this`work
      ensures Content() == RecordFailure(old(Content()), p, e, attempts, now)
    {
      match DecideRetry(p, attempts, now) {
        case DeadLetter => work := work[e := Work(Dead, attempts, None)];
        case RetryAt(t) => work := work[e := Work(EventStatus.Failed, attempts, Some(t))];
      }
    }

    /** One delivery of the event to a worker that nobody interrupts. */
    method ProcessEngagementEvent(p: Policy, defs: seq<MissionDef>, env: Env, e: nat, crashAt: nat)
      returns (error: Option<GrowthError>)
      modifies this
      ensures var (s', x) := Attempt(old(Content()), p, defs, env, e, crashAt);
              Content() == s' && (error.Some? <==> x.Some?)
    {
      hide Transact;
      var end := TransactEvent(defs, env, e, crashAt);
      match end {
        case RolledBack(x, attempts) =>
          RecordFailedAttempt(p, e, attempts, env.now);
          return Some(x);
        case NotFound => return Some(EventNotFound);
        case _ => return None;
      }
    }

    /** Re-dispatches the due events one by one and counts those that went through. */
    method RetryFailedEngagementEvents(p: Policy, defs: seq<MissionDef>, now: int, limit: nat, envs: nat -> Env,
                                       crashes: nat -> nat)
      returns (processed: nat)
      modifies this
      ensures (Content(), processed)
        == Sweep(old(Content()), p, defs, DueEvents(old(work), |old(db.events)|, now, limit), envs, crashes)
    {
      hide Effects, Stages, WorkOf, AfterFailure, OutcomeOf, Sweep, DueEvents;
      var ids := DueEvents(work, |db.events|, now, limit);
      processed := 0;
      EmptySweep(Content(), p, defs, ids, envs, crashes);
      for i := 0 to |ids|
        invariant (Content(), processed) == Sweep(old(Content()), p, defs, ids[..i], envs, crashes)
      {
        SweepStep(old(Content()), p, defs, ids, envs, crashes, i);
        ghost var before := Content();
        var error := ProcessEngagementEvent(p, defs, envs(ids[i]), ids[i], crashes(ids[i]));
        assert Content() == Attempt(before, p, defs, envs(ids[i]), ids[i], crashes(ids[i])).0;
        if error.None? {
          processed := processed + 1;
        }
      }
      assert ids[..|ids|] == ids;
    }
  }

  /** The same end, except that an attempt bound to crash later may be refused first. */
  predicate SameEnd(a: End, b: End) {
    a == b || (a.RolledBack? && b.RolledBack? && a.attempts == b.attempts)
  }

  // ---- the retry sweep ----

  predicate RetryDue(work: map<nat, Work>, e: nat, now: int) {
    e in work && work[e].status == EventStatus.Failed && work[e].nextAttemptAt.Some?
      && work[e].nextAttemptAt.value <= now
  }

  function RetryTime(work: map<nat, Work>, e: nat): int {
    if e in work && work[e].nextAttemptAt.Some? then work[e].nextAttemptAt.value else 0
  }

  ghost predicate InTurn(work: map<nat, Work>, q: seq<nat>) {
    forall i, j :: 0 <= i < j < |q| ==> q[i] != q[j] && RetryTime(work, q[i]) <= RetryTime(work, q[j])
  }

  /** Event e put in its place in a queue ordered by the time of the next attempt. */
  function Enqueue(work: map<nat, Work>, q: seq<nat>, e: nat): (r: seq<nat>)
    ensures forall x :: x in r <==> x in q || x == e
  {
    if |q| == 0 then [e]
    else
      var init, last := q[..|q| - 1], q[|q| - 1];
      assert q == init + [last];
      if RetryTime(work, last) <= RetryTime(work, e) then q + [e] else Enqueue(work, init, e) + [last]
  }

  lemma {:induction false} EnqueueInTurn(work: map<nat, Work>, q: seq<nat>, e: nat)
    requires InTurn(work, q) && e !in q
    ensures InTurn(work, Enqueue(work, q, e))
  {
    hide RetryTime;
    if |q| > 0 {
      var init, last := q[..|q| - 1], q[|q| - 1];
      if RetryTime(work, last) > RetryTime(work, e) {
        EnqueueInTurn(work, init, e);
        var front := Enqueue(work, init, e);
        assert forall i :: 0 <= i < |front| ==> front[i] in front;
        assert forall x :: x in front ==> x != last && RetryTime(work, x) <= RetryTime(work, last);
      }
    }
  }

  /** The due ones among the first n events, the longest waiting first. */
  function DueAmong(work: map<nat, Work>, n: nat, now: int): (r: seq<nat>)
    ensures forall e: nat :: e in r <==> e < n && RetryDue(work, e, now)
    ensures InTurn(work, r)
  {
    if n == 0 then []
    else
      var rest := DueAmong(work, n - 1, now);
      EnqueueInTurn(work, rest, n - 1);
      if RetryDue(work, n - 1, now) then Enqueue(work, rest, n - 1) else rest
  }

  /** The events among the first n that a sweep picks: due, in turn, and all of them unless the limit is reached. */
  function DueEvents(work: map<nat, Work>, n: nat, now: int, limit: nat): (r: seq<nat>)
    ensures |r| <= limit && InTurn(work, r) && forall e :: e in r ==> e < n && RetryDue(work, e, now)
    ensures forall e: nat :: e < n && RetryDue(work, e, now) && e !in r ==>
      |r| == limit && forall x :: x in r ==> RetryTime(work, x) <= RetryTime(work, e)
  {
    var all := DueAmong(work, n, now);
    var r := if |all| <= limit then all else all[..limit];
    assert forall e :: e in r ==> e in all;
    r
  }

  /** One retry sweep over the events `ids`, with the number of attempts that raised no error. */
  function Sweep(s: State, p: Policy, defs: seq<MissionDef>, ids: seq<nat>, envs: nat -> Env, crashes: nat -> nat)
    : (State, nat)
  {
    if |ids| == 0 then (s, 0)
    else
      var (s1, n) := Sweep(s, p, defs, ids[..|ids| - 1], envs, crashes);
      var e := ids[|ids| - 1];
      var (s2, x) := Attempt(s1, p, defs, envs(e), e, crashes(e));
      (s2, n + if x.None? then 1 else 0)
  }

  function ProcessedAmong(s: State, ids: seq<nat>): nat {
    if |ids| == 0 then 0
    else
      ProcessedAmong(s, ids[..|ids| - 1])
      + if WorkOf(s, ids[|ids| - 1]).status == EventStatus.Processed then 1 else 0
  }

  /** A sweep attempts each event it picked exactly once, leaves the others alone, and counts the processed ones. */
  lemma {:induction false} SweepAttemptsEach(s: State, p: Policy, defs: seq<MissionDef>, ids: seq<nat>,
                                             envs: nat -> Env, crashes: nat -> nat)
    requires (forall i, j :: 0 <= i < j < |ids| ==> ids[i] != ids[j])
    requires forall e :: e in ids ==> e < |s.db.events| && WorkOf(s, e).status == EventStatus.Failed
    ensures var (s', n) := Sweep(s, p, defs, ids, envs, crashes);
            && n == ProcessedAmong(s', ids) && |s'.db.events| == |s.db.events|
            && (forall e :: e in ids ==> WorkOf(s', e).attempts == WorkOf(s, e).attempts + 1)
            && forall e: nat :: e !in ids ==> WorkOf(s', e) == WorkOf(s, e)
  {
    hide Attempt, WorkOf;
    if |ids| > 0 {
      var init, e := ids[..|ids| - 1], ids[|ids| - 1];
      assert ids == init + [e] && forall x :: x in init ==> x in ids;
      SweepAttemptsEach(s, p, defs, init, envs, crashes);
      var s1 := Sweep(s, p, defs, init, envs, crashes).0;
      assert e !in init;
      AttemptWorks(s1, p, defs, envs(e), e, crashes(e));
      SameProcessed(s1, Attempt(s1, p, defs, envs(e), e, crashes(e)).0, init);
    }
  }

  lemma AttemptWorks(s: State, p: Policy, defs: seq<MissionDef>, env: Env, e: nat, crashAt: nat)
    requires e < |s.db.events| && WorkOf(s, e).status == EventStatus.Failed
    ensures var (s', x) := Attempt(s, p, defs, env, e, crashAt);
            && (x.None? <==> WorkOf(s', e).status == EventStatus.Processed) && |s'.db.events| == |s.db.events|
            && WorkOf(s', e).attempts == WorkOf(s, e).attempts + 1
            && forall y: nat :: y != e ==> WorkOf(s', y) == WorkOf(s, y)
  {
    hide Effects, Stages;
    if Effects(s, defs, env, e).Ok? {
      GrowthRuns.EffectsLast(s, defs, env, e);
    }
  }

  lemma {:induction false} SameProcessed(s: State, s': State, ids: seq<nat>)
    requires forall e :: e in ids ==> WorkOf(s', e) == WorkOf(s, e)
    ensures ProcessedAmong(s', ids) == ProcessedAmong(s, ids)
  {
    if |ids| > 0 {
      SameProcessed(s, s', ids[..|ids| - 1]);
    }
  }

  lemma EmptySweep(s: State, p: Policy, defs: seq<MissionDef>, ids: seq<nat>, envs: nat -> Env, crashes: nat -> nat)
    ensures Sweep(s, p, defs, ids[..0], envs, crashes) == (s, 0)
  {
  }

  lemma SweepStep(s: State, p: Policy, defs: seq<MissionDef>, ids: seq<nat>, envs: nat -> Env, crashes: nat -> nat,
                  i: nat)
    requires i < |ids|
    ensures var (s1, n) := Sweep(s, p, defs, ids[..i], envs, crashes);
            var (s2, x) := Attempt(s1, p, defs, envs(ids[i]), ids[i], crashes(ids[i]));
            Sweep(s, p, defs, ids[..i + 1], envs, crashes) == (s2, n + if x.None? then 1 else 0)
  {
    hide Attempt;
    assert ids[..i + 1][..i] == ids[..i];
  }

  /** The first refusal among the missions is the outcome of them all. */
  lemma {:induction false} FirstRefusal(s: State, env: Env, e: nat, u: User, ms: seq<MissionDef>, i: nat,
                                        x: GrowthError)
    requires i < |ms| && UpdateMissions(s, env, e, u, ms[..i]).Ok?
    requires UpdateMission(UpdateMissions(s, env, e, u, ms[..i]).value, env, e, u, ms[i]) == Err(x)
    ensures UpdateMissions(s, env, e, u, ms) == Err(x)
  {
    hide UpdateMission;
    var init := ms[..|ms| - 1];
    if i < |init| {
      assert init[..i] == ms[..i];
      FirstRefusal(s, env, e, u, init, i, x);
    }
  }

  lemma {:induction false} FirstAchievementRefusal(s: State, env: Env, e: nat, u: User, ds: seq<(AchievementDef, int)>,
                                                   i: nat, x: GrowthError)
    requires i < |ds| && UpdateAchievements(s, env, e, u, ds[..i]).Ok?
    requires UpdateAchievement(UpdateAchievements(s, env, e, u, ds[..i]).value, env, e, u, ds[i].0, ds[i].1) == Err(x)
    ensures UpdateAchievements(s, env, e, u, ds) == Err(x)
  {
    hide UpdateAchievement;
    var init := ds[..|ds| - 1];
    if i < |init| {
      assert init[..i] == ds[..i];
      FirstAchievementRefusal(s, env, e, u, init, i, x);
    }
  }
}

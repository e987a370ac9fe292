/** The Redis rate limiter: a counter that expires a fixed time after its first increment. */
module FixedWindow {
  import opened Wrappers
  import opened Times

  datatype Counter = Counter(count: int, expiresAt: real)

  /** A key is gone from the moment its expiry is reached. */
  function Current(stored: Option<Counter>, now: real): Option<Counter> {
    if stored.Some? && now < stored.value.expiresAt then stored else None
  }

  /** INCR, and EXPIRE on the first increment only; a window that is not positive deletes the key. */
  function Increment(stored: Option<Counter>, window: real, now: real): (Option<Counter>, int) {
    match Current(stored, now)
    case Some(c) => (Some(c.(count := c.count + 1)), c.count + 1)
    case None => (if window > 0.0 then Some(Counter(1, now + window)) else None, 1)
  }

  /** The key's remaining seconds as TTL reports them: rounded to the nearest, -2 without the key. */
  function Ttl(stored: Option<Counter>, now: real): int {
    if stored.Some? then (stored.value.expiresAt - now + 0.5).Floor else -2
  }

  /** The seconds a refused request is told to wait; None for an accepted one. */
  function Decide(stored: Option<Counter>, limit: int, window: real, now: real): (Option<Counter>, Option<int>) {
    var (after, count) := Increment(stored, window, now);
    (after, if count <= limit then None else Some(Max(1, Ttl(after, now))))
  }

  class RedisLimiter {
    var store: map<string, Counter>

    function Stored(key: string): Option<Counter>
      reads this
    {
      if key in store then Some(store[key]) else None
    }

    constructor ()
      ensures store == map[]
    {
      store := map[];
    }

    method EnforceRedisLimit(key: string, limit: int, window: real, now: real) returns (retryAfter: Option<int>)
      modifies this
      ensures (Stored(key), retryAfter) == Decide(old(Stored(key)), limit, window, now)
      ensures forall k :: k != key ==> Stored(k) == old(Stored(k))
    {
      var count := 1;
      if key in store && now < store[key].expiresAt {
        count := store[key].count + 1;
        store := store[key := store[key].(count := count)];
      } else if window > 0.0 {
        store := store[key := Counter(1, now + window)];
      } else {
        store := store - {key};
      }
      if count <= limit {
        return None;
      }
      return Some(Max(1, Ttl(Stored(key), now)));
    }
  }

  /** One key over a whole run: its counter and the times at which requests were accepted. */
  datatype Trace = Trace(stored: Option<Counter>, accepted: seq<real>)

  function Next(before: Trace, limit: int, window: real, now: real): Trace {
    var (stored, retryAfter) := Decide(before.stored, limit, window, now);
    Trace(stored, if retryAfter.None? then before.accepted + [now] else before.accepted)
  }

  function Run(times: seq<real>, limit: int, window: real): Trace {
    if |times| == 0 then Trace(None, [])
    else Next(Run(times[..|times| - 1], limit, window), limit, window, times[|times| - 1])
  }

  /** How many of the times lie in [lo, hi]. */
  function Between(ts: seq<real>, lo: real, hi: real): nat {
    if |ts| == 0 then 0
    else Between(ts[..|ts| - 1], lo, hi) + if lo <= ts[|ts| - 1] <= hi then 1 else 0
  }

  lemma {:induction false} BetweenAppend(a: seq<real>, b: seq<real>, lo: real, hi: real)
    ensures Between(a + b, lo, hi) == Between(a, lo, hi) + Between(b, lo, hi)
  {
    if |b| == 0 {
      assert a + b == a;
    } else {
      assert (a + b)[..|a + b| - 1] == a + b[..|b| - 1];
      BetweenAppend(a, b[..|b| - 1], lo, hi);
    }
  }

  lemma {:induction false} BetweenBounded(ts: seq<real>, lo: real, hi: real)
    ensures Between(ts, lo, hi) <= |ts|
    ensures (forall i :: 0 <= i < |ts| ==> ts[i] < lo || ts[i] > hi) ==> Between(ts, lo, hi) == 0
  {
    if |ts| > 0 {
      BetweenBounded(ts[..|ts| - 1], lo, hi);
    }
  }

  /** The acceptances of a run, window by window: those of the open window, of the one before, and older ones. */
  datatype Parts = Parts(older: seq<real>, previous: seq<real>, previousStart: real, open: seq<real>, openStart: real)

  ghost predicate PartsOk(run: Trace, p: Parts, limit: int, window: real, last: real) {
    && run.accepted == p.older + p.previous + p.open
    && |p.previous| <= limit
    && p.previousStart + window <= p.openStart <= last < p.openStart + window
    && (forall i :: 0 <= i < |p.older| ==> p.older[i] < p.previousStart)
    && (forall i :: 0 <= i < |p.previous| ==> p.previousStart <= p.previous[i] < p.openStart)
    && (forall i :: 0 <= i < |p.open| ==> p.openStart <= p.open[i] <= last)
    && (p.previous != [] ==> p.previous[0] == p.previousStart)
    && run.stored.Some? && run.stored.value.expiresAt == p.openStart + window
    && run.stored.value.count >= 1 && |p.open| == Min(run.stored.value.count, limit)
    && (p.open != [] ==> p.open[0] == p.openStart)
  }

  lemma SameWindow(run: Trace, p: Parts, limit: int, window: real, last: real, now: real) returns (p': Parts)
    requires PartsOk(run, p, limit, window, last) && limit >= 0 && window > 0.0
    requires last <= now < run.stored.value.expiresAt
    ensures PartsOk(Next(run, limit, window, now), p', limit, window, now)
  {
    p' := p.(open := if run.stored.value.count + 1 <= limit then p.open + [now] else p.open);
    assert run.accepted + [now] == p.older + p.previous + (p.open + [now]);
  }

  lemma NewWindow(run: Trace, p: Parts, limit: int, window: real, last: real, now: real) returns (p': Parts)
    requires PartsOk(run, p, limit, window, last) && limit >= 0 && window > 0.0
    requires run.stored.value.expiresAt <= now && last <= now
    ensures PartsOk(Next(run, limit, window, now), p', limit, window, now)
  {
    p' := Parts(p.older + p.previous, p.open, p.openStart, if limit >= 1 then [now] else [], now);
    assert run.accepted + [now] == (p.older + p.previous) + p.open + [now];
    assert run.accepted == (p.older + p.previous) + p.open + [];
    var next := Next(run, limit, window, now);
    assert next.stored == Some(Counter(1, now + window));
    assert forall i :: 0 <= i < |p.open| ==> p.open[i] < now;
  }

  lemma FirstInParts(run: Trace, limit: int, window: real, now: real) returns (p: Parts)
    requires run == Trace(None, []) && limit >= 0 && window > 0.0
    ensures PartsOk(Next(run, limit, window, now), p, limit, window, now)
  {
    p := Parts([], [], now - window, if limit >= 1 then [now] else [], now);
  }

  lemma {:induction false} RunInParts(times: seq<real>, limit: int, window: real) returns (p: Parts)
    requires NonDecreasing(times) && limit >= 0 && window > 0.0 && |times| > 0
    ensures PartsOk(Run(times, limit, window), p, limit, window, times[|times| - 1])
  {
    hide Next, PartsOk;
    var init, now := times[..|times| - 1], times[|times| - 1];
    if |init| == 0 {
      p := FirstInParts(Run(init, limit, window), limit, window, now);
    } else {
      var before := RunInParts(init, limit, window);
      var run := Run(init, limit, window);
      var expiresAt := StoredAfter(run, before, limit, window, init[|init| - 1]);
      if now < expiresAt {
        p := SameWindow(run, before, limit, window, init[|init| - 1], now);
      } else {
        p := NewWindow(run, before, limit, window, init[|init| - 1], now);
      }
    }
  }

  lemma StoredAfter(run: Trace, p: Parts, limit: int, window: real, last: real) returns (expiresAt: real)
    requires PartsOk(run, p, limit, window, last)
    ensures run.stored.Some? && run.stored.value.expiresAt == expiresAt
  {
    expiresAt := run.stored.value.expiresAt;
  }

  lemma CountByParts(p: Parts, lo: real, hi: real)
    ensures Between(p.older + p.previous + p.open, lo, hi)
         == Between(p.older, lo, hi) + Between(p.previous, lo, hi) + Between(p.open, lo, hi)
  {
    BetweenAppend(p.older + p.previous, p.open, lo, hi);
    BetweenAppend(p.older, p.previous, lo, hi);
  }

  /** An interval that ends after the last request reaches back into one earlier window at most. */
  lemma TwoWindowsAtMost(run: Trace, p: Parts, limit: int, window: real, last: real, start: real)
    requires PartsOk(run, p, limit, window, last) && limit >= 0 && start <= last <= start + window
    ensures Between(run.accepted, start, start + window) <= 2 * limit
  {
    CountByParts(p, start, start + window);
    BetweenBounded(p.older, start, start + window);
    BetweenBounded(p.previous, start, start + window);
    BetweenBounded(p.open, start, start + window);
  }

  /**
   Twice the limit: for any request schedule, no interval of window length holds more than
   2 * limit acceptances, as rejected requests never extend a window.
   */
  lemma {:induction false} TwiceTheLimit(times: seq<real>, limit: int, window: real, start: real)
    requires NonDecreasing(times) && limit >= 0 && window > 0.0
    ensures Between(Run(times, limit, window).accepted, start, start + window) <= 2 * limit
  {
    hide PartsOk, Increment;
    if |times| > 0 {
      var init, now := times[..|times| - 1], times[|times| - 1];
      TwiceTheLimit(init, limit, window, start);
      if start <= now <= start + window {
        var p := RunInParts(times, limit, window);
        TwoWindowsAtMost(Run(times, limit, window), p, limit, window, now, start);
      } else {
        OneMore(Run(init, limit, window).accepted, now, start, start + window);
      }
    }
  }

  lemma OneMore(ts: seq<real>, t: real, lo: real, hi: real)
    ensures Between(ts + [t], lo, hi) == Between(ts, lo, hi) + if lo <= t <= hi then 1 else 0
  {
  }

  /** The bound is reached: one request, limit - 1 more in the window, and limit as the next window opens. */
  function BurstAt(limit: nat, window: real, i: nat): real {
    if i == 0 then 0.0 else if i < limit then window / 2.0 else window
  }

  function Burst(limit: nat, window: real): seq<real> {
    seq(2 * limit, i requires 0 <= i < 2 * limit => BurstAt(limit, window, i))
  }

  function BurstCounter(limit: nat, window: real, n: nat): Option<Counter> {
    if n == 0 then None
    else if n <= limit then Some(Counter(n, window)) else Some(Counter(n - limit, 2.0 * window))
  }

  lemma BurstStep(before: Trace, limit: nat, window: real, n: nat)
    requires window > 0.0 && n < 2 * limit && before.stored == BurstCounter(limit, window, n)
    ensures Next(before, limit, window, BurstAt(limit, window, n))
         == Trace(BurstCounter(limit, window, n + 1), before.accepted + [BurstAt(limit, window, n)])
  {
  }

  lemma NoCounterYet(limit: nat, window: real)
    ensures BurstCounter(limit, window, 0) == None
  {
  }

  lemma {:induction false} BurstRun(limit: nat, window: real, n: nat)
    requires window > 0.0 && n <= 2 * limit
    ensures Run(Burst(limit, window)[..n], limit, window)
      == Trace(BurstCounter(limit, window, n), Burst(limit, window)[..n])
  {
    hide Next, BurstCounter, BurstAt;
    if n > 0 {
      var b := Burst(limit, window);
      BurstRun(limit, window, n - 1);
      assert b[..n][..n - 1] == b[..n - 1] && b[..n] == b[..n - 1] + [b[n - 1]];
      BurstStep(Run(b[..n - 1], limit, window), limit, window, n - 1);
    } else {
      assert Burst(limit, window)[..0] == [];
      NoCounterYet(limit, window);
    }
  }

  lemma {:induction false} AllBetween(ts: seq<real>, lo: real, hi: real)
    requires forall i :: 0 <= i < |ts| ==> lo <= ts[i] <= hi
    ensures Between(ts, lo, hi) == |ts|
  {
    if |ts| > 0 {
      AllBetween(ts[..|ts| - 1], lo, hi);
    }
  }

  /** For every limit and window some schedule has 2 * limit acceptances in one interval of window length. */
  lemma BoundIsTight(limit: nat, window: real)
    requires limit >= 1 && window > 0.0
    ensures NonDecreasing(Burst(limit, window))
    ensures Between(Run(Burst(limit, window), limit, window).accepted, 0.0, window) == 2 * limit
  {
    var b := Burst(limit, window);
    assert b[..|b|] == b;
    BurstRun(limit, window, 2 * limit);
    AllBetween(b, 0.0, window);
  }

  /** With a window that is not positive the key never lives, and no request is ever refused. */
  lemma {:induction false} NoWindowNoLimit(times: seq<real>, limit: int, window: real)
    requires limit >= 1 && window <= 0.0
    ensures Run(times, limit, window) == Trace(None, times)
  {
    if |times| > 0 {
      NoWindowNoLimit(times[..|times| - 1], limit, window);
      assert times == times[..|times| - 1] + [times[|times| - 1]];
    }
  }

  /**
   How far the announced wait can be trusted: a request that waits exactly that long, with no other
   in between, is accepted exactly when at most one second remained, or TTL did not round it down.
   */
  lemma AnnouncedWaitSuffices(stored: Option<Counter>, limit: int, window: real, now: real)
    requires limit >= 1 && window > 0.0 && Decide(stored, limit, window, now).1.Some?
    ensures var (after, retryAfter) := Decide(stored, limit, window, now);
            after.Some?
            && var remaining := after.value.expiresAt - now;
               var fraction := remaining - remaining.Floor as real;
               Decide(after, limit, window, now + retryAfter.value as real).1 == None
               <==> remaining <= 1.0 || fraction == 0.0 || fraction >= 0.5
  {
    var after := Decide(stored, limit, window, now).0;
    Rounded(after.value.expiresAt - now);
  }

  /** One request in ten seconds: refused 2.4 seconds early, told to wait two, and refused again. */
  lemma AnnouncedWaitTooShort()
    ensures var (after, retryAfter) := Decide(Some(Counter(1, 10.0)), 1, 10.0, 7.6);
            retryAfter == Some(2) && Decide(after, 1, 10.0, 9.6).1.Some?
  {
  }

  lemma Rounded(remaining: real)
    requires remaining > 0.0
    ensures var fraction := remaining - remaining.Floor as real;
            remaining <= Max(1, (remaining + 0.5).Floor) as real
            <==> remaining <= 1.0 || fraction == 0.0 || fraction >= 0.5
  {
    var whole := remaining.Floor;
    var fraction := remaining - whole as real;
    assert (remaining + 0.5).Floor == if fraction >= 0.5 then whole + 1 else whole;
  }
}

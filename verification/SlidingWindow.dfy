/** The in-memory rate limiter: per key, the accepted times of the last window. */
module SlidingWindow {
  import opened Wrappers
  import opened Times

  /** The timestamps that are later than the cutoff, in order. */
  function After(ts: seq<real>, cutoff: real): (r: seq<real>)
    ensures |r| <= |ts|
    ensures forall t :: t in r <==> t in ts && t > cutoff
  {
    if |ts| == 0 then []
    else
      var last := |ts| - 1;
      assert ts == ts[..last] + [ts[last]];
      After(ts[..last], cutoff) + if ts[last] > cutoff then [ts[last]] else []
  }

  /** Accepted, refused with the seconds to wait, or an index error on an empty list. */
  datatype Verdict = Accepted | Limited(retryAfter: int) | IndexError

  function Truncate(x: real): int {
    if x >= 0.0 then x.Floor else -(-x).Floor
  }

  function Stored(windows: map<string, seq<real>>, key: string): seq<real> {
    if key in windows then windows[key] else []
  }

  function Decide(stored: seq<real>, limit: int, window: real, now: real): (seq<real>, Verdict) {
    var ts := After(stored, now - window);
    if |ts| >= limit then
      if ts == [] then (stored, IndexError)
      else (ts, Limited(Max(1, Truncate(ts[0] + window - now))))
    else (ts + [now], Accepted)
  }

  class MemoryLimiter {
    var windows: map<string, seq<real>>

    constructor ()
      ensures windows == map[]
    {
      windows := map[];
    }

    method EnforceMemoryLimit(key: string, limit: int, window: real, now: real) returns (v: Verdict)
      modifies this
      ensures v == Decide(Stored(old(windows), key), limit, window, now).1
      ensures v.IndexError? ==> windows == old(windows)
      ensures !v.IndexError? ==> windows == old(windows)[key := Decide(Stored(old(windows), key), limit, window, now).0]
    {
      var cutoff := now - window;
      var timestamps := After(if key in windows then windows[key] else [], cutoff);
      if |timestamps| >= limit {
        if timestamps == [] {
          return IndexError;
        }
        var retryAfter := Max(1, Truncate(timestamps[0] + window - now));
        windows := windows[key := timestamps];
        return Limited(retryAfter);
      }
      timestamps := timestamps + [now];
      windows := windows[key := timestamps];
      return Accepted;
    }
  }

  // ---- one key over a whole run ----

  /** All times at which a request of the run was accepted, as the limiter decided it. */
  datatype Trace = Trace(stored: seq<real>, accepted: seq<real>)

  function Run(times: seq<real>, limit: int, window: real): Trace {
    if |times| == 0 then Trace([], [])
    else
      var before := Run(times[..|times| - 1], limit, window);
      var now := times[|times| - 1];
      var (stored, v) := Decide(before.stored, limit, window, now);
      Trace(stored, if v == Accepted then before.accepted + [now] else before.accepted)
  }

  lemma {:induction false} AfterAppend(a: seq<real>, b: seq<real>, cutoff: real)
    ensures After(a + b, cutoff) == After(a, cutoff) + After(b, cutoff)
  {
    if |b| == 0 {
      assert a + b == a;
    } else {
      var b' := b[..|b| - 1];
      assert (a + b)[..|a + b| - 1] == a + b';
      AfterAppend(a, b', cutoff);
    }
  }

  /** Pruning twice is pruning at the later cutoff. */
  lemma {:induction false} AfterAfter(ts: seq<real>, c: real, d: real)
    requires c <= d
    ensures After(After(ts, c), d) == After(ts, d)
  {
    if |ts| > 0 {
      var init, t := ts[..|ts| - 1], ts[|ts| - 1];
      AfterAfter(init, c, d);
      AfterAppend(After(init, c), if t > c then [t] else [], d);
    }
  }

  /** How many of the times lie in the window (end - length, end]. */
  function InWindow(ts: seq<real>, length: real, end: real): nat {
    if |ts| == 0 then 0
    else
      var t := ts[|ts| - 1];
      InWindow(ts[..|ts| - 1], length, end) + if end - length < t <= end then 1 else 0
  }

  lemma {:induction false} WindowInside(ts: seq<real>, length: real, end: real, cutoff: real)
    requires cutoff <= end - length
    ensures InWindow(ts, length, end) <= |After(ts, cutoff)|
  {
    if |ts| > 0 {
      WindowInside(ts[..|ts| - 1], length, end, cutoff);
    }
  }

  /** The accepted times of a run lie among its request times, so none is later than its last request. */
  lemma {:induction false} AcceptedBefore(times: seq<real>, limit: int, window: real, now: real)
    requires forall i :: 0 <= i < |times| ==> times[i] <= now
    ensures forall t :: t in Run(times, limit, window).accepted ==> t <= now
  {
    hide Decide;
    if |times| > 0 {
      AcceptedBefore(times[..|times| - 1], limit, window, now);
    }
  }

  /**
   The pruned list is the full history of acceptances seen through the window (now - window, now],
   and a request is refused exactly when that window already holds `limit` of them.
   */
  lemma {:induction false} PrunedIsFullHistory(times: seq<real>, limit: int, window: real)
    requires NonDecreasing(times) && limit >= 1 && window > 0.0 && |times| > 0
    ensures var before := Run(times[..|times| - 1], limit, window);
            var now := times[|times| - 1];
            var run := Run(times, limit, window);
            && run.stored == After(run.accepted, now - window)
            && run.accepted
              == (if |After(before.accepted, now - window)| >= limit then before.accepted else before.accepted + [now])
  {
    hide After, Decide;
    var init, now := times[..|times| - 1], times[|times| - 1];
    var before := Run(init, limit, window);
    if |init| > 0 {
      PrunedIsFullHistory(init, limit, window);
      AfterAfter(before.accepted, init[|init| - 1] - window, now - window);
    }
    DecideByHistory(before.stored, before.accepted, limit, window, now);
  }

  /** A list that agrees with the history inside the window decides like the history. */
  lemma DecideByHistory(stored: seq<real>, accepted: seq<real>, limit: int, window: real, now: real)
    requires limit >= 1 && window > 0.0 && After(stored, now - window) == After(accepted, now - window)
    ensures var (ts, v) := Decide(stored, limit, window, now);
            if |After(accepted, now - window)| >= limit then v != Accepted && ts == After(accepted, now - window)
            else v == Accepted && ts == After(accepted + [now], now - window)
  {
    AfterAppend(accepted, [now], now - window);
    AfterOne(now, now - window);
    hide After;
  }

  lemma AfterOne(t: real, cutoff: real)
    requires t > cutoff
    ensures After([t], cutoff) == [t]
  {
  }

  lemma OneMore(ts: seq<real>, t: real, length: real, end: real)
    ensures InWindow(ts + [t], length, end) == InWindow(ts, length, end) + if end - length < t <= end then 1 else 0
  {
  }

  /** An acceptance below the limit keeps every window that includes it within the limit. */
  lemma WindowWithRoom(accepted: seq<real>, limit: int, window: real, now: real, end: real)
    requires window > 0.0 && |After(accepted, now - window)| < limit && now <= end
    ensures InWindow(accepted + [now], window, end) <= limit
  {
    AfterAppend(accepted, [now], now - window);
    AfterOne(now, now - window);
    WindowInside(accepted + [now], window, end, now - window);
  }

  /** Hence every window of the given length, wherever it ends, holds at most `limit` acceptances. */
  lemma {:induction false} EveryWindowBounded(times: seq<real>, limit: int, window: real, end: real)
    requires NonDecreasing(times) && limit >= 1 && window > 0.0
    ensures InWindow(Run(times, limit, window).accepted, window, end) <= limit
  {
    hide After, Decide;
    if |times| > 0 {
      var init, now := times[..|times| - 1], times[|times| - 1];
      var before := Run(init, limit, window).accepted;
      EveryWindowBounded(init, limit, window, end);
      PrunedIsFullHistory(times, limit, window);
      OneMore(before, now, window, end);
      if now <= end && |After(before, now - window)| < limit {
        WindowWithRoom(before, limit, window, now, end);
      }
    }
  }

  /** The limiter crashes exactly when the limit admits nothing and nothing recent is stored. */
  lemma CrashesIff(stored: seq<real>, limit: int, window: real, now: real)
    ensures Decide(stored, limit, window, now).1 == IndexError
      <==> limit <= 0 && forall t :: t in stored ==> t <= now - window
  {
    var ts := After(stored, now - window);
    if ts != [] {
      assert ts[0] in ts;
    }
    if t :| t in stored && t > now - window {
      assert t in ts;
    }
  }

  /**
   How far the announced wait can be trusted: with a full list of `limit` times, a request that
   waits exactly that long, with no other request in between, is accepted exactly when the
   remaining time was at most one second or a whole number of seconds.
   */
  lemma AnnouncedWaitSuffices(stored: seq<real>, limit: int, window: real, now: real)
    requires limit >= 1 && NonDecreasing(stored) && |After(stored, now - window)| == limit
    ensures var (ts, v) := Decide(stored, limit, window, now);
            var remaining := ts[0] + window - now;
            v.Limited? && (Decide(ts, limit, window, now + v.retryAfter as real).1 == Accepted
                           <==> remaining <= 1.0 || remaining == remaining.Floor as real)
  {
    hide After;
    var ts := After(stored, now - window);
    assert ts[0] in ts;
    AfterSorted(stored, now - window);
    var remaining := ts[0] + window - now;
    var later := now + Max(1, Truncate(remaining)) as real;
    AllOrFewer(ts, later - window);
    WholeSeconds(remaining);
  }

  /** One request in ten seconds: refused two and a half seconds early, told to wait two, and refused again. */
  lemma AnnouncedWaitTooShort()
    ensures Decide([0.0], 1, 10.0, 7.5) == ([0.0], Limited(2)) && Decide([0.0], 1, 10.0, 9.5).1 != Accepted
  {
    assert After([0.0], -2.5) == [0.0] && After([0.0], -0.5) == [0.0];
  }

  lemma WholeSeconds(remaining: real)
    requires remaining > 0.0
    ensures remaining <= Max(1, Truncate(remaining)) as real
      <==> remaining <= 1.0 || remaining == remaining.Floor as real
  {
  }

  lemma {:induction false} AfterSorted(ts: seq<real>, cutoff: real)
    requires NonDecreasing(ts)
    ensures NonDecreasing(After(ts, cutoff))
  {
    if |ts| > 0 {
      var r := After(ts[..|ts| - 1], cutoff);
      AfterSorted(ts[..|ts| - 1], cutoff);
      assert forall i :: 0 <= i < |r| ==> r[i] in r;
    }
  }

  /** Of a sorted list, pruning keeps everything exactly when the first element stays. */
  lemma {:induction false} AllOrFewer(ts: seq<real>, cutoff: real)
    requires ts != [] && NonDecreasing(ts)
    ensures |After(ts, cutoff)| == |ts| <==> ts[0] > cutoff
  {
    if |ts| > 1 {
      AllOrFewer(ts[..|ts| - 1], cutoff);
    }
  }
}

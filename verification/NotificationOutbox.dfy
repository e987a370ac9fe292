/** The delivery outbox, run by one sequential worker. */
module NotificationOutbox {
  import opened Wrappers
  import opened Retry

  datatype Status = Pending | Sending | Failed | Sent | Dead

  datatype Delivery = Delivery(status: Status, attempts: nat, nextAttemptAt: Option<int>)

  const NEW_DELIVERY := Delivery(Pending, 0, None)

  /**
   What calling the provider comes to. An exception the worker does not handle ends the call, and
   the sweep, midway.
   */
  datatype Outcome = NotificationMissing | Delivered | Temporary | Permanent | Unhandled

  predicate Terminal(d: Delivery) {
    d.status == Sent || d.status == Dead
  }

  function Process(p: Policy, d: Delivery, o: Outcome, now: int): Delivery {
    if Terminal(d) then d
    else if o.NotificationMissing? then d.(status := Dead)
    else
      var claimed := d.(status := Sending, attempts := d.attempts + 1);
      match o
      case Unhandled => claimed
      case Permanent => claimed.(status := Dead, nextAttemptAt := None)
      case Temporary =>
        (match DecideRetry(p, claimed.attempts, now)
         case DeadLetter => claimed.(status := Dead, nextAttemptAt := None)
         case RetryAt(t) => claimed.(status := Failed, nextAttemptAt := Some(t)))
      case _ => claimed.(status := Sent, nextAttemptAt := None)
  }

  predicate Due(d: Delivery, now: int) {
    (d.status == Pending || d.status == Failed) && (d.nextAttemptAt.Some? ==> d.nextAttemptAt.value <= now)
  }

  class DeliveryRow {
    var status: Status
    var attempts: nat
    var nextAttemptAt: Option<int>

    function Content(): Delivery
      reads this
    {
      Delivery(status, attempts, nextAttemptAt)
    }

    constructor ()
      ensures Content() == NEW_DELIVERY
    {
      status, attempts, nextAttemptAt := Pending, 0, None;
    }

    method ProcessNotificationDelivery(p: Policy, o: Outcome, now: int)
      modifies this
      ensures Content() == Process(p, old(Content()), o, now)
    {
      if status == Sent || status == Dead {
        return;
      }
      if o.NotificationMissing? {
        status := Dead;
        return;
      }
      status := Sending;
      attempts := attempts + 1;
      if o.Unhandled? {
        return;
      }
      if o.Temporary? || o.Permanent? {
        var decision := DecideRetry(p, attempts, now);
        if o.Permanent? || decision.DeadLetter? {
          status, nextAttemptAt := Dead, None;
        } else {
          status, nextAttemptAt := Failed, Some(decision.nextAttemptAt);
        }
        return;
      }
      status, nextAttemptAt := Sent, None;
    }
  }

  /** The positions of the first `limit` due rows, in creation order, starting from row i. */
  function DueRows(rows: seq<Delivery>, now: int, limit: nat, i: nat): (ids: seq<nat>)
    requires i <= |rows|
    ensures |ids| <= limit
    ensures forall k :: 0 <= k < |ids| ==> i <= ids[k] < |rows| && Due(rows[ids[k]], now)
    ensures forall k, l :: 0 <= k < l < |ids| ==> ids[k] < ids[l]
    ensures |ids| < limit ==> forall r :: i <= r < |rows| && Due(rows[r], now) ==> r in ids
    decreases |rows| - i
  {
    if i == |rows| || limit == 0 then []
    else if Due(rows[i], now) then [i] + DueRows(rows, now, limit - 1, i + 1)
    else DueRows(rows, now, limit, i + 1)
  }

  /** How many of the picked rows a sweep gets to: an unhandled exception ends it behind the row that raised it. */
  function Reached(ids: seq<nat>, outcomes: nat -> Outcome): (n: nat)
    ensures n <= |ids| && forall k :: 0 <= k < n - 1 ==> !outcomes(ids[k]).Unhandled?
    ensures n < |ids| ==> n > 0 && outcomes(ids[n - 1]).Unhandled?
  {
    if |ids| == 0 then 0 else if outcomes(ids[0]).Unhandled? then 1 else 1 + Reached(ids[1..], outcomes)
  }

  /** Exactly the rows `ids` were attempted, each once. */
  ghost predicate Swept(p: Policy, before: seq<Delivery>, after: seq<Delivery>, ids: seq<nat>, outcomes: nat -> Outcome,
                        now: int)
  {
    |after| == |before|
    && forall r :: 0 <= r < |before| ==>
      after[r] == if r in ids then Process(p, before[r], outcomes(r), now) else before[r]
  }

  lemma SweptOneMore(p: Policy, before: seq<Delivery>, after: seq<Delivery>, ids: seq<nat>, outcomes: nat -> Outcome,
                     now: int, id: nat)
    requires Swept(p, before, after, ids, outcomes, now) && id < |before| && id !in ids
    ensures Swept(p, before, after[id := Process(p, after[id], outcomes(id), now)], ids + [id], outcomes, now)
  {
    hide Process;
  }

  lemma NoneSwept(p: Policy, rows: seq<Delivery>, outcomes: nat -> Outcome, now: int)
    ensures Swept(p, rows, rows, [], outcomes, now)
  {
  }

  /** One sweep: what the provider does with each row, the clock, and the most rows to pick. */
  datatype Sweep = Sweep(outcomes: nat -> Outcome, now: int, limit: nat)

  /** The rows a sweep gets to. */
  function Attempted(rows: seq<Delivery>, w: Sweep): (ids: seq<nat>)
    ensures forall r :: r in ids ==> r < |rows| && Due(rows[r], w.now)
  {
    var ids := DueRows(rows, w.now, w.limit, 0);
    ids[..Reached(ids, w.outcomes)]
  }

  function AfterSweep(p: Policy, rows: seq<Delivery>, w: Sweep): (after: seq<Delivery>)
    ensures Swept(p, rows, after, Attempted(rows, w), w.outcomes, w.now)
  {
    var ids := Attempted(rows, w);
    seq(|rows|, r requires 0 <= r < |rows| => if r in ids then Process(p, rows[r], w.outcomes(r), w.now) else rows[r])
  }

  /**
   One sweep attempts each row it gets to exactly once and touches no other row; it returns
   the number of due rows, or nothing when an unhandled exception cut it short.
   */
  method ProcessDueNotificationDeliveries(p: Policy, rows: array<Delivery>, w: Sweep) returns (n: Option<nat>)
    modifies rows
    ensures var ids := DueRows(old(rows[..]), w.now, w.limit, 0);
            n == if exists k :: 0 <= k < |ids| && w.outcomes(ids[k]).Unhandled? then None else Some(|ids|)
    ensures rows[..] == AfterSweep(p, old(rows[..]), w)
  {
    hide *;
    ghost var start := rows[..];
    var ids := DueRows(rows[..], w.now, w.limit, 0);
    NoneSwept(p, start, w.outcomes, w.now);
    for k := 0 to |ids|
      invariant forall l :: 0 <= l < k ==> !w.outcomes(ids[l]).Unhandled?
      invariant Swept(p, start, rows[..], ids[..k], w.outcomes, w.now)
    {
      var id := ids[k];
      assert id !in ids[..k];
      ghost var was := rows[..];
      rows[id] := Process(p, rows[id], w.outcomes(id), w.now);
      assert rows[..] == was[id := Process(p, was[id], w.outcomes(id), w.now)];
      SweptOneMore(p, start, was, ids[..k], w.outcomes, w.now, id);
      assert ids[..k + 1] == ids[..k] + [id];
      if w.outcomes(id).Unhandled? {
        SweepReached(p, start, rows[..], w, k + 1);
        return None;
      }
    }
    SweepReached(p, start, rows[..], w, |ids|);
    n := Some(|ids|);
  }

  /** The rows after k of the picked ones, if that is where the sweep ends, are the rows after the sweep. */
  lemma SweepReached(p: Policy, rows: seq<Delivery>, after: seq<Delivery>, w: Sweep, k: nat)
    requires var ids := DueRows(rows, w.now, w.limit, 0);
             && k <= |ids| && (forall l :: 0 <= l < k - 1 ==> !w.outcomes(ids[l]).Unhandled?)
             && (k < |ids| ==> k > 0)
             && (if k > 0 && w.outcomes(ids[k - 1]).Unhandled? then true else k == |ids|)
             && Swept(p, rows, after, ids[..k], w.outcomes, w.now)
    ensures after == AfterSweep(p, rows, w)
  {
    hide DueRows, Process;
    assert k == Reached(DueRows(rows, w.now, w.limit, 0), w.outcomes);
  }

  function Sweeps(p: Policy, rows: seq<Delivery>, ws: seq<Sweep>): (after: seq<Delivery>)
    ensures |after| == |rows|
  {
    if |ws| == 0 then rows else AfterSweep(p, Sweeps(p, rows, ws[..|ws| - 1]), ws[|ws| - 1])
  }

  /** One of the sweeps attempted row r and died of an unhandled exception on it. */
  predicate DiedMidway(p: Policy, rows: seq<Delivery>, ws: seq<Sweep>, r: nat) {
    |ws| > 0
    && var init, last := ws[..|ws| - 1], ws[|ws| - 1];
       DiedMidway(p, rows, init, r) || (r in Attempted(Sweeps(p, rows, init), last) && last.outcomes(r).Unhandled?)
  }

  /** No sweep ever attempts a row in `sending` again. */
  lemma {:induction false} SendingForever(p: Policy, rows: seq<Delivery>, ws: seq<Sweep>, r: nat)
    requires r < |rows| && rows[r].status == Sending
    ensures Sweeps(p, rows, ws)[r] == rows[r]
  {
    hide AfterSweep, Attempted, Process;
    if |ws| > 0 {
      SendingForever(p, rows, ws[..|ws| - 1], r);
    }
  }

  /** Over any sweeps, a row ends up in `sending`, for good, exactly when one of its attempts died midway. */
  lemma {:induction false} StuckIff(p: Policy, rows: seq<Delivery>, ws: seq<Sweep>, r: nat)
    requires r < |rows| && rows[r].status != Sending
    ensures Sweeps(p, rows, ws)[r].status == Sending <==> DiedMidway(p, rows, ws, r)
  {
    hide AfterSweep, Attempted;
    if |ws| > 0 {
      StuckIff(p, rows, ws[..|ws| - 1], r);
    }
  }

  /** A first sweep whose provider call dies leaves the row in `sending`, and no further sweep changes that. */
  lemma StuckSomewhere(p: Policy, w: Sweep, later: seq<Sweep>)
    requires w.limit >= 1 && w.outcomes(0) == Unhandled
    ensures Sweeps(p, [NEW_DELIVERY], [w] + later)[0] == Delivery(Sending, 1, None)
  {
    var rows := [NEW_DELIVERY];
    assert DueRows(rows, w.now, w.limit, 1) == [];
    assert DueRows(rows, w.now, w.limit, 0)[0] == 0;
    assert 0 in Attempted(rows, w);
    assert AfterSweep(p, rows, w)[0] == Process(p, NEW_DELIVERY, Unhandled, w.now);
    hide AfterSweep;
    assert [w][..0] == [];
    assert Sweeps(p, rows, []) == rows;
    assert Sweeps(p, rows, [w]) == AfterSweep(p, rows, w);
    SweepsInParts(p, rows, [w], later);
    SendingForever(p, Sweeps(p, rows, [w]), later, 0);
  }

  lemma {:induction false} SweepsInParts(p: Policy, rows: seq<Delivery>, a: seq<Sweep>, b: seq<Sweep>)
    ensures Sweeps(p, rows, a + b) == Sweeps(p, Sweeps(p, rows, a), b)
  {
    hide AfterSweep, Swept, Attempted;
    if |b| > 0 {
      var last := |b| - 1;
      assert (a + b)[..|a| + last] == a + b[..last] && (a + b)[|a| + last] == b[last];
      SweepsInParts(p, rows, a, b[..last]);
    } else {
      assert a + b == a;
    }
  }

  /** The delivery after calls whose outcomes and clocks are given in turn. */
  function Calls(p: Policy, d: Delivery, calls: seq<(Outcome, int)>): Delivery {
    if |calls| == 0 then d
    else var last := |calls| - 1; Process(p, Calls(p, d, calls[..last]), calls[last].0, calls[last].1)
  }

  /** A finished delivery stays as it is through any later calls. */
  lemma {:induction false} TerminalForever(p: Policy, d: Delivery, calls: seq<(Outcome, int)>)
    requires Terminal(d)
    ensures Calls(p, d, calls) == d
  {
    if |calls| > 0 {
      TerminalForever(p, d, calls[..|calls| - 1]);
    }
  }

  /** Call k is the one that finishes the delivery, or would have to: the row is not finished before it. */
  predicate Reaches(p: Policy, calls: seq<(Outcome, int)>, k: nat) {
    k < |calls| && !Terminal(Calls(p, NEW_DELIVERY, calls[..k]))
  }

  /** Why call k gives the delivery up: nothing to deliver, refused for good, or out of attempts. */
  predicate GivesUp(p: Policy, calls: seq<(Outcome, int)>, k: nat)
    requires k < |calls|
  {
    var o := calls[k].0;
    o == NotificationMissing || o == Permanent
    || (o == Temporary && Calls(p, NEW_DELIVERY, calls[..k]).attempts + 1 >= p.maxAttempts)
  }

  lemma CallsOneMore(p: Policy, calls: seq<(Outcome, int)>)
    requires |calls| > 0
    ensures var init, last := calls[..|calls| - 1], |calls| - 1;
            && Calls(p, NEW_DELIVERY, calls) == Process(p, Calls(p, NEW_DELIVERY, init), calls[last].0, calls[last].1)
            && (Reaches(p, calls, last) <==> !Terminal(Calls(p, NEW_DELIVERY, init)))
            && (GivesUp(p, calls, last)
                <==> calls[last].0 == NotificationMissing || calls[last].0 == Permanent
                     || (calls[last].0 == Temporary && Calls(p, NEW_DELIVERY, init).attempts + 1 >= p.maxAttempts))
            && (forall k :: 0 <= k < last ==>
                  && calls[k] == init[k] && (Reaches(p, calls, k) <==> Reaches(p, init, k))
                  && (GivesUp(p, calls, k) <==> GivesUp(p, init, k)))
  {
    assert forall k :: 0 <= k < |calls| ==> calls[..|calls| - 1][..k] == calls[..k];
    hide Process;
  }

  /** A delivery is sent exactly if a call that still reached it delivered. */
  lemma {:induction false} SentIff(p: Policy, calls: seq<(Outcome, int)>)
    ensures Calls(p, NEW_DELIVERY, calls).status == Sent
       <==> exists k :: 0 <= k < |calls| && Reaches(p, calls, k) && calls[k].0 == Delivered
  {
    if |calls| > 0 {
      SentIff(p, calls[..|calls| - 1]);
      CallsOneMore(p, calls);
    }
    hide Calls, Reaches, GivesUp;
  }

  /** A delivery is dead exactly if a call that still reached it gave it up. */
  lemma {:induction false} DeadIff(p: Policy, calls: seq<(Outcome, int)>)
    ensures Calls(p, NEW_DELIVERY, calls).status == Dead
       <==> exists k :: 0 <= k < |calls| && Reaches(p, calls, k) && GivesUp(p, calls, k)
  {
    if |calls| > 0 {
      DeadIff(p, calls[..|calls| - 1]);
      CallsOneMore(p, calls);
    }
    hide Calls, Reaches, GivesUp;
  }

  /** The calls that reached the delivery and found its notification. */
  function ProviderCalls(p: Policy, calls: seq<(Outcome, int)>): nat {
    if |calls| == 0 then 0
    else
      var last := |calls| - 1;
      ProviderCalls(p, calls[..last]) + if Reaches(p, calls, last) && calls[last].0 != NotificationMissing then 1 else 0
  }

  /** The stored count is the number of times the provider was called. */
  lemma {:induction false} AttemptsCounted(p: Policy, calls: seq<(Outcome, int)>)
    ensures Calls(p, NEW_DELIVERY, calls).attempts == ProviderCalls(p, calls)
  {
    if |calls| > 0 {
      AttemptsCounted(p, calls[..|calls| - 1]);
      CallsOneMore(p, calls);
    }
    hide Calls, Reaches, GivesUp;
  }

  /** No delivery is ever attempted more often than the policy allows. */
  lemma {:induction false} AttemptsBounded(p: Policy, calls: seq<(Outcome, int)>)
    ensures var d := Calls(p, NEW_DELIVERY, calls);
            (d.status == Failed ==> d.attempts < p.maxAttempts)
            && ((forall i :: 0 <= i < |calls| ==> !calls[i].0.Unhandled?) ==>
                  d.status != Sending && d.attempts <= Max(1, p.maxAttempts)
                    && (!Terminal(d) ==> d.attempts < Max(1, p.maxAttempts)))
  {
    if |calls| > 0 {
      AttemptsBounded(p, calls[..|calls| - 1]);
      assert forall i :: 0 <= i < |calls| - 1 ==> calls[..|calls| - 1][i] == calls[i];
    }
  }

  /** A delivery that always fails is attempted exactly max(1, maxAttempts) times and is then dead. */
  lemma {:induction false} AlwaysFailing(p: Policy, calls: seq<(Outcome, int)>)
    requires forall i :: 0 <= i < |calls| ==> calls[i].0.Temporary?
    ensures var d := Calls(p, NEW_DELIVERY, calls);
            var most := Max(1, p.maxAttempts);
            if |calls| < most
            then d.attempts == |calls| && d.status == (if calls == [] then Pending else Failed)
            else d.attempts == most && d.status == Dead
  {
    if |calls| > 0 {
      AlwaysFailing(p, calls[..|calls| - 1]);
    }
  }

  /** After a failed attempt the sweep leaves the row alone until the backoff has passed, and takes it from then on. */
  lemma BackoffRespected(p: Policy, d: Delivery, failedAt: int, now: int)
    requires !Terminal(d) && d.attempts + 1 < p.maxAttempts
    ensures Due(Process(p, d, Temporary, failedAt), now) <==> now >= failedAt + Delay(p, d.attempts + 1)
  {
  }
}

/**
 Concurrent point transactions, statement by statement, under read-committed isolation.
 A statement sees committed rows only. Inserting under a unique key waits while another open
 transaction has inserted the same key; locking a balance row waits while another transaction
 holds it, and then reads the committed value.
 */
module PointInterleaving {
  import opened Wrappers
  import opened Tables
  import opened PointTables
  import opened PointLedger
  import opened PointInvariant

  datatype Request = Request(earn: bool, key: LedgerKey, amount: int)

  /** How far a transaction has come. Earning inserts the ledger row before it locks the balance; spending after. */
  datatype Phase =
    | Started
    | Looked
    | Keyed
    | Locked(seen: int)
    | Moved(after: int)
    | Written(after: int)
    | Done(result: Result<nat, Error>)

  datatype Session = Session(request: Request, phase: Phase)

  datatype Sys = Sys(db: Db, txs: seq<Session>)

  predicate HoldsKey(t: Session) {
    t.phase.Written? || (t.request.earn && (t.phase.Keyed? || t.phase.Locked?))
  }

  predicate HoldsLock(t: Session) {
    t.phase.Locked? || t.phase.Moved? || t.phase.Written?
  }

  predicate KeyTaken(s: Sys, i: nat)
    requires i < |s.txs|
  {
    exists j :: 0 <= j < |s.txs| && j != i && HoldsKey(s.txs[j]) && s.txs[j].request.key == s.txs[i].request.key
  }

  predicate LockTaken(s: Sys, i: nat)
    requires i < |s.txs|
  {
    exists j :: 0 <= j < |s.txs| && j != i && HoldsLock(s.txs[j])
      && s.txs[j].request.key.user == s.txs[i].request.key.user
  }

  function Goto(s: Sys, i: nat, p: Phase): Sys
    requires i < |s.txs|
  {
    s.(txs := s.txs[i := s.txs[i].(phase := p)])
  }

  function Found(s: Sys, i: nat): Option<nat>
    requires i < |s.txs|
  {
    Lookup(s.db.ledger, s.txs[i].request.key)
  }

  /** The commit makes the ledger row and the new balance visible together. */
  function Commit(s: Sys, i: nat): Sys
    requires i < |s.txs| && s.txs[i].phase.Written?
  {
    var Request(earn, key, amount) := s.txs[i].request;
    var after := s.txs[i].phase.after;
    var row := if earn then Posting(Earn, amount, after, None) else Posting(Spend, -amount, after, None);
    var db := s.db.(balances := s.db.balances[key.user := after], ledger := s.db.ledger + [Row(key, row)]);
    Goto(Sys(db, s.txs), i, Done(Ok(|s.db.ledger|)))
  }

  /** The next statement of transaction i; None while it has to wait or when it has finished. */
  function Advance(s: Sys, i: nat): Option<Sys>
    requires i < |s.txs|
  {
    var Session(request, phase) := s.txs[i];
    var Request(earn, key, amount) := request;
    match phase
    case Started =>
      if amount <= 0 then Some(Goto(s, i, Done(Err(InvalidAmount))))
      else if Found(s, i).Some? then Some(Goto(s, i, Done(Ok(Found(s, i).value))))
      else Some(Goto(s, i, Looked))
    case Looked =>
      if earn then
        if KeyTaken(s, i) then None
        else if Found(s, i).Some? then Some(Goto(s, i, Done(Ok(Found(s, i).value))))
        else if key.event >= |s.db.events| then Some(Goto(s, i, Done(Err(IntegrityViolation))))
        else Some(Goto(s, i, Keyed))
      else if key.user !in s.db.balances then Some(Goto(s, i, Done(Err(InsufficientPoints))))
      else if LockTaken(s, i) then None
      else Some(Goto(s, i, Locked(s.db.balances[key.user])))
    case Keyed => if LockTaken(s, i) then None else Some(Goto(s, i, Locked(Balance(s.db, key.user))))
    case Locked(seen) =>
      if earn then Some(Goto(s, i, Written(seen + amount)))
      else if seen < amount then Some(Goto(s, i, Done(Err(InsufficientPoints))))
      else Some(Goto(s, i, Moved(seen - amount)))
    case Moved(after) =>
      if KeyTaken(s, i) then None
      else if Found(s, i).Some? || key.event >= |s.db.events| then Some(Goto(s, i, Done(Err(IntegrityViolation))))
      else Some(Goto(s, i, Written(after)))
    case Written(_) => Some(Commit(s, i))
    case Done(_) => None
  }

  datatype Action = Run(i: nat) | Abort(i: nat)

  /** One move of the scheduler; a blocked transaction stays where it is. */
  function Act(s: Sys, a: Action): Sys {
    if a.i >= |s.txs| || s.txs[a.i].phase.Done? then s
    else match a
      case Run(i) => (match Advance(s, i) case Some(s') => s' case None => s)
      case Abort(i) => Goto(s, i, Done(Err(TransactionAborted)))
  }

  function Schedule(s: Sys, acts: seq<Action>): Sys
    decreases |acts|
  {
    if |acts| == 0 then s else Schedule(Act(s, acts[0]), acts[1..])
  }

  /** What transaction t knows about the committed tables because of the locks it holds. */
  ghost predicate Knows(db: Db, t: Session) {
    var Session(request, phase) := t;
    var Request(earn, key, amount) := request;
    && (!phase.Started? && !phase.Done? ==> amount > 0)
    && (HoldsKey(t) ==> Lookup(db.ledger, key).None? && key.event < |db.events|)
    && (HoldsLock(t) && !earn ==> key.user in db.balances)
    && match phase
       case Locked(seen) => seen == Balance(db, key.user)
       case Moved(after) => !earn && 0 <= after == Balance(db, key.user) - amount
       case Written(after) => after == Balance(db, key.user) + (if earn then amount else -amount)
         && (earn || 0 <= after)
       case Keyed => earn
       case Done(Ok(r)) => r < |db.ledger| && db.ledger[r].key == key
       case _ => true
  }

  ghost predicate Safe(s: Sys) {
    && Valid(s.db)
    && (forall i :: 0 <= i < |s.txs| ==> Knows(s.db, s.txs[i]))
    && (forall i, j :: 0 <= i < j < |s.txs| && HoldsKey(s.txs[i]) && HoldsKey(s.txs[j]) ==>
          s.txs[i].request.key != s.txs[j].request.key)
    && (forall i, j :: 0 <= i < j < |s.txs| && HoldsLock(s.txs[i]) && HoldsLock(s.txs[j]) ==>
          s.txs[i].request.key.user != s.txs[j].request.key.user)
  }

  function Atomic(r: Request): Command {
    if r.earn then DoGrant(r.key.user, r.key.event, r.key.rule, r.amount)
    else DoSpend(r.key.user, r.key.event, r.key.rule, r.amount)
  }

  predicate Commits(s: Sys, a: Action) {
    a.Run? && a.i < |s.txs| && s.txs[a.i].phase.Written?
  }

  /** A commit has exactly the effect and the result of the whole command run alone at that moment. */
  lemma CommitIsAtomic(s: Sys, a: Action)
    requires Safe(s) && Commits(s, a)
    ensures var s' := Act(s, a);
            s'.txs[a.i].phase.Done? && (s'.db, s'.txs[a.i].phase.result) == Step(s.db, Atomic(s.txs[a.i].request))
  {
  }

  lemma CommitKeeps(s: Sys, a: Action)
    requires Safe(s) && Commits(s, a)
    ensures Safe(Act(s, a))
  {
    hide Lookup, Sum, Valid;
    var s' := Act(s, a);
    CommitIsAtomic(s, a);
    StepKeeps(s.db, Atomic(s.txs[a.i].request));
    var key := s.txs[a.i].request.key;
    forall j | 0 <= j < |s'.txs|
      ensures Knows(s'.db, s'.txs[j])
    {
      var t := s.txs[j];
      assert Knows(s.db, t);
      if j != a.i {
        assert s'.txs[j] == t;
        assert HoldsKey(t) ==> t.request.key != key;
        assert HoldsLock(t) ==> t.request.key.user != key.user;
      }
    }
  }

  /** A move other than a commit changes one phase, takes no lock that is taken, and learns only what is so. */
  lemma MoveShape(s: Sys, a: Action)
    requires Safe(s) && !Commits(s, a) && a.i < |s.txs|
    ensures var s' := Act(s, a);
            var t := s'.txs[a.i];
            s' == Goto(s, a.i, t.phase) && Knows(s.db, t)
            && (HoldsKey(t) ==> HoldsKey(s.txs[a.i]) || !KeyTaken(s, a.i))
            && (HoldsLock(t) ==> HoldsLock(s.txs[a.i]) || !LockTaken(s, a.i))
  {
    hide Lookup, Sum, Valid, KeyTaken, LockTaken;
    assert Knows(s.db, s.txs[a.i]);
  }

  lemma MoveKeeps(s: Sys, a: Action)
    requires Safe(s) && !Commits(s, a)
    ensures var s' := Act(s, a); Safe(s') && s'.db == s.db
  {
    hide Lookup, Sum, Valid, Advance, Knows;
    if a.i < |s.txs| {
      MoveShape(s, a);
    }
  }

  lemma ActKeeps(s: Sys, a: Action)
    requires Safe(s)
    ensures Safe(Act(s, a))
  {
    if Commits(s, a) {
      CommitKeeps(s, a);
    } else {
      MoveKeeps(s, a);
    }
  }

  /** The commands in the order in which their transactions committed. */
  function Serial(s: Sys, acts: seq<Action>): seq<Command>
    decreases |acts|
  {
    if |acts| == 0 then []
    else (if Commits(s, acts[0]) then [Atomic(s.txs[acts[0].i].request)] else []) + Serial(Act(s, acts[0]), acts[1..])
  }

  /**
   Serializability: whatever the scheduler does, the committed tables are those of running the
   committed commands one after another, so no update is ever lost and the cache never drifts.
   */
  lemma {:induction false} Serializable(s: Sys, acts: seq<Action>)
    requires Safe(s)
    ensures var end := Schedule(s, acts);
            Safe(end) && end.db == PointLedger.Run(s.db, Serial(s, acts))
    decreases |acts|
  {
    hide Lookup, Sum, Valid, Act, Step;
    if |acts| > 0 {
      var a := acts[0];
      ActKeeps(s, a);
      Serializable(Act(s, a), acts[1..]);
      var rest := Serial(Act(s, a), acts[1..]);
      if Commits(s, a) {
        CommitIsAtomic(s, a);
        var c := Atomic(s.txs[a.i].request);
        assert ([c] + rest)[1..] == rest;
      } else {
        MoveKeeps(s, a);
        assert [] + rest == rest;
      }
    }
  }

  lemma StartIsSafe(s: Sys)
    requires Valid(s.db) && forall i :: 0 <= i < |s.txs| ==> s.txs[i].phase == Started
    ensures Safe(s)
  {
  }

  predicate Succeeded(t: Session) {
    t.phase.Done? && t.phase.result.Ok?
  }

  /** Exactly once: requests under one key that succeed, however they interleave, share one ledger row. */
  lemma OneRowPerKey(s: Sys, acts: seq<Action>, i: nat, j: nat)
    requires Safe(s) && i < |s.txs| && j < |s.txs|
    requires s.txs[i].request.key == s.txs[j].request.key
    ensures var end := Schedule(s, acts);
            |end.txs| == |s.txs|
            && (Succeeded(end.txs[i]) && Succeeded(end.txs[j]) ==>
                  end.txs[i].phase.result == end.txs[j].phase.result)
  {
    hide Lookup, Sum, Act;
    Serializable(s, acts);
    RequestsStay(s, acts);
    var end := Schedule(s, acts);
    assert Knows(end.db, end.txs[i]) && Knows(end.db, end.txs[j]);
  }

  /**
   Exactly when a transaction that ends without a commit answers like the whole command at that
   moment: unless it is a spend that had looked for its key before another transaction committed it.
   Such a spend is refused instead of replayed.
   */
  lemma AnswersLikeCommandIff(s: Sys, i: nat)
    requires Safe(s) && i < |s.txs| && !s.txs[i].phase.Written? && Advance(s, i).Some?
    requires Advance(s, i).value.txs[i].phase.Done?
    ensures Advance(s, i).value.txs[i].phase.result == Step(s.db, Atomic(s.txs[i].request)).1
       <==> s.txs[i].request.earn || s.txs[i].phase.Started? || Found(s, i).None?
  {
    hide Lookup, Sum, Valid;
    assert Knows(s.db, s.txs[i]);
  }

  lemma {:induction false} RequestsStay(s: Sys, acts: seq<Action>)
    ensures var end := Schedule(s, acts);
            |end.txs| == |s.txs| && forall i :: 0 <= i < |s.txs| ==> end.txs[i].request == s.txs[i].request
    decreases |acts|
  {
    if |acts| > 0 {
      RequestsStay(Act(s, acts[0]), acts[1..]);
    }
  }

  /** Grants alone never deadlock: while one is unfinished, one of them can move. */
  lemma GrantsProgress(s: Sys, i: nat) returns (j: nat)
    requires Safe(s) && forall k :: 0 <= k < |s.txs| ==> s.txs[k].request.earn
    requires i < |s.txs| && !s.txs[i].phase.Done?
    ensures j < |s.txs| && Advance(s, j).Some?
  {
    hide Lookup, Valid;
    assert forall k :: 0 <= k < |s.txs| ==> Knows(s.db, s.txs[k]);
    if k :| 0 <= k < |s.txs| && HoldsLock(s.txs[k]) {
      j := k;
    } else if k :| 0 <= k < |s.txs| && HoldsKey(s.txs[k]) {
      j := k;
    } else {
      j := i;
    }
  }

  /** A grant and a spend that are free to run under the same new key. */
  ghost predicate Contending(s: Sys, spend: Phase) {
    && |s.txs| == 2 && s.txs[0].phase == Started && s.txs[1].phase == spend
    && s.txs[0].request.earn && !s.txs[1].request.earn && s.txs[0].request.key == s.txs[1].request.key
    && s.txs[0].request.amount > 0 && Found(s, 0).None?
    && var key := s.txs[0].request.key;
       key.event < |s.db.events| && key.user in s.db.balances && 0 < s.txs[1].request.amount <= s.db.balances[key.user]
  }

  lemma SpendMoves(s: Sys) returns (p: Phase)
    requires Contending(s, Started)
    ensures Act(Act(Act(s, Run(1)), Run(1)), Run(1)) == Goto(s, 1, p) && p.Moved?
  {
    hide Lookup;
    var Request(_, key, amount) := s.txs[1].request;
    p := Moved(s.db.balances[key.user] - amount);
    assert Act(s, Run(1)) == Goto(s, 1, Looked);
    assert Act(Goto(s, 1, Looked), Run(1)) == Goto(s, 1, Locked(s.db.balances[key.user]));
  }

  lemma GrantKeys(s: Sys, p: Phase)
    requires p.Moved? && Contending(s, p)
    ensures Act(Act(s, Run(0)), Run(0)) == Goto(s, 0, Keyed)
  {
    hide Lookup;
    assert Act(s, Run(0)) == Goto(s, 0, Looked);
  }

  /**
   A grant and a spend under the same key take the key and the balance row in opposite orders:
   this schedule leaves each waiting for the other, and aborting either one frees the other.
   */
  lemma GrantAndSpendCanDeadlock(s: Sys)
    requires Contending(s, Started)
    ensures var stuck := Schedule(s, [Run(1), Run(1), Run(1), Run(0), Run(0)]);
            |stuck.txs| == 2 && stuck.txs[0].phase.Keyed? && stuck.txs[1].phase.Moved?
            && Advance(stuck, 0).None? && Advance(stuck, 1).None?
            && Advance(Act(stuck, Abort(1)), 0).Some? && Advance(Act(stuck, Abort(0)), 1).Some?
  {
    hide Lookup, Act, Schedule, Advance;
    var p := SpendMoves(s);
    GrantKeys(Goto(s, 1, p), p);
    ScheduleFive(s, Run(1), Run(1), Run(1), Run(0), Run(0));
    EachWaits(Goto(Goto(s, 1, p), 0, Keyed));
  }

  /** Two spends of one new key by a user with enough points for one; the second has looked and found nothing. */
  ghost predicate Duplicate(s: Sys) {
    && |s.txs| == 2 && s.txs[0] == Session(s.txs[1].request, Started) && s.txs[1].phase == Looked
    && !s.txs[1].request.earn && Found(s, 0).None?
    && var Request(_, key, amount) := s.txs[1].request;
       key.event < |s.db.events| && key.user in s.db.balances && 0 < amount <= s.db.balances[key.user]
  }

  lemma FirstSpends(s: Sys) returns (after: int)
    requires Duplicate(s)
    ensures after == s.db.balances[s.txs[1].request.key.user] - s.txs[1].request.amount
    ensures Schedule(s, [Run(0), Run(0), Run(0), Run(0), Run(0)]) == Commit(Goto(s, 0, Written(after)), 0)
  {
    hide Lookup;
    var Request(_, key, amount) := s.txs[1].request;
    after := s.db.balances[key.user] - amount;
    assert Act(s, Run(0)) == Goto(s, 0, Looked);
    assert Act(Goto(s, 0, Looked), Run(0)) == Goto(s, 0, Locked(after + amount));
    assert Act(Goto(s, 0, Locked(after + amount)), Run(0)) == Goto(s, 0, Moved(after));
    assert Act(Goto(s, 0, Moved(after)), Run(0)) == Goto(s, 0, Written(after));
    assert Act(Goto(s, 0, Written(after)), Run(0)) == Commit(Goto(s, 0, Written(after)), 0);
    ScheduleFive(s, Run(0), Run(0), Run(0), Run(0), Run(0));
  }

  /** A run in which the second of two equal spends is refused, though the first has gone through. */
  lemma DuplicateSpendRefused(s: Sys)
    requires Duplicate(s)
    ensures var spent := Schedule(s, [Run(0), Run(0), Run(0), Run(0), Run(0)]);
            var end := Act(Act(Act(spent, Run(1)), Run(1)), Run(1));
            |end.txs| == 2 && end.txs[0].phase == Done(Ok(|s.db.ledger|))
            && end.txs[1].phase == Done(Err(if s.db.balances[s.txs[1].request.key.user] < 2 * s.txs[1].request.amount
                                            then InsufficientPoints else IntegrityViolation))
  {
    hide Lookup, Schedule, Act;
    var after := FirstSpends(s);
    var t := Commit(Goto(s, 0, Written(after)), 0);
    assert t.db.ledger[|s.db.ledger|].key == t.txs[1].request.key;
    SecondRefused(t, after);
  }

  /** A spend that found nothing, and now runs on tables that hold its key. */
  lemma SecondRefused(t: Sys, balance: int)
    requires |t.txs| == 2 && t.txs[1].phase == Looked && t.txs[0].phase.Done? && Found(t, 1).Some?
    requires !t.txs[1].request.earn
    requires var user := t.txs[1].request.key.user; user in t.db.balances && t.db.balances[user] == balance
    ensures var end := Act(Act(Act(t, Run(1)), Run(1)), Run(1));
            var error := if balance < t.txs[1].request.amount then InsufficientPoints else IntegrityViolation;
            end == Goto(t, 1, Done(Err(error)))
  {
    hide Lookup;
    assert Act(t, Run(1)) == Goto(t, 1, Locked(balance));
    if balance >= t.txs[1].request.amount {
      assert Act(Goto(t, 1, Locked(balance)), Run(1)) == Goto(t, 1, Moved(balance - t.txs[1].request.amount));
    }
  }

  lemma EachWaits(s: Sys)
    requires |s.txs| == 2 && s.txs[0].phase.Keyed? && s.txs[1].phase.Moved?
    requires s.txs[0].request.earn && !s.txs[1].request.earn && s.txs[0].request.key == s.txs[1].request.key
    ensures Advance(s, 0).None? && Advance(s, 1).None?
    ensures Advance(Act(s, Abort(1)), 0).Some? && Advance(Act(s, Abort(0)), 1).Some?
  {
    hide Lookup;
  }

  lemma ScheduleFive(s: Sys, a: Action, b: Action, c: Action, d: Action, e: Action)
    ensures Schedule(s, [a, b, c, d, e]) == Act(Act(Act(Act(Act(s, a), b), c), d), e)
  {
    hide Act;
    assert [a, b, c, d, e][1..] == [b, c, d, e] && [b, c, d, e][1..] == [c, d, e] && [c, d, e][1..] == [d, e]
      && [d, e][1..] == [e];
    var s3 := Act(Act(Act(s, a), b), c);
    assert Schedule(s3, [d, e]) == Schedule(Act(s3, d), [e]) == Schedule(Act(Act(s3, d), e), []);
    assert Schedule(Act(s, a), [b, c, d, e]) == Schedule(s3, [d, e]);
  }
}

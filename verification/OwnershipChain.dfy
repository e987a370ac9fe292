/** The ownership ledger: every event carries the hash of the event before it. */
module OwnershipChain {
  import opened Wrappers

  /** A stored time in UTC; a column without time zone gives it back unzoned. */
  datatype Stamp = Stamp(zoned: bool, instant: int)

  datatype Facts = Facts(userCardId: string, userId: string, cardId: string, action: string,
                         sourceType: string, sourceId: string,
                         fromUserId: Option<string>, toUserId: Option<string>)

  /** Ids end in twelve hexadecimal digits, so comparing them as text compares them as numbers. */
  datatype Event = Event(id: nat, facts: Facts, metadata: Option<map<string, string>>,
                         previousHash: Option<string>, recordHash: Option<string>, createdAt: Stamp)

  /** The fields under the hash, with the creation time in UTC and absent metadata as empty. */
  datatype Payload = Payload(id: nat, facts: Facts, metadata: map<string, string>,
                             createdAt: int, previousHash: Option<string>)

  function PayloadOf(e: Event): Payload {
    Payload(e.id, e.facts, if e.metadata.Some? then e.metadata.value else map[], e.createdAt.instant, e.previousHash)
  }

  /** SHA-256 as the program relies on it: no two payloads share a digest, and no digest is empty. */
  ghost predicate CollisionFree(h: Payload -> string) {
    (forall p, q :: h(p) == h(q) ==> p == q) && forall p :: h(p) != ""
  }

  /** A row without a hash predates hashing. */
  predicate Hashed(e: Event) {
    e.recordHash.Some? && e.recordHash.value != ""
  }

  predicate Before(a: Event, b: Event) {
    a.createdAt.instant < b.createdAt.instant || (a.createdAt.instant == b.createdAt.instant && a.id < b.id)
  }

  ghost predicate Ordered(es: seq<Event>) {
    forall i, j :: 0 <= i < j < |es| ==> Before(es[i], es[j])
  }

  /** Where e belongs: behind every event that does not come after it. */
  function Place(es: seq<Event>, e: Event): (p: nat)
    ensures p <= |es| && (p > 0 ==> !Before(e, es[p - 1]))
    ensures forall j :: p <= j < |es| ==> Before(e, es[j])
  {
    if |es| == 0 || !Before(e, es[|es| - 1]) then |es| else Place(es[..|es| - 1], e)
  }

  function Insert(es: seq<Event>, e: Event): seq<Event> {
    es[..Place(es, e)] + [e] + es[Place(es, e)..]
  }

  /** Stable sort by creation time and id. */
  function Sorted(es: seq<Event>): (r: seq<Event>)
    ensures |r| == |es|
  {
    if |es| == 0 then [] else Insert(Sorted(es[..|es| - 1]), es[|es| - 1])
  }

  lemma InsertSameEvents(es: seq<Event>, e: Event)
    ensures multiset(Insert(es, e)) == multiset(es) + multiset{e}
  {
    hide Place;
    var p := Place(es, e);
    assert es == es[..p] + es[p..];
  }

  lemma {:induction false} SortedSameEvents(es: seq<Event>)
    ensures multiset(Sorted(es)) == multiset(es)
    ensures forall x :: x in Sorted(es) <==> x in es
  {
    hide Insert;
    if |es| > 0 {
      var init, e := es[..|es| - 1], es[|es| - 1];
      SortedSameEvents(init);
      InsertSameEvents(Sorted(init), e);
      assert es == init + [e];
    }
    assert forall x :: x in Sorted(es) <==> x in multiset(Sorted(es));
    assert forall x :: x in es <==> x in multiset(es);
  }

  lemma InsertInOrder(es: seq<Event>, e: Event)
    requires Ordered(es) && forall x :: x in es ==> x.id != e.id
    ensures Ordered(Insert(es, e))
  {
  }

  lemma {:induction false} SortedInOrder(es: seq<Event>)
    requires forall i, j :: 0 <= i < j < |es| ==> es[i].id != es[j].id
    ensures Ordered(Sorted(es))
    ensures forall i, j :: 0 <= i < j < |es| ==>
      var a, b := Sorted(es)[i], Sorted(es)[j];
      a.createdAt.instant < b.createdAt.instant || (a.createdAt.instant == b.createdAt.instant && a.id < b.id)
  {
    hide Insert;
    if |es| > 0 {
      SortedInOrder(es[..|es| - 1]);
      SortedSameEvents(es[..|es| - 1]);
      InsertInOrder(Sorted(es[..|es| - 1]), es[|es| - 1]);
    }
  }

  /** The row that `order by created_at desc, id desc limit 1` selects. */
  function Latest(es: seq<Event>): Option<Event> {
    if |es| == 0 then None
    else
      var last := es[|es| - 1];
      match Latest(es[..|es| - 1])
      case Some(m) => if Before(last, m) then Some(m) else Some(last)
      case None => Some(last)
  }

  function Last(es: seq<Event>): Option<Event> {
    if es == [] then None else Some(es[|es| - 1])
  }

  /** The latest row comes after all others by creation time and id. */
  lemma {:induction false} LatestIsNewest(es: seq<Event>, e: Event)
    requires e in es
    ensures var latest := Latest(es);
            && latest.Some? && latest.value in es
            && (e.createdAt.instant < latest.value.createdAt.instant
                || (e.createdAt.instant == latest.value.createdAt.instant && e.id <= latest.value.id))
  {
    var init, last := es[..|es| - 1], es[|es| - 1];
    assert es == init + [last];
    if init != [] {
      LatestIsNewest(init, if e in init then e else init[0]);
    }
  }

  /** The appender's latest row is the last one in the verifier's order. */
  lemma {:induction false} LatestIsLastSorted(es: seq<Event>)
    ensures Latest(es) == Last(Sorted(es))
  {
    if |es| > 0 {
      LatestIsLastSorted(es[..|es| - 1]);
    }
  }

  /** What an event's previous_hash has to be: the hash of the row before it, none behind a boundary. */
  function PrevHash(es: seq<Event>, i: nat): Option<string>
    requires i <= |es|
  {
    if i == 0 || !Hashed(es[i - 1]) then None else es[i - 1].recordHash
  }

  predicate LinkOk(h: Payload -> string, es: seq<Event>, i: nat)
    requires i < |es|
  {
    Hashed(es[i]) ==> es[i].previousHash == PrevHash(es, i) && es[i].recordHash == Some(h(PayloadOf(es[i])))
  }

  ghost predicate Linked(h: Payload -> string, es: seq<Event>) {
    forall i :: 0 <= i < |es| ==> LinkOk(h, es, i)
  }

  datatype Violation = PreviousHash(id: nat) | RecordHash(id: nat)

  function ViolationsAt(h: Payload -> string, es: seq<Event>, i: nat): seq<Violation>
    requires i < |es|
  {
    if !Hashed(es[i]) then [] else
      (if es[i].previousHash != PrevHash(es, i) then [PreviousHash(es[i].id)] else [])
      + (if es[i].recordHash != Some(h(PayloadOf(es[i]))) then [RecordHash(es[i].id)] else [])
  }

  function Violations(h: Payload -> string, es: seq<Event>, n: nat): seq<Violation>
    requires n <= |es|
  {
    if n == 0 then [] else Violations(h, es, n - 1) + ViolationsAt(h, es, n - 1)
  }

  lemma ViolationsAtSound(h: Payload -> string, es: seq<Event>, i: nat)
    requires i < |es|
    ensures ViolationsAt(h, es, i) == [] <==> LinkOk(h, es, i)
  {
  }

  lemma {:induction false} ViolationsSound(h: Payload -> string, es: seq<Event>, n: nat)
    requires n <= |es|
    ensures Violations(h, es, n) == [] <==> forall i :: 0 <= i < n ==> LinkOk(h, es, i)
  {
    hide ViolationsAt, LinkOk;
    if n > 0 {
      ViolationsSound(h, es, n - 1);
      ViolationsAtSound(h, es, n - 1);
    }
  }

  /** Row i carries a hash and names the wrong row before it, or carries a hash that is not its own. */
  predicate BrokenLink(es: seq<Event>, i: nat)
    requires i < |es|
  {
    es[i].recordHash.Some? && es[i].recordHash.value != "" && es[i].previousHash != PrevHash(es, i)
  }

  predicate BrokenHash(h: Payload -> string, es: seq<Event>, i: nat)
    requires i < |es|
  {
    es[i].recordHash.Some? && es[i].recordHash.value != "" && es[i].recordHash.value != h(PayloadOf(es[i]))
  }

  lemma ReportedAt(h: Payload -> string, es: seq<Event>, i: nat, id: nat)
    requires i < |es|
    ensures PreviousHash(id) in ViolationsAt(h, es, i) <==> es[i].id == id && BrokenLink(es, i)
    ensures RecordHash(id) in ViolationsAt(h, es, i) <==> es[i].id == id && BrokenHash(h, es, i)
  {
    hide PrevHash, PayloadOf;
  }

  /** Every broken link and every wrong hash is reported, under its event's id and its kind, and nothing else is. */
  lemma {:induction false} ReportedIffBroken(h: Payload -> string, es: seq<Event>, n: nat, id: nat)
    requires n <= |es|
    ensures PreviousHash(id) in Violations(h, es, n) <==> exists i :: 0 <= i < n && es[i].id == id && BrokenLink(es, i)
    ensures RecordHash(id) in Violations(h, es, n) <==> exists i :: 0 <= i < n && es[i].id == id && BrokenHash(h, es, i)
  {
    hide ViolationsAt, BrokenLink, BrokenHash;
    if n > 0 {
      ReportedIffBroken(h, es, n - 1, id);
      ReportedAt(h, es, n - 1, id);
    }
  }


  function HashedCount(es: seq<Event>): (n: nat)
    ensures n <= |es|
  {
    if |es| == 0 then 0 else HashedCount(es[..|es| - 1]) + if Hashed(es[|es| - 1]) then 1 else 0
  }

  datatype Report = Report(valid: bool, verified: nat, legacy: nat, violations: seq<Violation>)
  datatype VerifyError = MixedTimeZones

  /** Sorting compares every event with another, and zoned times do not compare with unzoned ones. */
  predicate Mixed(es: seq<Event>) {
    exists i, j :: 0 <= i < |es| && 0 <= j < |es| && es[i].createdAt.zoned && !es[j].createdAt.zoned
  }

  lemma MixedIff(es: seq<Event>)
    ensures Mixed(es) <==> exists a, b :: a in es && b in es && a.createdAt.zoned && !b.createdAt.zoned
  {
  }

  function Verdict(h: Payload -> string, events: seq<Event>): Result<Report, VerifyError> {
    if Mixed(events) then Err(MixedTimeZones)
    else
      var es := Sorted(events);
      var violations := Violations(h, es, |es|);
      Ok(Report(violations == [], HashedCount(es), |es| - HashedCount(es), violations))
  }

  method VerifyOwnershipChain(h: Payload -> string, events: seq<Event>) returns (r: Result<Report, VerifyError>)
    ensures r == Verdict(h, events)
    ensures r.Err? <==> exists a, b :: a in events && b in events && a.createdAt.zoned && !b.createdAt.zoned
    ensures r.Ok? ==> (r.value.valid <==> Linked(h, Sorted(events)))
  {
    hide Mixed, Sorted, PayloadOf, LinkOk;
    MixedIff(events);
    if Mixed(events) {
      return Err(MixedTimeZones);
    }
    var es := Sorted(events);
    var previousHash: Option<string> := None;
    var verified, legacy, violations := 0, 0, [];
    for i := 0 to |es|
      invariant previousHash == PrevHash(es, i)
      invariant violations == Violations(h, es, i)
      invariant verified == HashedCount(es[..i]) && legacy == i - verified
    {
      var event := es[i];
      assert es[..i + 1][..i] == es[..i];
      ghost var before := violations;
      if !Hashed(event) {
        legacy := legacy + 1;
        previousHash := None;
      } else {
        if event.previousHash != previousHash {
          violations := violations + [PreviousHash(event.id)];
        }
        if event.recordHash != Some(h(PayloadOf(event))) {
          violations := violations + [RecordHash(event.id)];
        }
        previousHash := event.recordHash;
        verified := verified + 1;
      }
      assert violations == before + ViolationsAt(h, es, i);
    }
    assert es[..|es|] == es;
    ViolationsSound(h, es, |es|);
    r := Ok(Report(violations == [], verified, legacy, violations));
  }

  datatype Entry = Entry(id: nat, facts: Facts, metadata: Option<map<string, string>>, createdAt: Stamp)

  predicate BelongsTo(e: Event, user: string) { e.facts.userId == user }

  /** The rows of one user, in table order. */
  function Of(rows: seq<Event>, user: string): seq<Event> {
    if |rows| == 0 then []
    else Of(rows[..|rows| - 1], user) + if BelongsTo(rows[|rows| - 1], user) then [rows[|rows| - 1]] else []
  }

  /** Exactly the user's own rows. */
  lemma {:induction false} OfIsTheUsers(rows: seq<Event>, user: string, e: Event)
    ensures e in Of(rows, user) <==> e in rows && e.facts.userId == user
  {
    if |rows| > 0 {
      assert rows == rows[..|rows| - 1] + [rows[|rows| - 1]];
      OfIsTheUsers(rows[..|rows| - 1], user, e);
    }
  }

  /** The event that follows `previous` in its user's chain. */
  function Successor(h: Payload -> string, previous: Option<Event>, entry: Entry): Event {
    var metadata := if entry.metadata.Some? then entry.metadata.value else map[];
    var prev := if previous.Some? then previous.value.recordHash else None;
    Event(entry.id, entry.facts, Some(metadata), prev,
          Some(h(Payload(entry.id, entry.facts, metadata, entry.createdAt.instant, prev))), entry.createdAt)
  }

  function Append(h: Payload -> string, rows: seq<Event>, entry: Entry): seq<Event> {
    rows + [Successor(h, Latest(Of(rows, entry.facts.userId)), entry)]
  }

  class OwnershipLedger {
    var rows: seq<Event>

    constructor ()
      ensures rows == []
    {
      rows := [];
    }

    method AppendOwnershipLedger(h: Payload -> string, id: nat, facts: Facts,
                                 metadata: Option<map<string, string>>, createdAt: Stamp)
      returns (ledger: Event)
      modifies this
      ensures rows == Append(h, old(rows), Entry(id, facts, metadata, createdAt))
      ensures ledger == rows[|rows| - 1]
    {
      var latest := Latest(Of(rows, facts.userId));
      var previous: Option<string> := None;
      if latest.Some? {
        previous := latest.value.recordHash;
      }
      var metadataValue := map[];
      if metadata.Some? {
        metadataValue := metadata.value;
      }
      var recordHash := h(Payload(id, facts, metadataValue, createdAt.instant, previous));
      ledger := Event(id, facts, Some(metadataValue), previous, Some(recordHash), createdAt);
      rows := rows + [ledger];
    }
  }

  function AppendAll(h: Payload -> string, rows: seq<Event>, entries: seq<Entry>): seq<Event> {
    if |entries| == 0 then rows
    else Append(h, AppendAll(h, rows, entries[..|entries| - 1]), entries[|entries| - 1])
  }

  function EntriesOf(entries: seq<Entry>, user: string): nat {
    if |entries| == 0 then 0
    else EntriesOf(entries[..|entries| - 1], user) + if entries[|entries| - 1].facts.userId == user then 1 else 0
  }

  /** From position n on, every row comes after all rows before it. */
  ghost predicate GrowsFrom(es: seq<Event>, n: nat) {
    forall i, j :: 0 <= i < j < |es| && n <= j ==> Before(es[i], es[j])
  }

  lemma InsertLast(es: seq<Event>, e: Event)
    requires forall x :: x in es ==> Before(x, e)
    ensures Insert(es, e) == es + [e]
  {
    if es != [] {
      assert es[|es| - 1] in es;
    }
    assert Place(es, e) == |es|;
  }

  lemma SortedAppendLater(es: seq<Event>, e: Event)
    requires forall i :: 0 <= i < |es| ==> Before(es[i], e)
    ensures Sorted(es + [e]) == Sorted(es) + [e]
  {
    hide Insert;
    assert (es + [e])[..|es|] == es;
    SortedSameEvents(es);
    InsertLast(Sorted(es), e);
  }

  lemma {:induction false} HashedCountNone(es: seq<Event>)
    requires forall i :: 0 <= i < |es| ==> es[i].recordHash.None?
    ensures HashedCount(es) == 0
  {
    if |es| > 0 {
      HashedCountNone(es[..|es| - 1]);
    }
  }

  lemma SortedLegacy(es: seq<Event>)
    requires forall i :: 0 <= i < |es| ==> es[i].recordHash.None?
    ensures forall i :: 0 <= i < |es| ==> Sorted(es)[i].recordHash.None?
  {
  }

  /** A chain in order, with `verified` hashed events, that the next append can extend. */
  ghost predicate Extensible(h: Payload -> string, es: seq<Event>, verified: nat) {
    Linked(h, es) && HashedCount(es) == verified && (es != [] ==> es[|es| - 1].recordHash != Some(""))
  }

  lemma ExtendChain(h: Payload -> string, es: seq<Event>, entry: Entry, verified: nat)
    requires (forall p :: h(p) != "") && Extensible(h, es, verified)
    ensures Extensible(h, es + [Successor(h, Last(es), entry)], verified + 1)
  {
    var e := Successor(h, Last(es), entry);
    assert (es + [e])[..|es|] == es;
    forall i | 0 <= i < |es|
      ensures LinkOk(h, es + [e], i)
    {
      assert LinkOk(h, es, i);
    }
  }

  lemma OfAppend(rows: seq<Event>, e: Event, user: string)
    ensures Of(rows + [e], user) == Of(rows, user) + if BelongsTo(e, user) then [e] else []
  {
  }

  /** The verifier accepts the events and counts `verified` of them as hashed. */
  ghost predicate Accepted(h: Payload -> string, events: seq<Event>, verified: nat) {
    Extensible(h, Sorted(events), verified)
  }

  lemma AppendAccepted(h: Payload -> string, es: seq<Event>, entry: Entry, verified: nat)
    requires (forall p :: h(p) != "") && Accepted(h, es, verified)
    requires forall i :: 0 <= i < |es| ==> Before(es[i], Successor(h, Latest(es), entry))
    ensures Accepted(h, es + [Successor(h, Latest(es), entry)], verified + 1)
  {
    hide Sorted, Extensible, Last, Latest, Successor, Before;
    LatestIsLastSorted(es);
    SortedAppendLater(es, Successor(h, Latest(es), entry));
    ExtendChain(h, Sorted(es), entry, verified);
  }

  lemma LegacyAccepted(h: Payload -> string, es: seq<Event>)
    requires forall i :: 0 <= i < |es| ==> es[i].recordHash.None?
    ensures Accepted(h, es, 0)
  {
    SortedLegacy(es);
    HashedCountNone(Sorted(es));
  }

  /**
   Appender and verifier agree: whatever other users append in between, a user's events that each
   come later than the ones before are accepted, every append is counted, and every unhashed row
   from before hashing is counted as legacy, unless zoned times beside unzoned ones stop the verifier.
   */
  lemma AppendsVerify(h: Payload -> string, rows: seq<Event>, entries: seq<Entry>, user: string)
    requires forall p :: h(p) != ""
    requires forall i :: 0 <= i < |Of(rows, user)| ==> Of(rows, user)[i].recordHash.None?
    requires GrowsFrom(Of(AppendAll(h, rows, entries), user), |Of(rows, user)|)
    ensures var events := Of(AppendAll(h, rows, entries), user);
            var appended := EntriesOf(entries, user);
            |events| == |Of(rows, user)| + appended
            && Verdict(h, events)
              == if Mixed(events) then Err(MixedTimeZones) else Ok(Report(true, appended, |Of(rows, user)|, []))
  {
    AppendsAccepted(h, rows, entries, user);
    var events := Of(AppendAll(h, rows, entries), user);
    ViolationsSound(h, Sorted(events), |events|);
  }

  lemma {:induction false} AppendsAccepted(h: Payload -> string, rows: seq<Event>, entries: seq<Entry>, user: string)
    requires forall p :: h(p) != ""
    requires forall i :: 0 <= i < |Of(rows, user)| ==> Of(rows, user)[i].recordHash.None?
    requires GrowsFrom(Of(AppendAll(h, rows, entries), user), |Of(rows, user)|)
    ensures var events := Of(AppendAll(h, rows, entries), user);
            |events| == |Of(rows, user)| + EntriesOf(entries, user)
            && Accepted(h, events, EntriesOf(entries, user))
  {
    hide Accepted, Latest, Successor, Before;
    if |entries| == 0 {
      LegacyAccepted(h, Of(rows, user));
    } else {
      var init, entry := entries[..|entries| - 1], entries[|entries| - 1];
      var before := AppendAll(h, rows, init);
      var e := Successor(h, Latest(Of(before, entry.facts.userId)), entry);
      assert e.facts == entry.facts by { SuccessorFacts(h, Latest(Of(before, entry.facts.userId)), entry); }
      OfAppend(before, e, user);
      var es := Of(before, user);
      assert forall i :: 0 <= i < |es| ==> es[i] == Of(before + [e], user)[i];
      AppendsAccepted(h, rows, init, user);
      if entry.facts.userId == user {
        assert forall i :: 0 <= i < |es| ==> Before((es + [e])[i], (es + [e])[|es|]);
        AppendAccepted(h, es, entry, EntriesOf(init, user));
      } else {
        assert Of(before + [e], user) == es;
      }
    }
  }

  /** An appended row records its entry: id, facts, time and metadata, absent metadata as empty. */
  predicate Records(e: Event, entry: Entry) {
    && e.id == entry.id && e.facts == entry.facts && e.createdAt == entry.createdAt
    && e.metadata == Some(if entry.metadata.Some? then entry.metadata.value else map[])
  }

  lemma SuccessorFacts(h: Payload -> string, previous: Option<Event>, entry: Entry)
    ensures Records(Successor(h, previous, entry), entry)
  {
  }

  /** Appends keep every row and add one per entry that records it, in order. */
  lemma {:induction false} AppendsRecord(h: Payload -> string, rows: seq<Event>, entries: seq<Entry>)
    ensures var after := AppendAll(h, rows, entries);
            && |after| == |rows| + |entries| && after[..|rows|] == rows
            && forall i :: 0 <= i < |entries| ==> Records(after[|rows| + i], entries[i])
  {
    hide Latest, Of;
    if |entries| > 0 {
      AppendsRecord(h, rows, entries[..|entries| - 1]);
    }
  }

  /** The event as the hash sees it. */
  function Normal(e: Event): Event {
    e.(metadata := Some(if e.metadata.Some? then e.metadata.value else map[]),
       createdAt := Stamp(true, e.createdAt.instant))
  }

  /**
   Tamper evidence: two fully hashed histories that the verifier accepts and that end in the same
   record hash have the same length and hold the same events.
   */
  lemma {:induction false} SameHeadSameHistory(h: Payload -> string, a: seq<Event>, b: seq<Event>)
    requires CollisionFree(h) && Linked(h, a) && Linked(h, b)
    requires a != [] && b != [] && a[|a| - 1].recordHash == b[|b| - 1].recordHash
    requires forall i :: 0 <= i < |a| ==> Hashed(a[i])
    requires forall i :: 0 <= i < |b| ==> Hashed(b[i])
    ensures |a| == |b| && forall i :: 0 <= i < |a| ==> Normal(a[i]) == Normal(b[i])
    decreases |a|
  {
    var x, y := a[|a| - 1], b[|b| - 1];
    assert LinkOk(h, a, |a| - 1) && LinkOk(h, b, |b| - 1);
    assert h(PayloadOf(x)) == h(PayloadOf(y));
    assert Normal(x) == Normal(y);
    if |a| > 1 && |b| > 1 {
      var a', b' := a[..|a| - 1], b[..|b| - 1];
      forall i | 0 <= i < |a'| ensures LinkOk(h, a', i) { assert LinkOk(h, a, i); }
      forall i | 0 <= i < |b'| ensures LinkOk(h, b', i) { assert LinkOk(h, b, i); }
      SameHeadSameHistory(h, a', b');
      assert forall i :: 0 <= i < |a'| ==> a'[i] == a[i] && b'[i] == b[i];
    }
  }

  /**
   Tampering shows: whatever else is done to an accepted list, once a hashed event is gone and the
   hashed event behind it is still there, the verifier finds a violation, in whatever order it looks.
   An event counts as gone when no event is left that the hash cannot tell from it.
   */
  lemma TamperingDetected(h: Payload -> string, es: seq<Event>, i: nat, t: seq<Event>)
    requires CollisionFree(h) && Linked(h, es) && i < |es| - 1 && Hashed(es[i]) && Hashed(es[i + 1])
    requires es[i + 1] in t && forall x :: x in t ==> Normal(x) != Normal(es[i])
    ensures !Linked(h, Sorted(t))
  {
    hide Sorted;
    SortedSameEvents(t);
    var s := Sorted(t);
    var k :| 0 <= k < |s| && s[k] == es[i + 1];
    assert LinkOk(h, es, i) && LinkOk(h, es, i + 1);
    assert k > 0 ==> s[k - 1] in t;
    assert LinkOk(h, s, k) ==> k > 0 && !LinkOk(h, s, k - 1);
  }

  /**
   Replacing an event that is not the last by anything the hash tells apart is a violation, even if
   its hash is dropped, its id changes or its time moves it elsewhere in the verifier's order.
   */
  lemma EditDetected(h: Payload -> string, es: seq<Event>, i: nat, e: Event)
    requires CollisionFree(h) && Linked(h, es) && i < |es| - 1 && Hashed(es[i]) && Hashed(es[i + 1])
    requires forall j, k :: 0 <= j < k < |es| ==> es[j].id != es[k].id
    requires Normal(e) != Normal(es[i])
    ensures !Linked(h, Sorted(es[i := e]))
  {
    assert es[i := e][i + 1] == es[i + 1];
    TamperingDetected(h, es, i, es[i := e]);
  }

  /** Removing an event that is not the last is a violation. */
  lemma RemovalDetected(h: Payload -> string, es: seq<Event>, i: nat)
    requires CollisionFree(h) && Linked(h, es) && i < |es| - 1 && Hashed(es[i]) && Hashed(es[i + 1])
    requires forall j, k :: 0 <= j < k < |es| ==> es[j].id != es[k].id
    ensures !Linked(h, Sorted(es[..i] + es[i + 1..]))
  {
    var t := es[..i] + es[i + 1..];
    assert t[i] == es[i + 1];
    TamperingDetected(h, es, i, t);
  }

  /** What the chain cannot show: dropping the newest events leaves an accepted chain. */
  lemma TruncationAccepted(h: Payload -> string, es: seq<Event>, n: nat)
    requires Linked(h, es) && n <= |es|
    ensures Linked(h, es[..n])
  {
    forall i | 0 <= i < n
      ensures LinkOk(h, es[..n], i)
    {
      assert LinkOk(h, es, i);
    }
  }

  /** Whether the place an appended event takes in the verifier's order fits the hash it carries. */
  predicate Fits(es: seq<Event>, place: nat)
    requires place <= |es|
  {
    if place == |es| then es != [] ==> es[|es| - 1].recordHash != Some("")
    else es[|es| - 1].recordHash.None? && !Hashed(es[place]) && (place > 0 ==> !Hashed(es[place - 1]))
  }

  /** A chain with one event put in at place p, all other rows as they were. */
  ghost predicate PutIn(es: seq<Event>, e: Event, p: nat, t: seq<Event>) {
    && p <= |es| && |t| == |es| + 1 && t[p] == e
    && (forall i :: 0 <= i < p ==> t[i] == es[i])
    && (forall i :: p < i < |t| ==> t[i] == es[i - 1])
  }

  lemma OutOfOrderFits(h: Payload -> string, es: seq<Event>, t: seq<Event>, e: Event, p: nat)
    requires CollisionFree(h) && Linked(h, es) && p < |es| && PutIn(es, e, p, t)
    requires Ordered(es) && forall x :: x in es ==> x.id != e.id
    requires Hashed(e) && e.recordHash == Some(h(PayloadOf(e))) && e.previousHash == es[|es| - 1].recordHash
    ensures LinkOk(h, t, p) && LinkOk(h, t, p + 1) <==> Fits(es, p)
  {
    assert LinkOk(h, es, p) && LinkOk(h, es, |es| - 1) && (p > 0 ==> LinkOk(h, es, p - 1));
    assert p > 0 ==> es[p - 1] in es;
  }

  lemma InOrderFits(h: Payload -> string, es: seq<Event>, t: seq<Event>, entry: Entry)
    requires CollisionFree(h) && PutIn(es, Successor(h, Last(es), entry), |es|, t)
    ensures LinkOk(h, t, |es|) <==> Fits(es, |es|)
  {
  }

  /** Only the links of the new row and of the row behind it can break. */
  lemma NearLinksDecide(h: Payload -> string, es: seq<Event>, t: seq<Event>, e: Event, p: nat)
    requires Linked(h, es) && PutIn(es, e, p, t)
    ensures Linked(h, t) <==> LinkOk(h, t, p) && (p < |es| ==> LinkOk(h, t, p + 1))
  {
    forall i | 0 <= i < |t| && i != p && i != p + 1
      ensures LinkOk(h, t, i)
    {
      assert LinkOk(h, es, if i < p then i else i - 1);
    }
    hide LinkOk;
    assert Linked(h, t) ==> LinkOk(h, t, p);
  }

  lemma InsertAcceptedIff(h: Payload -> string, es: seq<Event>, entry: Entry)
    requires CollisionFree(h) && Linked(h, es) && Ordered(es) && forall x :: x in es ==> x.id != entry.id
    ensures var e := Successor(h, Last(es), entry);
            Linked(h, Insert(es, e)) <==> Fits(es, Place(es, e))
  {
    var e := Successor(h, Last(es), entry);
    InsertPutsIn(es, e);
    var p, t := Place(es, e), Insert(es, e);
    SuccessorFacts(h, Last(es), entry);
    hide Place, Insert, Linked, LinkOk, Fits, PayloadOf, Successor, Ordered;
    NearLinksDecide(h, es, t, e, p);
    if p < |es| {
      SuccessorLinks(h, es[|es| - 1], entry);
      OutOfOrderFits(h, es, t, e, p);
    } else {
      InOrderFits(h, es, t, entry);
    }
  }

  /**
   Exactly when an append keeps an accepted table accepted, whatever order its rows are stored in:
   the event is the latest by creation time and id, or both it and the latest row stand among legacy rows.
   */
  lemma AppendAcceptedIff(h: Payload -> string, rows: seq<Event>, entry: Entry)
    requires CollisionFree(h) && Linked(h, Sorted(rows))
    requires forall i, j :: 0 <= i < j < |rows| ==> rows[i].id != rows[j].id
    requires forall x :: x in rows ==> x.id != entry.id
    ensures var e := Successor(h, Latest(rows), entry);
            Linked(h, Sorted(rows + [e])) <==> Fits(Sorted(rows), Place(Sorted(rows), e))
  {
    hide *;
    LatestIsLastSorted(rows);
    SortedInOrder(rows);
    assert forall x :: x in Sorted(rows) ==> x.id != entry.id by { SortedSameEvents(rows); }
    SortedAppend(rows, Successor(h, Latest(rows), entry));
    InsertAcceptedIff(h, Sorted(rows), entry);
  }

  /** A first event and a second one of the same instant with a smaller id: the second append breaks the chain. */
  lemma TieBreaksChain(h: Payload -> string, first: Entry, second: Entry)
    requires CollisionFree(h) && first.createdAt.instant == second.createdAt.instant && second.id < first.id
    ensures var rows := [Successor(h, None, first)];
            Linked(h, Sorted(rows)) && !Linked(h, Sorted(rows + [Successor(h, Latest(rows), second)]))
  {
    var e := Successor(h, None, first);
    assert Sorted([e]) == [e] && Latest([e]) == Some(e);
    AppendAcceptedIff(h, [e], second);
  }

  lemma SuccessorLinks(h: Payload -> string, previous: Event, entry: Entry)
    requires forall p :: h(p) != ""
    ensures var e := Successor(h, Some(previous), entry);
            Hashed(e) && e.recordHash == Some(h(PayloadOf(e))) && e.previousHash == previous.recordHash
  {
  }

  lemma InsertPutsIn(es: seq<Event>, e: Event)
    ensures PutIn(es, e, Place(es, e), Insert(es, e))
  {
  }

  lemma SortedAppend(rows: seq<Event>, e: Event)
    ensures Sorted(rows + [e]) == Insert(Sorted(rows), e)
  {
    hide Insert;
    assert (rows + [e])[..|rows|] == rows;
  }
}

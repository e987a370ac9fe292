/** Redeem codes, card grants and serial numbers. */
module Redemption {
  import opened Wrappers
  import opened Tables

  datatype Code = Code(cardId: string, dropId: string, expiresAt: Option<int>, usedCount: int, maxUses: int,
                       disabled: bool)
  datatype Card = Card(published: bool, dropId: Option<string>)
  datatype UserCard = UserCard(user: string, card: string, code: Option<string>, drop: Option<string>, serial: int)

  /** Grant events are unique per user and source. */
  datatype SourceKey = SourceKey(user: string, sourceType: string, source: string)

  const REDEEM_SOURCE := "redeem_code"

  datatype Shop = Shop(
    codes: map<string, Code>,
    cards: map<string, Card>,
    liveDrops: map<string, bool>,
    owned: seq<UserCard>,
    grants: seq<Row<SourceKey, nat>>)

  datatype Error =
    | CodeNotFound | CodeDisabled | LimitReached | CodeUsed | CodeExpired
    | CardNotPublished | DropNotLive | DropMismatch | IntegrityViolation

  function CopiesOf(owned: seq<UserCard>, card: string): nat {
    if |owned| == 0 then 0 else CopiesOf(owned[..|owned| - 1], card) + if owned[|owned| - 1].card == card then 1 else 0
  }

  function UsesOf(owned: seq<UserCard>, code: string): nat {
    if |owned| == 0 then 0
    else UsesOf(owned[..|owned| - 1], code) + if owned[|owned| - 1].code == Some(code) then 1 else 0
  }

  predicate Owns(owned: seq<UserCard>, user: string, code: string) {
    exists i :: 0 <= i < |owned| && owned[i].user == user && owned[i].code == Some(code)
  }

  /** Whether a new row would break a unique index: serials per card, and codes per user. */
  predicate Clashes(owned: seq<UserCard>, c: UserCard) {
    (exists i :: 0 <= i < |owned| && owned[i].card == c.card && owned[i].serial == c.serial)
    || (c.code.Some? && Owns(owned, c.user, c.code.value))
  }

  function Grant(s: Shop, key: SourceKey, card: string, code: Option<string>, drop: Option<string>)
    : (Shop, Result<nat, Error>)
  {
    match Lookup(s.grants, key)
    case Some(i) => (s, Ok(s.grants[i].val))
    case None =>
      if card !in s.cards || !s.cards[card].published then (s, Err(CardNotPublished))
      else
        var c := UserCard(key.user, card, code, drop, CopiesOf(s.owned, card) + 1);
        if Clashes(s.owned, c) then (s, Err(IntegrityViolation))
        else (s.(owned := s.owned + [c], grants := s.grants + [Row(key, |s.owned|)]), Ok(|s.owned|))
  }

  /** The card a code would give, or why it would not. */
  function PreviewRedeem(s: Shop, user: string, code: string, now: int): Result<string, Error> {
    if code !in s.codes then Err(CodeNotFound)
    else
      var c := s.codes[code];
      if c.disabled then Err(CodeDisabled)
      else if c.usedCount >= c.maxUses then Err(CodeUsed)
      else if Owns(s.owned, user, code) then Err(CodeUsed)
      else if c.expiresAt.Some? && c.expiresAt.value < now then Err(CodeExpired)
      else if c.cardId !in s.cards || !s.cards[c.cardId].published then Err(CardNotPublished)
      else if c.dropId !in s.liveDrops || !s.liveDrops[c.dropId] then Err(DropNotLive)
      else if s.cards[c.cardId].dropId != Some(c.dropId) then Err(DropMismatch)
      else Ok(c.cardId)
  }

  function Redeem(s: Shop, user: string, code: string, now: int): (Shop, Result<nat, Error>) {
    if code !in s.codes then (s, Err(CodeNotFound))
    else
      var c := s.codes[code];
      if c.disabled then (s, Err(CodeDisabled))
      else if c.usedCount >= c.maxUses then (s, Err(if c.maxUses == 0 then LimitReached else CodeUsed))
      else if Owns(s.owned, user, code) then (s, Err(CodeUsed))
      else if c.expiresAt.Some? && c.expiresAt.value < now then (s, Err(CodeExpired))
      else if c.cardId !in s.cards || !s.cards[c.cardId].published then (s, Err(CardNotPublished))
      else if c.dropId !in s.liveDrops || !s.liveDrops[c.dropId] then (s, Err(DropNotLive))
      else if s.cards[c.cardId].dropId != Some(c.dropId) then (s, Err(DropMismatch))
      else
        var s1 := s.(codes := s.codes[code := c.(usedCount := c.usedCount + 1)]);
        var (s2, r) := Grant(s1, SourceKey(user, REDEEM_SOURCE, code), c.cardId, Some(code), s.cards[c.cardId].dropId);
        if r.Ok? then (s2, r) else (s, r)
  }

  class CardShop {
    var codes: map<string, Code>
    var cards: map<string, Card>
    var liveDrops: map<string, bool>
    var owned: seq<UserCard>
    var grants: seq<Row<SourceKey, nat>>

    function Content(): Shop
      reads this
    {
      Shop(codes, cards, liveDrops, owned, grants)
    }

    constructor (cards: map<string, Card>, liveDrops: map<string, bool>)
      ensures Content() == Shop(map[], cards, liveDrops, [], [])
    {
      codes, this.cards, this.liveDrops, owned, grants := map[], cards, liveDrops, [], [];
    }

    method GrantUserCard(key: SourceKey, card: string, code: Option<string>, drop: Option<string>)
      returns (r: Result<nat, Error>)
      modifies this`owned, this`grants
      ensures (Content(), r) == Grant(old(Content()), key, card, code, drop)
    {
      var existing := Lookup(grants, key);
      if existing.Some? {
        return Ok(grants[existing.value].val);
      }
      if card !in cards || !cards[card].published {
        return Err(CardNotPublished);
      }
      var serial := CopiesOf(owned, card) + 1;
      var userCard := UserCard(key.user, card, code, drop, serial);
      if Clashes(owned, userCard) {
        return Err(IntegrityViolation);
      }
      owned := owned + [userCard];
      grants := grants + [Row(key, |owned| - 1)];
      return Ok(|owned| - 1);
    }

    method RedeemCode(user: string, code: string, now: int) returns (r: Result<nat, Error>)
      modifies this
      ensures (Content(), r) == Redeem(old(Content()), user, code, now)
    {
      if code !in codes {
        return Err(CodeNotFound);
      }
      var c := codes[code];
      if c.disabled {
        return Err(CodeDisabled);
      }
      if c.usedCount >= c.maxUses {
        return Err(if c.maxUses == 0 then LimitReached else CodeUsed);
      }
      if Owns(owned, user, code) {
        return Err(CodeUsed);
      }
      if c.expiresAt.Some? && c.expiresAt.value < now {
        return Err(CodeExpired);
      }
      if c.cardId !in cards || !cards[c.cardId].published {
        return Err(CardNotPublished);
      }
      if c.dropId !in liveDrops || !liveDrops[c.dropId] {
        return Err(DropNotLive);
      }
      if cards[c.cardId].dropId != Some(c.dropId) {
        return Err(DropMismatch);
      }
      var saved := codes;
      codes := codes[code := c.(usedCount := c.usedCount + 1)];
      r := GrantUserCard(SourceKey(user, REDEEM_SOURCE, code), c.cardId, Some(code), cards[c.cardId].dropId);
      if r.Err? {
        codes := saved;
      }
    }
  }

  // ---- what every run keeps ----

  ghost predicate CardOk(s: Shop, i: nat)
    requires i < |s.owned|
  {
    && s.owned[i].serial == CopiesOf(s.owned[..i], s.owned[i].card) + 1
    && (s.owned[i].code.Some? ==>
          s.owned[i].code.value in s.codes && !Owns(s.owned[..i], s.owned[i].user, s.owned[i].code.value))
  }

  ghost predicate GrantOk(s: Shop, g: Row<SourceKey, nat>) {
    && g.val < |s.owned| && s.owned[g.val].user == g.key.user
    && (g.key.sourceType == REDEEM_SOURCE ==>
      s.owned[g.val].user == g.key.user && s.owned[g.val].code == Some(g.key.source))
  }

  ghost predicate CodesOk(s: Shop) {
    forall c :: c in s.codes ==> UsesOf(s.owned, c) == s.codes[c].usedCount <= s.codes[c].maxUses
  }

  ghost predicate Valid(s: Shop) {
    && (forall i :: 0 <= i < |s.owned| ==> CardOk(s, i))
    && (forall i :: 0 <= i < |s.grants| ==> GrantOk(s, s.grants[i]))
    && CodesOk(s)
  }

  lemma {:induction false} CopiesGrow(owned: seq<UserCard>, card: string, i: nat, j: nat)
    requires i <= j <= |owned|
    ensures CopiesOf(owned[..i], card) <= CopiesOf(owned[..j], card)
  {
    if i < j {
      assert owned[..j][..j - 1] == owned[..j - 1];
      CopiesGrow(owned, card, i, j - 1);
    }
  }

  /** No earlier copy has the serial that the next copy gets. */
  lemma NextSerialFree(s: Shop, card: string, i: nat)
    requires Valid(s) && i < |s.owned| && s.owned[i].card == card
    ensures 1 <= s.owned[i].serial <= CopiesOf(s.owned, card)
  {
    assert CardOk(s, i);
    assert s.owned[..i + 1][..i] == s.owned[..i] && s.owned[..|s.owned|] == s.owned;
    CopiesGrow(s.owned, card, i + 1, |s.owned|);
  }

  lemma {:induction false} UnusedCode(owned: seq<UserCard>, code: string)
    requires forall i :: 0 <= i < |owned| ==> owned[i].code != Some(code)
    ensures UsesOf(owned, code) == 0
  {
    if |owned| > 0 {
      UnusedCode(owned[..|owned| - 1], code);
    }
  }

  lemma OneMoreUse(owned: seq<UserCard>, c: UserCard, code: string)
    ensures UsesOf(owned + [c], code) == UsesOf(owned, code) + if c.code == Some(code) then 1 else 0
  {
  }

  /** One more card, with its grant: rows before it stay in order, and only its code's count moves. */
  lemma AppendCard(s: Shop, c: UserCard, key: SourceKey, codes: map<string, Code>)
    requires Valid(s) && c.serial == CopiesOf(s.owned, c.card) + 1 && c.user == key.user
    requires c.code.Some? ==> c.code.value in s.codes && !Owns(s.owned, c.user, c.code.value)
    requires key.sourceType == REDEEM_SOURCE ==> c.code == Some(key.source)
    requires codes.Keys == s.codes.Keys
    requires forall x :: x in codes ==>
      codes[x].usedCount == s.codes[x].usedCount + (if c.code == Some(x) then 1 else 0) <= codes[x].maxUses
    ensures Valid(s.(codes := codes, owned := s.owned + [c], grants := s.grants + [Row(key, |s.owned|)]))
  {
    hide CopiesOf, UsesOf, Owns;
    var s' := s.(codes := codes, owned := s.owned + [c], grants := s.grants + [Row(key, |s.owned|)]);
    assert s'.owned[..|s.owned|] == s.owned;
    forall i | 0 <= i < |s'.owned|
      ensures CardOk(s', i)
    {
      if i < |s.owned| {
        assert CardOk(s, i) && s'.owned[..i] == s.owned[..i];
      }
    }
    forall i | 0 <= i < |s'.grants|
      ensures GrantOk(s', s'.grants[i])
    {
      assert i < |s.grants| ==> GrantOk(s, s.grants[i]);
    }
    forall x | x in codes
      ensures UsesOf(s'.owned, x) == codes[x].usedCount
    {
      OneMoreUse(s.owned, c, x);
    }
  }

  lemma GrantKeeps(s: Shop, key: SourceKey, card: string, drop: Option<string>)
    requires Valid(s) && key.sourceType != REDEEM_SOURCE
    ensures Valid(Grant(s, key, card, None, drop).0)
  {
    if Grant(s, key, card, None, drop).0 != s {
      AppendCard(s, UserCard(key.user, card, None, drop, CopiesOf(s.owned, card) + 1), key, s.codes);
    }
  }

  /** Past its checks, a redemption always goes through: it takes the code once and grants the next serial. */
  lemma RedeemAccepted(s: Shop, user: string, code: string, now: int)
    requires Valid(s) && PreviewRedeem(s, user, code, now).Ok?
    ensures var c := s.codes[code];
            var card := UserCard(user, c.cardId, Some(code), Some(c.dropId), CopiesOf(s.owned, c.cardId) + 1);
            Redeem(s, user, code, now)
            == (s.(codes := s.codes[code := c.(usedCount := c.usedCount + 1)], owned := s.owned + [card],
                   grants := s.grants + [Row(SourceKey(user, REDEEM_SOURCE, code), |s.owned|)]),
                Ok(|s.owned|))
  {
    var card := s.codes[code].cardId;
    forall i | 0 <= i < |s.owned| && s.owned[i].card == card
      ensures s.owned[i].serial != CopiesOf(s.owned, card) + 1
    {
      NextSerialFree(s, card, i);
    }
  }

  /** Exactly which redemptions go through. */
  lemma RedeemAcceptedIff(s: Shop, user: string, code: string, now: int)
    requires Valid(s)
    ensures Redeem(s, user, code, now).1.Ok?
       <==> && code in s.codes && var c := s.codes[code];
            && !c.disabled && c.usedCount < c.maxUses && (c.expiresAt.Some? ==> now <= c.expiresAt.value)
            && (forall i :: 0 <= i < |s.owned| ==> !(s.owned[i].user == user && s.owned[i].code == Some(code)))
            && c.cardId in s.cards && s.cards[c.cardId] == Card(true, Some(c.dropId))
            && c.dropId in s.liveDrops && s.liveDrops[c.dropId]
  {
    PreviewAgrees(s, user, code, now);
    hide Redeem, Valid;
  }

  /** What a redemption answers: the first thing that stands in its way, or the new card. */
  lemma RedeemAnswer(s: Shop, user: string, code: string, now: int)
    requires Valid(s)
    ensures var r := Redeem(s, user, code, now).1;
            if code !in s.codes then r == Err(CodeNotFound)
            else
              var c := s.codes[code];
              if c.disabled then r == Err(CodeDisabled)
              else if c.maxUses == 0 then r == Err(LimitReached)
              else if c.usedCount == c.maxUses then r == Err(CodeUsed)
              else if exists i :: 0 <= i < |s.owned| && s.owned[i].user == user && s.owned[i].code == Some(code)
              then r == Err(CodeUsed)
              else if c.expiresAt.Some? && now > c.expiresAt.value then r == Err(CodeExpired)
              else if !(c.cardId in s.cards && s.cards[c.cardId].published) then r == Err(CardNotPublished)
              else if !(c.dropId in s.liveDrops && s.liveDrops[c.dropId]) then r == Err(DropNotLive)
              else if s.cards[c.cardId].dropId != Some(c.dropId) then r == Err(DropMismatch)
              else r == Ok(|s.owned|)
  {
    PreviewAgrees(s, user, code, now);
    if code in s.codes {
      CountsNatural(s, code);
    }
    hide Valid, Lookup, CopiesOf, UsesOf, Clashes, Grant;
  }

  lemma CountsNatural(s: Shop, code: string)
    requires Valid(s) && code in s.codes
    ensures 0 <= s.codes[code].usedCount <= s.codes[code].maxUses
  {
    assert UsesOf(s.owned, code) == s.codes[code].usedCount;
    hide UsesOf;
  }

  /**
   A first grant from a source gives its user the next serial of a published card, and is refused
   otherwise; a repeated one gives nothing.
   */
  lemma GrantAcceptedIff(s: Shop, key: SourceKey, card: string, drop: Option<string>)
    requires Valid(s)
    ensures var (s', r) := Grant(s, key, card, None, drop);
            var known := Lookup(s.grants, key);
            if known.Some? then s' == s && r == Ok(s.grants[known.value].val)
            else if !(card in s.cards && s.cards[card].published) then s' == s && r == Err(CardNotPublished)
            else r == Ok(|s.owned|)
                 && s'.owned == s.owned + [UserCard(key.user, card, None, drop, CopiesOf(s.owned, card) + 1)]
                 && s'.grants == s.grants + [Row(key, |s.owned|)]
  {
    forall i | 0 <= i < |s.owned| && s.owned[i].card == card
      ensures s.owned[i].serial != CopiesOf(s.owned, card) + 1
    {
      NextSerialFree(s, card, i);
    }
    hide Valid, CopiesOf;
  }

  /**
   Preview and redemption agree: one succeeds exactly when the other does, on the same card, with
   the same refusal.
   */
  lemma PreviewAgrees(s: Shop, user: string, code: string, now: int)
    requires Valid(s)
    ensures var preview := PreviewRedeem(s, user, code, now);
            var (s', r) := Redeem(s, user, code, now);
            && (preview.Ok? <==> r.Ok?)
            && (r.Ok? ==>
                  && r.value == |s.owned| < |s'.owned|
                  && s'.owned[r.value].card == preview.value && s'.owned[r.value].user == user)
            && (r.Err? ==>
                  && s' == s
                  && (r.error == preview.error
                      || (r.error == LimitReached && preview.error == CodeUsed && s.codes[code].maxUses == 0)))
  {
    if PreviewRedeem(s, user, code, now).Ok? {
      RedeemAccepted(s, user, code, now);
    }
  }

  lemma RedeemKeeps(s: Shop, user: string, code: string, now: int)
    requires Valid(s)
    ensures Valid(Redeem(s, user, code, now).0)
  {
    PreviewAgrees(s, user, code, now);
    if PreviewRedeem(s, user, code, now).Ok? {
      RedeemAccepted(s, user, code, now);
      var c := s.codes[code];
      AppendCard(s, UserCard(user, c.cardId, Some(code), Some(c.dropId), CopiesOf(s.owned, c.cardId) + 1),
                 SourceKey(user, REDEEM_SOURCE, code), s.codes[code := c.(usedCount := c.usedCount + 1)]);
    }
  }

  /** Redemptions, grants from other sources, and what administrators change meanwhile. */
  datatype Move =
    | DoRedeem(user: string, code: string, now: int)
    | DoGrant(user: string, sourceType: string, source: string, card: string, drop: Option<string>)
    | CreateCode(code: string, cardId: string, dropId: string, expiresAt: Option<int>, maxUses: nat)
    | SetCode(code: string, expiresAt: Option<int>, disabled: bool)
    | SetCard(card: string, state: Card)
    | SetDrop(dropId: string, live: bool)

  function Step(s: Shop, m: Move): Shop {
    match m
    case DoRedeem(user, code, now) => Redeem(s, user, code, now).0
    case DoGrant(user, sourceType, source, card, drop) =>
      Grant(s, SourceKey(user, sourceType, source), card, None, drop).0
    case CreateCode(code, cardId, dropId, expiresAt, maxUses) =>
      if code in s.codes then s else s.(codes := s.codes[code := Code(cardId, dropId, expiresAt, 0, maxUses, false)])
    case SetCode(code, expiresAt, disabled) =>
      if code !in s.codes then s
      else s.(codes := s.codes[code := s.codes[code].(expiresAt := expiresAt, disabled := disabled)])
    case SetCard(card, state) => s.(cards := s.cards[card := state])
    case SetDrop(drop, live) => s.(liveDrops := s.liveDrops[drop := live])
  }

  function Run(s: Shop, ms: seq<Move>): Shop {
    if |ms| == 0 then s else Step(Run(s, ms[..|ms| - 1]), ms[|ms| - 1])
  }

  ghost predicate Allowed(m: Move) {
    m.DoGrant? ==> m.sourceType != REDEEM_SOURCE
  }

  lemma CodesKept(s: Shop, s': Shop)
    requires Valid(s) && s'.owned == s.owned && s'.grants == s.grants && s.codes.Keys <= s'.codes.Keys && CodesOk(s')
    ensures Valid(s')
  {
    forall i | 0 <= i < |s.owned|
      ensures CardOk(s', i)
    {
      assert CardOk(s, i);
      assert forall c :: c in s.codes.Keys ==> c in s'.codes.Keys;
    }
    assert forall i :: 0 <= i < |s.grants| ==> GrantOk(s, s.grants[i]);
  }

  lemma StepKeeps(s: Shop, m: Move)
    requires Valid(s) && Allowed(m)
    ensures Valid(Step(s, m))
  {
    match m
    case DoRedeem(user, code, now) => RedeemKeeps(s, user, code, now);
    case DoGrant(user, sourceType, source, card, drop) =>
      GrantKeeps(s, SourceKey(user, sourceType, source), card, drop);
    case CreateCode(code, _, _, _, _) =>
      if code !in s.codes {
        forall i | 0 <= i < |s.owned|
          ensures s.owned[i].code != Some(code)
        {
          assert CardOk(s, i);
        }
        UnusedCode(s.owned, code);
        CodesKept(s, Step(s, m));
      }
    case _ => CodesKept(s, Step(s, m));
  }

  /** A shop that has sold nothing is valid, so what a run keeps holds in every reachable state. */
  lemma EmptyValid(cards: map<string, Card>, liveDrops: map<string, bool>)
    ensures Valid(Shop(map[], cards, liveDrops, [], []))
  {
  }

  /**
   In every reachable state a code's count is the number of cards that carry it, within its limit,
   and serials run on.
   */
  lemma {:induction false} RunKeeps(s: Shop, ms: seq<Move>)
    requires Valid(s) && forall i :: 0 <= i < |ms| ==> Allowed(ms[i])
    ensures Valid(Run(s, ms))
  {
    if |ms| > 0 {
      RunKeeps(s, ms[..|ms| - 1]);
      StepKeeps(Run(s, ms[..|ms| - 1]), ms[|ms| - 1]);
    }
  }

  /** The serials of a card's n copies are exactly 1 to n, each held by one copy. */
  lemma {:induction false} SerialHeldOnce(s: Shop, card: string, n: nat, k: int) returns (i: nat)
    requires Valid(s) && n <= |s.owned| && 1 <= k <= CopiesOf(s.owned[..n], card)
    ensures i < n && s.owned[i].card == card && s.owned[i].serial == k
    ensures forall j :: 0 <= j < |s.owned| && s.owned[j].card == card && s.owned[j].serial == k ==> j == i
    decreases n
  {
    var last := n - 1;
    assert s.owned[..n][..last] == s.owned[..last];
    assert CardOk(s, last);
    if s.owned[last].card == card && s.owned[last].serial == k {
      i := last;
      forall j | 0 <= j < |s.owned| && s.owned[j].card == card && s.owned[j].serial == k
        ensures j == i
      {
        if j != i {
          SerialsDiffer(s, j, i);
        }
      }
    } else {
      i := SerialHeldOnce(s, card, last, k);
    }
  }

  lemma SerialsDiffer(s: Shop, i: nat, j: nat)
    requires Valid(s) && i < |s.owned| && j < |s.owned| && s.owned[i].card == s.owned[j].card && i != j
    ensures s.owned[i].serial != s.owned[j].serial
  {
    var a, b := if i < j then i else j, if i < j then j else i;
    assert CardOk(s, a) && CardOk(s, b);
    assert s.owned[..a + 1][..a] == s.owned[..a];
    CopiesGrow(s.owned, s.owned[a].card, a + 1, b);
  }

  /** No user holds two cards from one code. */
  lemma OneCardPerCode(s: Shop, i: nat, j: nat)
    requires Valid(s) && i < j < |s.owned| && s.owned[i].code.Some? && s.owned[i].code == s.owned[j].code
    ensures s.owned[i].user != s.owned[j].user
  {
    assert CardOk(s, j);
    assert s.owned[..j][i] == s.owned[i];
  }

  /**
   Why grants from elsewhere must not pose as redemptions: if a grant under this code's source is on
   record already, the code is counted but no card carries it.
   */
  lemma CountedIffUnclaimed(s: Shop, user: string, code: string, now: int)
    requires CodesOk(s) && Redeem(s, user, code, now).1.Ok?
    ensures var s' := Redeem(s, user, code, now).0;
            UsesOf(s'.owned, code) == s'.codes[code].usedCount
            <==> Lookup(s.grants, SourceKey(user, REDEEM_SOURCE, code)).None?
  {
  }

  const CARDS := map["c" := Card(true, Some("d"))]
  const DROPS := map["d" := true]

  /** A shop in which a grant has posed as the redemption of code x. */
  function Posed(): Shop {
    Step(Step(Shop(map[], CARDS, DROPS, [], []), CreateCode("x", "c", "d", None, 5)),
         DoGrant("u", REDEEM_SOURCE, "x", "c", None))
  }

  lemma PosedShape()
    ensures Posed() == Shop(map["x" := Code("c", "d", None, 0, 5, false)], CARDS, DROPS,
                            [UserCard("u", "c", None, None, 1)], [Row(SourceKey("u", REDEEM_SOURCE, "x"), 0)])
  {
  }

  /** A run in which redeeming code x counts a use that no card carries. */
  lemma UncountedSomewhere()
    ensures var (s', r) := Redeem(Posed(), "u", "x", 0);
            r == Ok(0) && s'.owned == Posed().owned && UsesOf(s'.owned, "x") == 0
            && "x" in s'.codes && s'.codes["x"].usedCount == 1
  {
    PosedShape();
    hide Posed;
    var key := SourceKey("u", REDEEM_SOURCE, "x");
    assert Lookup(Posed().grants, key) == Some(0);
    UnusedCode(Posed().owned, "x");
    hide Lookup, UsesOf;
  }

  /** Cards and grants are only ever added. */
  lemma {:induction false} RunAdds(s: Shop, ms: seq<Move>)
    ensures s.owned <= Run(s, ms).owned && s.grants <= Run(s, ms).grants
  {
    hide Step;
    if |ms| > 0 {
      RunAdds(s, ms[..|ms| - 1]);
      StepAdds(Run(s, ms[..|ms| - 1]), ms[|ms| - 1]);
    }
  }

  lemma StepAdds(s: Shop, m: Move)
    ensures s.owned <= Step(s, m).owned && s.grants <= Step(s, m).grants
  {
    hide Lookup, CopiesOf, Owns, Clashes;
  }

  /** A grant that went through gives the same card again after any other moves, and no other. */
  lemma GrantReplays(s: Shop, key: SourceKey, card: string, drop: Option<string>, ms: seq<Move>)
    requires Valid(s) && Grant(s, key, card, None, drop).1.Ok?
    ensures var (s1, first) := Grant(s, key, card, None, drop);
            var s2 := Run(s1, ms);
            && Grant(s2, key, card, None, drop) == (s2, first)
            && first.value < |s1.owned| <= |s2.owned| && s2.owned[first.value] == s1.owned[first.value]
            && s2.owned[first.value].user == key.user
  {
    GrantAcceptedIff(s, key, card, drop);
    var s1 := Grant(s, key, card, None, drop).0;
    RunAdds(s1, ms);
    LookupAppend(s.grants, Row(key, |s.owned|), key);
    LookupKept(s1.grants, Run(s1, ms).grants, key);
    var known := Lookup(s.grants, key);
    assert known.Some? ==> GrantOk(s, s.grants[known.value]);
    hide Run, Valid, Lookup, CopiesOf;
  }
}

/** What purchases and claims keep over whole runs. */
module PassRuns {
  import opened Wrappers
  import opened Tables
  import opened PointTables
  import PointLedger
  import PointInvariant
  import PointReplay
  import opened LedgerRows
  import opened PassTables

  /** A user's claimed tiers on one track of a season, in the order of their claims. */
  function TiersOf(claims: seq<Claim>, u: User, season: string, track: string): seq<string> {
    if |claims| == 0 then []
    else
      var c := claims[|claims| - 1];
      TiersOf(claims[..|claims| - 1], u, season, track)
      + if c.user == u && c.season == season && c.track == track then [c.tier] else []
  }

  function RewardedCount(claims: seq<Claim>, u: User, tier: string, track: string): nat {
    if |claims| == 0 then 0
    else
      var c := claims[|claims| - 1];
      RewardedCount(claims[..|claims| - 1], u, tier, track)
      + if c.user == u && c.tier == tier && c.track == track && c.rewarded then 1 else 0
  }

  /** The claim had enough experience, and a premium claim an active entitlement. */
  predicate Justified(c: Claim) {
    c.xp >= c.requiredXp && (c.track == "free" || (c.track == "premium" && c.entitled))
  }

  predicate SameClaim(a: Claim, b: Claim) {
    a.user == b.user && a.season == b.season && a.tier == b.tier && a.track == b.track
  }

  ghost predicate ListOk(s: State, u: User, season: string) {
    && ProgressOf(s, u, season).free == TiersOf(s.claims, u, season, "free")
    && ProgressOf(s, u, season).premium == TiersOf(s.claims, u, season, "premium")
  }

  ghost predicate GrantsOk(s: State, u: User, tier: string, track: string) {
    Sum(s.grants, Under(u, RuleKey.PassTier(tier, track))) == RewardedCount(s.claims, u, tier, track) <= 1
  }

  ghost predicate GrantRowOk(s: State, r: Row<LedgerKey, RewardGrant>) {
    && r.val.claimed && r.key.event < |s.db.events| && r.key.rule.PassTier?
    && s.db.events[r.key.event].key == ClaimEventKey(r.key.user, r.key.rule.tier)
  }

  ghost predicate ClaimsOk(s: State) {
    && (forall i :: 0 <= i < |s.claims| ==> Justified(s.claims[i]))
    && (forall i, j :: 0 <= i < j < |s.claims| ==> !SameClaim(s.claims[i], s.claims[j]))
    && (forall u: User, season: string :: ListOk(s, u, season))
    && Unique(s.grants)
    && (forall i :: 0 <= i < |s.grants| ==> GrantRowOk(s, s.grants[i]))
    && (forall u: User, tier: string, track: string :: GrantsOk(s, u, tier, track))
  }

  /** The order is paid by a spend row of its price. */
  ghost predicate OrderOk(db: Db, o: Row<OrderKey, Order>) {
    && o.val.ledgerId < |db.ledger| && o.val.eventId < |db.events|
    && db.ledger[o.val.ledgerId].key == LedgerKey(o.key.user, o.val.eventId, RuleKey.PassPurchase(o.key.season))
    && db.ledger[o.val.ledgerId].val.kind == Spend && db.ledger[o.val.ledgerId].val.amount == -o.val.price
    && db.events[o.val.eventId].key == PurchaseEventKey(o.key.user, o.key.season)
  }

  /** No points were spent on a pass without an order that names the row. */
  ghost predicate SpendOk(s: State, i: nat)
    requires i < |s.db.ledger|
  {
    s.db.ledger[i].key.rule.PassPurchase? ==>
      var o := Lookup(s.orders, OrderKey(s.db.ledger[i].key.user, s.db.ledger[i].key.rule.season));
      o.Some? && s.orders[o.value].val.ledgerId == i
  }

  ghost predicate OrdersOk(s: State) {
    && Unique(s.orders)
    && (forall i :: 0 <= i < |s.orders| ==> OrderOk(s.db, s.orders[i]))
    && (forall i :: 0 <= i < |s.db.ledger| ==> SpendOk(s, i))
    && (forall k :: k in s.entitlements ==>
          s.entitlements[k].order < |s.orders| && s.orders[s.entitlements[k].order].key == OrderKey(k.0, k.1))
  }

  ghost predicate Valid(s: State) {
    PointInvariant.Valid(s.db) && ClaimsOk(s) && OrdersOk(s)
  }

  ghost predicate Allowed(m: Move) {
    m.DoPoints? ==> match m.command
      case DoGrant(_, _, rule, _) => !rule.PassPurchase?
      case DoSpend(_, _, rule, _) => !rule.PassPurchase?
      case DoReverse(_, _, rule, _, _) => !rule.PassPurchase?
      case _ => true
  }

  // ---- purchases ----

  /** Events and ledger rows that were there are still there; new rows are not pass purchases unless said so. */
  ghost predicate DbGrows(a: Db, b: Db) {
    KeysKept(a.events, b.events) && a.ledger <= b.ledger
  }

  lemma ClaimsSurvive(s: State, s': State)
    requires ClaimsOk(s) && DbGrows(s.db, s'.db)
    requires s'.claims == s.claims && s'.progress == s.progress && s'.grants == s.grants
    ensures ClaimsOk(s')
  {
    hide Sum;
    forall u: User, season: string
      ensures ListOk(s', u, season)
    {
      assert ListOk(s, u, season);
    }
    forall u: User, tier: string, track: string
      ensures GrantsOk(s', u, tier, track)
    {
      assert GrantsOk(s, u, tier, track);
    }
    forall i | 0 <= i < |s'.grants|
      ensures GrantRowOk(s', s'.grants[i])
    {
      assert GrantRowOk(s, s.grants[i]);
    }
  }

  lemma OrdersSurvive(s: State, s': State)
    requires OrdersOk(s) && DbGrows(s.db, s'.db) && s'.orders == s.orders && s'.entitlements == s.entitlements
    requires forall i :: |s.db.ledger| <= i < |s'.db.ledger| ==> !s'.db.ledger[i].key.rule.PassPurchase?
    ensures OrdersOk(s')
  {
    hide Lookup;
    forall i | 0 <= i < |s.orders|
      ensures OrderOk(s'.db, s'.orders[i])
    {
      assert OrderOk(s.db, s.orders[i]);
    }
    forall i | 0 <= i < |s'.db.ledger|
      ensures SpendOk(s', i)
    {
      if i < |s.db.ledger| {
        assert SpendOk(s, i) && s'.db.ledger[i] == s.db.ledger[i];
      }
    }
  }

  lemma PointsPostNoPurchase(db: Db, c: PointLedger.Command)
    requires Allowed(DoPoints(c))
    ensures var db' := PointLedger.Step(db, c).0;
            forall i :: |db.ledger| <= i < |db'.ledger| ==> !db'.ledger[i].key.rule.PassPurchase?
  {
    hide Lookup, Sum;
  }

  /** Without an order for the season no pass row exists, so the price is really charged. */
  lemma PurchaseRowFresh(s: State, u: User, season: string, event: nat)
    requires OrdersOk(s) && Lookup(s.orders, OrderKey(u, season)).None?
    ensures Lookup(s.db.ledger, LedgerKey(u, event, RuleKey.PassPurchase(season))).None?
  {
    forall i | 0 <= i < |s.db.ledger|
      ensures s.db.ledger[i].key != LedgerKey(u, event, RuleKey.PassPurchase(season))
    {
      assert SpendOk(s, i);
    }
  }

  lemma FirstPurchase(s: State, u: User, season: Season, now: int)
    requires Valid(s) && season.published && season.premiumEnabled && ActiveForView(season, now)
    requires !HasPremium(s, u, season.id) && season.price.Some? && season.price.value > 0
    requires Lookup(s.orders, OrderKey(u, season.id)).None?
    ensures var (s', r) := PurchaseSeason(s, u, Some(season), now);
            var price := season.price.value;
            if Balance(s.db, u) >= price
            then r == Ok(Purchase(price, false)) && Balance(s'.db, u) == Balance(s.db, u) - price
              && HasPremium(s', u, season.id)
                 && Valid(s')
            else s' == s && r == Err(PointsRefused(InsufficientPoints))
  {
    hide Sum, Lookup;
    var price := season.price.value;
    var (db1, event) := PointLedger.RecordEvent(s.db, PurchaseEventKey(u, season.id), map["seasonId" := season.id]);
    PointInvariant.RecordKeeps(s.db, PurchaseEventKey(u, season.id), map["seasonId" := season.id]);
    PurchaseRowFresh(s, u, season.id, event);
    PointInvariant.SpendKeeps(db1, u, event, RuleKey.PassPurchase(season.id), price);
    var (s', r) := PurchaseSeason(s, u, Some(season), now);
    if Balance(s.db, u) >= price {
      NewOrder(s, s', u, season.id, price, event);
    }
  }

  /**
   A purchase pays exactly if no ledger row stands under its event and rule yet. Only a service that
   posts under the pass's own rule key can put one there.
   */
  lemma PurchasePaysIff(s: State, u: User, season: Season, now: int)
    requires PointInvariant.Valid(s.db) && PurchaseSeason(s, u, Some(season), now).1.Ok?
    requires !PurchaseSeason(s, u, Some(season), now).1.value.replayed
    ensures var event := PointLedger.RecordEvent(s.db, PurchaseEventKey(u, season.id), map["seasonId" := season.id]).1;
            var (s', r) := PurchaseSeason(s, u, Some(season), now);
            Balance(s'.db, u) == Balance(s.db, u) - r.value.price
            <==> Lookup(s.db.ledger, LedgerKey(u, event, RuleKey.PassPurchase(season.id))).None?
  {
    hide Lookup, Sum, PointInvariant.Valid;
  }

  function SoldPass(): Season {
    Season.Season("s", true, true, Some(100), None, None, None)
  }

  function EmptyState(db: Db): State {
    State(db, [], map[], [], map[], [], {}, [])
  }

  /** A run in which a service posts under the pass's own event and rule, and the pass is had for nothing. */
  lemma PurchaseUnpaidSomewhere(u: User)
    ensures var recorded := Step(EmptyState(EMPTY_DB), DoPoints(PointLedger.DoRecord(PurchaseEventKey(u, "s"), map[])));
            var s := Step(recorded, DoPoints(PointLedger.DoGrant(u, 0, RuleKey.PassPurchase("s"), 1)));
            var (s', r) := PurchaseSeason(s, u, Some(SoldPass()), 0);
            Balance(s.db, u) == 1 && r == Ok(Purchase(100, false)) && Balance(s'.db, u) == 1 && HasPremium(s', u, "s")
  {
  }

  /** A user with a gift of 500 points. */
  function Funded(u: User): State {
    var record := PointLedger.DoRecord(EventKey(u, "gift", "g", Text("g")), map[]);
    Step(Step(EmptyState(EMPTY_DB), DoPoints(record)), DoPoints(PointLedger.DoGrant(u, 0, RuleKey.Other("gift"), 500)))
  }

  lemma FundedShape(u: User)
    ensures Valid(Funded(u)) && Balance(Funded(u).db, u) == 500
    ensures Lookup(Funded(u).orders, OrderKey(u, "s")).None? && !HasPremium(Funded(u), u, "s")
  {
    var record := PointLedger.DoRecord(EventKey(u, "gift", "g", Text("g")), map[]);
    var grant := PointLedger.DoGrant(u, 0, RuleKey.Other("gift"), 500);
    PointInvariant.EmptyValid();
    EmptyValid(EMPTY_DB, []);
    PointsKeep(EmptyState(EMPTY_DB), record);
    PointsKeep(Step(EmptyState(EMPTY_DB), DoPoints(record)), grant);
    hide Valid;
  }

  /** A run in which a lapsed pass is refused to a user who could pay for it again. */
  lemma RepurchaseRefusedSomewhere(u: User)
    ensures var lapsed := Step(Step(Funded(u), DoPurchase(u, Some(SoldPass()), 0)), Lapse(u, "s"));
            && Balance(lapsed.db, u) == 400 && !HasPremium(lapsed, u, "s")
            && PurchaseSeason(lapsed, u, Some(SoldPass()), 1) == (lapsed, Err(Conflict))
  {
    FundedShape(u);
    var s := Funded(u);
    FirstPurchase(s, u, SoldPass(), 0);
    OrderRemains(s, u, SoldPass(), 0);
    hide Valid, Lookup, PurchaseSeason, Funded, Balance;
    var bought := PurchaseSeason(s, u, Some(SoldPass()), 0).0;
    assert bought == Step(s, DoPurchase(u, Some(SoldPass()), 0));
    LapseKeeps(bought, u, "s");
    LapseOnly(bought, u, "s");
    hide Step, HasPremium;
    RepurchaseRefused(Step(bought, Lapse(u, "s")), u, SoldPass(), 1);
  }

  lemma LapseOnly(s: State, u: User, season: string)
    requires HasPremium(s, u, season)
    ensures var s' := Step(s, Lapse(u, season));
            s'.db == s.db && s'.orders == s.orders && !HasPremium(s', u, season)
  {
  }

  lemma OrderRemains(s: State, u: User, season: Season, now: int)
    requires var r := PurchaseSeason(s, u, Some(season), now).1; r.Ok? && !r.value.replayed
    ensures Lookup(PurchaseSeason(s, u, Some(season), now).0.orders, OrderKey(u, season.id)).Some?
  {
    hide Lookup;
    var s' := PurchaseSeason(s, u, Some(season), now).0;
    assert s'.orders[|s.orders|].key == OrderKey(u, season.id);
  }

  lemma NewOrder(s: State, s': State, u: User, season: string, price: int, event: nat)
    requires OrdersOk(s) && ClaimsOk(s) && Lookup(s.orders, OrderKey(u, season)).None?
    requires KeysKept(s.db.events, s'.db.events) && event < |s'.db.events|
      && s'.db.events[event].key == PurchaseEventKey(u, season)
    requires |s'.db.ledger| == |s.db.ledger| + 1 && s'.db.ledger[..|s.db.ledger|] == s.db.ledger
    requires var row := s'.db.ledger[|s.db.ledger|];
             row.key == LedgerKey(u, event, RuleKey.PassPurchase(season)) && row.val.kind == Spend
               && row.val.amount == -price
    requires s'.orders == s.orders + [Row(OrderKey(u, season), Order(price, |s.db.ledger|, event))]
    requires s'.entitlements == s.entitlements[(u, season) := Entitlement(price, true, |s.orders|)]
    requires s'.claims == s.claims && s'.progress == s.progress && s'.grants == s.grants
    ensures OrdersOk(s') && ClaimsOk(s')
  {
    hide Lookup, Sum, ClaimsOk, PurchaseEventKey;
    ClaimsSurvive(s, s');
    forall i | 0 <= i < |s'.orders|
      ensures OrderOk(s'.db, s'.orders[i])
    {
      assert i < |s.orders| ==> OrderOk(s.db, s.orders[i]);
    }
    assert s'.orders[|s.orders|].key == OrderKey(u, season);
    forall i | 0 <= i < |s'.db.ledger|
      ensures SpendOk(s', i)
    {
      if i < |s.db.ledger| {
        var row := s.db.ledger[i];
        assert SpendOk(s, i) && s'.db.ledger[i] == row;
        if row.key.rule.PassPurchase? {
          LookupKept(s.orders, s'.orders, OrderKey(row.key.user, row.key.rule.season));
        }
      }
    }
  }

  /** A lapsed pass cannot be bought again: its first order stands in the way, and nothing is charged. */
  lemma RepurchaseRefused(s: State, u: User, season: Season, now: int)
    requires Valid(s) && !HasPremium(s, u, season.id) && Lookup(s.orders, OrderKey(u, season.id)).Some?
    ensures var (s', r) := PurchaseSeason(s, u, Some(season), now); s' == s && r.Err?
    ensures season.published && season.premiumEnabled && ActiveForView(season, now)
            && season.price.Some? && season.price.value > 0 ==>
      PurchaseSeason(s, u, Some(season), now).1 == Err(Conflict)
  {
    hide Sum, Lookup;
    var o := s.orders[Lookup(s.orders, OrderKey(u, season.id)).value];
    assert OrderOk(s.db, o);
    var event := PointLedger.RecordEvent(s.db, PurchaseEventKey(u, season.id), map["seasonId" := season.id]).1;
    assert Lookup(s.db.events, PurchaseEventKey(u, season.id)).Some?;
    assert event == o.val.eventId;
  }

  lemma PurchaseKeeps(s: State, u: User, season: Option<Season>, now: int)
    requires Valid(s)
    ensures Valid(PurchaseSeason(s, u, season, now).0)
  {
    if PurchaseSeason(s, u, season, now).0 != s {
      if Lookup(s.orders, OrderKey(u, season.value.id)).None? {
        FirstPurchase(s, u, season.value, now);
      } else {
        RepurchaseRefused(s, u, season.value, now);
      }
    }
  }

  // ---- claims ----

  lemma {:induction false} TierListed(claims: seq<Claim>, u: User, season: string, track: string, c: nat)
    requires c < |claims| && claims[c].user == u && claims[c].season == season && claims[c].track == track
    ensures claims[c].tier in TiersOf(claims, u, season, track)
  {
    if c < |claims| - 1 {
      TierListed(claims[..|claims| - 1], u, season, track, c);
    }
  }

  /** A reward that goes through is a first one: one more grant row, already claimed. */
  lemma GrantIsFirst(s: State, catalog: map<string, Reward>, u: User, event: nat, tier: string, track: string,
                     reward: string)
    requires ClaimsOk(s) && Unique(s.db.events) && event < |s.db.events|
      && s.db.events[event].key == ClaimEventKey(u, tier)
    requires var key := LedgerKey(u, event, RuleKey.PassTier(tier, track)); GrantClaim(s, catalog, key, reward).Ok?
    requires reward in catalog
    ensures var key := LedgerKey(u, event, RuleKey.PassTier(tier, track));
            var s' := GrantClaim(s, catalog, key, reward).value;
            && s'.grants == s.grants + [Row(key, RewardGrant(reward, true))]
            && s' == s.(grants := s'.grants, packs := s'.packs)
            && s'.packs == (if catalog[reward].packPublished.Some? then s.packs + {|s.grants|} else s.packs)
            && Lookup(s.grants, key).None? && Sum(s.grants, Under(u, key.rule)) == 0
  {
    hide Sum, Lookup;
    var key := LedgerKey(u, event, RuleKey.PassTier(tier, track));
    forall i | 0 <= i < |s.grants|
      ensures s.grants[i].val.claimed
      ensures s.grants[i].key.user == u && s.grants[i].key.rule == key.rule ==> s.grants[i].key == key
    {
      assert GrantRowOk(s, s.grants[i]);
    }
    NoneUnder(s.grants, u, key.rule);
  }

  function AfterClaim(p: PassProgress, currentXp: int, c: Claim): PassProgress {
    if c.track == "premium" then PassProgress(currentXp, p.free, p.premium + [c.tier])
    else PassProgress(currentXp, p.free + [c.tier], p.premium)
  }

  lemma ListsExtended(s: State, s': State, c: Claim, currentXp: int)
    requires (forall u: User, season: string :: ListOk(s, u, season)) && (c.track == "free" || c.track == "premium")
    requires s'.claims == s.claims + [c]
    requires s'.progress == s.progress[(c.user, c.season) := AfterClaim(ProgressOf(s, c.user, c.season), currentXp, c)]
    ensures forall u: User, season: string :: ListOk(s', u, season)
  {
    assert s'.claims[..|s.claims|] == s.claims;
    assert "free"[0] != "premium"[0];
    forall u: User, season: string
      ensures ListOk(s', u, season)
    {
      assert ListOk(s, u, season);
    }
  }

  lemma ClaimsDistinct(claims: seq<Claim>, c: Claim)
    requires forall i, j :: 0 <= i < j < |claims| ==> !SameClaim(claims[i], claims[j])
    requires c.tier !in TiersOf(claims, c.user, c.season, c.track)
    ensures forall i, j :: 0 <= i < j < |claims + [c]| ==> !SameClaim((claims + [c])[i], (claims + [c])[j])
  {
    forall i | 0 <= i < |claims|
      ensures !SameClaim(claims[i], c)
    {
      if SameClaim(claims[i], c) {
        TierListed(claims, c.user, c.season, c.track, i);
      }
    }
  }

  lemma GrantRecorded(s: State, s': State, c: Claim, key: LedgerKey, grant: RewardGrant)
    requires ClaimsOk(s) && DbGrows(s.db, s'.db) && s'.claims == s.claims + [c]
    requires s'.grants == Plus(s.grants, c.rewarded, Row(key, grant))
    requires c.rewarded ==>
      key.user == c.user && key.rule == RuleKey.PassTier(c.tier, c.track) && GrantRowOk(s', Row(key, grant))
      && Lookup(s.grants, key).None? && Sum(s.grants, Under(c.user, key.rule)) == 0
    ensures Unique(s'.grants)
    ensures forall i :: 0 <= i < |s'.grants| ==> GrantRowOk(s', s'.grants[i])
    ensures forall u: User, tier: string, track: string :: GrantsOk(s', u, tier, track)
  {
    hide Sum, Lookup;
    assert s'.claims[..|s.claims|] == s.claims;
    forall u: User, tier: string, track: string
      ensures GrantsOk(s', u, tier, track)
    {
      assert GrantsOk(s, u, tier, track);
      SumPlus(s.grants, c.rewarded, Row(key, grant), Under(u, RuleKey.PassTier(tier, track)));
    }
    forall i | 0 <= i < |s'.grants|
      ensures GrantRowOk(s', s'.grants[i])
    {
      assert i < |s.grants| ==> GrantRowOk(s, s.grants[i]);
    }
  }

  /** What a successful claim does to the tables, with the event it is recorded under. */
  lemma ClaimShape(s: State, u: User, t: Tier, track: string, now: int, catalog: map<string, Reward>)
    returns (s1: State, key: LedgerKey, grant: RewardGrant)
    requires Valid(s) && RewardsListed(t, catalog) && ClaimTier(s, u, Some(t), track, now, catalog).1.Ok?
    ensures var (s', r) := ClaimTier(s, u, Some(t), track, now, catalog);
            var c := r.value;
            && s1 == s.(db := s1.db) && Valid(s1) && s'.db == s1.db && s'.orders == s.orders
              && s'.entitlements == s.entitlements
            && Justified(c) && c.user == u && c.season == t.season.id
              && c.tier !in TiersOf(s.claims, u, c.season, track) && c.track == track
            && s'.claims == s.claims + [c]
            && s'.progress == s.progress[(u, c.season) := AfterClaim(ProgressOf(s, u, c.season), c.xp, c)]
            && s'.grants == Plus(s.grants, c.rewarded, Row(key, grant))
            && (c.rewarded ==>
                  key.user == u && key.rule == RuleKey.PassTier(c.tier, track) && GrantRowOk(s', Row(key, grant))
                  && Lookup(s.grants, key).None? && Sum(s.grants, Under(u, key.rule)) == 0)
            && var reward := if track == "premium" then t.premiumReward else t.reward;
            && c.rewarded == reward.Some?
            && (if c.rewarded
                then grant.reward == reward.value && reward.value in catalog
                     && s'.packs
                       == (if catalog[reward.value].packPublished.Some? then s.packs + {|s.grants|} else s.packs)
                else s'.packs == s.packs)
  {
    hide Sum, Lookup, GrantClaim, ScopedXp, ClaimsOk, OrdersOk;
    var payload := map["seasonId" := t.season.id, "track" := track];
    var (db, event) := PointLedger.RecordEvent(s.db, ClaimEventKey(u, t.id), payload);
    PointInvariant.RecordKeeps(s.db, ClaimEventKey(u, t.id), payload);
    s1 := s.(db := db);
    assert DbGrows(s.db, db);
    ClaimsSurvive(s, s1);
    OrdersSurvive(s, s1);
    key := LedgerKey(u, event, RuleKey.PassTier(t.id, track));
    var reward := if track == "premium" then t.premiumReward else t.reward;
    grant := RewardGrant(if reward.Some? then reward.value else "", true);
    if reward.Some? {
      GrantIsFirst(s1, catalog, u, event, t.id, track, reward.value);
    }
    ClaimedIsTiersOf(s, u, t.season.id, track);
  }

  lemma ClaimedIsTiersOf(s: State, u: User, season: string, track: string)
    requires ClaimsOk(s) && (track == "free" || track == "premium")
    ensures Claimed(ProgressOf(s, u, season), track) == TiersOf(s.claims, u, season, track)
  {
    assert "free"[0] != "premium"[0];
    assert ListOk(s, u, season);
  }

  lemma ClaimKeeps(s: State, u: User, tier: Option<Tier>, track: string, now: int, catalog: map<string, Reward>)
    requires Valid(s) && (tier.Some? ==> RewardsListed(tier.value, catalog))
    ensures Valid(ClaimTier(s, u, tier, track, now, catalog).0)
  {
    hide Sum, Lookup, ClaimTier, AfterClaim, Plus, Valid, RewardsListed;
    var (s', r) := ClaimTier(s, u, tier, track, now, catalog);
    if r.Ok? {
      ClaimNeedsTier(s, u, tier, track, now, catalog);
      var s1, key, grant := ClaimShape(s, u, tier.value, track, now, catalog);
      ClaimedKeeps(s1, s', r.value, key, grant);
    } else {
      RefusedClaim(s, u, tier, track, now, catalog);
    }
  }

  lemma ClaimNeedsTier(s: State, u: User, tier: Option<Tier>, track: string, now: int, catalog: map<string, Reward>)
    requires ClaimTier(s, u, tier, track, now, catalog).1.Ok?
    ensures tier.Some?
  {
  }

  /** A refused claim leaves every table as it was. */
  lemma RefusedClaim(s: State, u: User, tier: Option<Tier>, track: string, now: int, catalog: map<string, Reward>)
    requires ClaimTier(s, u, tier, track, now, catalog).1.Err?
    ensures ClaimTier(s, u, tier, track, now, catalog).0 == s
  {
    hide Lookup, GrantClaim, ScopedXp, PointLedger.RecordEvent;
  }

  lemma ClaimedKeeps(s: State, s': State, c: Claim, key: LedgerKey, grant: RewardGrant)
    requires Valid(s) && s'.db == s.db && s'.orders == s.orders && s'.entitlements == s.entitlements
    requires Justified(c) && c.tier !in TiersOf(s.claims, c.user, c.season, c.track)
    requires s'.claims == s.claims + [c]
    requires s'.progress == s.progress[(c.user, c.season) := AfterClaim(ProgressOf(s, c.user, c.season), c.xp, c)]
    requires s'.grants == Plus(s.grants, c.rewarded, Row(key, grant))
    requires c.rewarded ==>
      key.user == c.user && key.rule == RuleKey.PassTier(c.tier, c.track) && GrantRowOk(s', Row(key, grant))
      && Lookup(s.grants, key).None? && Sum(s.grants, Under(c.user, key.rule)) == 0
    ensures Valid(s')
  {
    hide Sum, Lookup, AfterClaim, Plus;
    ListsExtended(s, s', c, c.xp);
    ClaimsDistinct(s.claims, c);
    GrantRecorded(s, s', c, key, grant);
    OrdersSurvive(s, s');
  }

  /** A reward can be delivered: it is on offer with its pack, and was never delivered for the tier and track. */
  predicate Deliverable(s: State, catalog: map<string, Reward>, u: User, tier: string, track: string, reward: string) {
    reward in catalog && catalog[reward].published && catalog[reward].packPublished != Some(false)
    && RewardedCount(s.claims, u, tier, track) == 0
  }

  lemma GrantAcceptedIff(s: State, catalog: map<string, Reward>, u: User, event: nat, tier: string, track: string,
                         reward: string)
    requires ClaimsOk(s) && Unique(s.db.events) && event < |s.db.events|
      && s.db.events[event].key == ClaimEventKey(u, tier)
    requires reward in catalog
    ensures GrantClaim(s, catalog, LedgerKey(u, event, RuleKey.PassTier(tier, track)), reward).Ok?
            <==> Deliverable(s, catalog, u, tier, track, reward)
  {
    hide Sum, RewardedCount;
    var key := LedgerKey(u, event, RuleKey.PassTier(tier, track));
    assert GrantsOk(s, u, tier, track);
    NoneUnder(s.grants, u, key.rule);
    var found := Lookup(s.grants, key);
    if found.Some? {
      assert GrantRowOk(s, s.grants[found.value]);
    } else {
      forall i | 0 <= i < |s.grants|
        ensures !(s.grants[i].key.user == u && s.grants[i].key.rule == key.rule)
      {
        assert GrantRowOk(s, s.grants[i]);
      }
      NoneUnder(s.grants, u, key.rule);
    }
  }

  /** Exactly when a tier can be claimed, told by the claims made so far: once per user and track. */
  lemma ClaimAcceptedIff(s: State, u: User, t: Tier, track: string, now: int, catalog: map<string, Reward>)
    requires Valid(s) && RewardsListed(t, catalog)
    ensures var reward := if track == "premium" then t.premiumReward else t.reward;
            ClaimTier(s, u, Some(t), track, now, catalog).1.Ok? <==>
              && t.season.published && OpenForClaim(t.season, now)
              && (track == "free" || (track == "premium" && t.season.premiumEnabled
                                      && (u, t.season.id) in s.entitlements && s.entitlements[(u, t.season.id)].active))
              && t.requiredXp <= ScopedXp(s.xp, u, t.season)
              && t.id !in TiersOf(s.claims, u, t.season.id, track)
              && (reward.Some? ==> Deliverable(s, catalog, u, t.id, track, reward.value))
  {
    hide Sum, Lookup, GrantClaim, ScopedXp, ClaimsOk, OrdersOk, OpenForClaim, TiersOf, RewardedCount;
    assert "free"[0] != "premium"[0];
    var payload := map["seasonId" := t.season.id, "track" := track];
    var (db, event) := PointLedger.RecordEvent(s.db, ClaimEventKey(u, t.id), payload);
    PointInvariant.RecordKeeps(s.db, ClaimEventKey(u, t.id), payload);
    var s1 := s.(db := db);
    assert DbGrows(s.db, db);
    ClaimsSurvive(s, s1);
    var reward := if track == "premium" then t.premiumReward else t.reward;
    if reward.Some? {
      GrantAcceptedIff(s1, catalog, u, event, t.id, track, reward.value);
    }
    if track == "free" || track == "premium" {
      ClaimedIsTiersOf(s, u, t.season.id, track);
    }
  }

  /** A tier's rewards are catalog rows. */
  predicate RewardsListed(t: Tier, catalog: map<string, Reward>) {
    (t.reward.Some? ==> t.reward.value in catalog) && (t.premiumReward.Some? ==> t.premiumReward.value in catalog)
  }

  lemma PointsKeep(s: State, c: PointLedger.Command)
    requires Valid(s) && Allowed(DoPoints(c))
    ensures Valid(s.(db := PointLedger.Step(s.db, c).0))
  {
    hide ClaimsOk, OrdersOk, PointLedger.Step, PointInvariant.Valid;
    PointInvariant.StepKeeps(s.db, c);
    PointReplay.StepExtends(s.db, c);
    PointsPostNoPurchase(s.db, c);
    var s' := s.(db := PointLedger.Step(s.db, c).0);
    ClaimsSurvive(s, s');
    OrdersSurvive(s, s');
  }

  lemma XpKeeps(s: State, entry: XpEntry)
    requires Valid(s)
    ensures Valid(s.(xp := s.xp + [entry]))
  {
    hide ClaimsOk, OrdersOk;
    ClaimsSurvive(s, s.(xp := s.xp + [entry]));
    OrdersSurvive(s, s.(xp := s.xp + [entry]));
  }

  lemma LapseKeeps(s: State, u: User, season: string)
    requires Valid(s)
    ensures Valid(Step(s, Lapse(u, season)))
  {
    hide Lookup, ClaimsOk, PointInvariant.Valid, OrderOk;
    var s' := Step(s, Lapse(u, season));
    ClaimsSurvive(s, s');
    forall i | 0 <= i < |s.db.ledger|
      ensures SpendOk(s', i)
    {
      assert SpendOk(s, i);
    }
  }

  lemma StepKeeps(s: State, m: Move)
    requires Valid(s) && Allowed(m) && (m.DoClaim? && m.tier.Some? ==> RewardsListed(m.tier.value, m.catalog))
    ensures Valid(Step(s, m))
  {
    hide Valid, PurchaseSeason, ClaimTier, PointLedger.Step;
    match m
    case DoPurchase(u, season, now) => PurchaseKeeps(s, u, season, now);
    case DoClaim(u, tier, track, now, catalog) => ClaimKeeps(s, u, tier, track, now, catalog);
    case EarnXp(entry) => XpKeeps(s, entry);
    case DoPoints(c) => PointsKeep(s, c);
    case Lapse(u, season) => LapseKeeps(s, u, season);
  }

  /** Tables without passes are valid, so what a run keeps holds in every reachable state. */
  lemma EmptyValid(db: Db, xp: seq<XpEntry>)
    requires PointInvariant.Valid(db) && forall i :: 0 <= i < |db.ledger| ==> !db.ledger[i].key.rule.PassPurchase?
    ensures Valid(State(db, xp, map[], [], map[], [], {}, []))
  {
  }

  /**
   Over any run: no tier is claimed twice, every claim was justified, every grant and every order
   is single and paid.
   */
  lemma {:induction false} RunKeeps(s: State, ms: seq<Move>)
    requires Valid(s)
    requires forall i :: 0 <= i < |ms| ==>
      Allowed(ms[i]) && (ms[i].DoClaim? && ms[i].tier.Some? ==> RewardsListed(ms[i].tier.value, ms[i].catalog))
    ensures Valid(Run(s, ms))
  {
    hide Step, Valid;
    if |ms| > 0 {
      RunKeeps(s, ms[..|ms| - 1]);
      StepKeeps(Run(s, ms[..|ms| - 1]), ms[|ms| - 1]);
    }
  }

  lemma {:induction false} ListedTierClaimed(claims: seq<Claim>, u: User, season: string, track: string, tier: string)
    returns (c: nat)
    requires tier in TiersOf(claims, u, season, track)
    ensures c < |claims| && claims[c].user == u && claims[c].season == season && claims[c].track == track
      && claims[c].tier == tier
  {
    c := |claims| - 1;
    if !(claims[c].user == u && claims[c].season == season && claims[c].track == track && claims[c].tier == tier) {
      c := ListedTierClaimed(claims[..c], u, season, track, tier);
    }
  }

  ghost predicate NoDuplicates(l: seq<string>) {
    forall i, j :: 0 <= i < j < |l| ==> l[i] != l[j]
  }

  /** A claimed list has no duplicates. */
  lemma {:induction false} ListDistinct(claims: seq<Claim>, u: User, season: string, track: string)
    requires forall i, j :: 0 <= i < j < |claims| ==> !SameClaim(claims[i], claims[j])
    ensures NoDuplicates(TiersOf(claims, u, season, track))
  {
    if |claims| > 0 {
      var init, c := claims[..|claims| - 1], claims[|claims| - 1];
      ListDistinct(init, u, season, track);
      var before := TiersOf(init, u, season, track);
      if c.user == u && c.season == season && c.track == track {
        if c.tier in before {
          var k := ListedTierClaimed(init, u, season, track, c.tier);
          assert SameClaim(claims[k], c);
        }
        assert NoDuplicates(before + [c.tier]);
      } else {
        assert before + [] == before;
      }
    }
  }

  /** Orders and pass payments match one to one. */
  lemma OnePaymentPerOrder(s: State, o: nat, i: nat)
    requires Valid(s) && o < |s.orders| && i < |s.db.ledger|
    ensures s.orders[o].val.ledgerId == i <==>
      s.db.ledger[i].key.user == s.orders[o].key.user
        && s.db.ledger[i].key.rule == RuleKey.PassPurchase(s.orders[o].key.season)
    ensures s.orders[o].val.ledgerId < |s.db.ledger|
      && s.db.ledger[s.orders[o].val.ledgerId].val.amount == -s.orders[o].val.price
  {
    hide Sum, Lookup;
    assert OrderOk(s.db, s.orders[o]) && SpendOk(s, i);
  }
}

/** Whose experience, whose purchase and which time open a pass, told without the sums that the services keep. */
module PassAccess {
  import opened Wrappers
  import opened Tables
  import opened PointTables
  import PointLedger
  import opened PassTables
  import opened PassRuns

  // ---- experience ----

  /** The entry is the user's own, earned for the season's artist, if it has one, and within its time. */
  predicate InScope(x: XpEntry, u: User, season: Season) {
    && x.user == u && (season.artist.Some? ==> x.artist == season.artist)
    && (season.startsAt.Some? ==> season.startsAt.value <= x.createdAt)
    && (season.endsAt.Some? ==> x.createdAt <= season.endsAt.value)
  }

  lemma EarnedXp(xp: seq<XpEntry>, entry: XpEntry, u: User, season: Season)
    ensures ScopedXp(xp + [entry], u, season)
      == ScopedXp(xp, u, season) + if InScope(entry, u, season) then entry.amount else 0
  {
    assert (xp + [entry])[..|xp|] == xp;
  }

  /** Experience of other users, for other artists or outside the season changes nothing about a claim. */
  lemma ForeignXpIgnored(s: State, u: User, t: Tier, track: string, now: int, catalog: map<string, Reward>,
                         entry: XpEntry)
    requires !InScope(entry, u, t.season)
    ensures ClaimTier(Step(s, EarnXp(entry)), u, Some(t), track, now, catalog).1
      == ClaimTier(s, u, Some(t), track, now, catalog).1
  {
    EarnedXp(s.xp, entry, u, t.season);
    hide ScopedXp, Lookup, PointLedger.RecordEvent, OpenForClaim;
  }

  /** A user's own experience lowers the bar by exactly its amount, and a claim records exactly that much more. */
  lemma OwnXpCounts(s: State, u: User, t: Tier, track: string, now: int, catalog: map<string, Reward>, entry: XpEntry)
    requires InScope(entry, u, t.season)
    ensures var earned := ClaimTier(Step(s, EarnXp(entry)), u, Some(t), track, now, catalog).1;
            var lowered := ClaimTier(s, u, Some(t.(requiredXp := t.requiredXp - entry.amount)), track, now, catalog).1;
            && (earned.Ok? <==> lowered.Ok?)
            && (earned.Ok? ==> earned.value.xp == lowered.value.xp + entry.amount)
            && (earned.Err? ==> earned.error == lowered.error)
  {
    EarnedXp(s.xp, entry, u, t.season);
    hide ScopedXp, Lookup, PointLedger.RecordEvent, OpenForClaim;
  }

  /** Without experience of one's own, no tier that asks for any opens. */
  lemma NothingEarnedNothingClaimed(s: State, u: User, t: Tier, track: string, now: int, catalog: map<string, Reward>)
    requires t.requiredXp > 0 && forall i :: 0 <= i < |s.xp| ==> s.xp[i].user != u
    ensures ClaimTier(s, u, Some(t), track, now, catalog).0 == s && ClaimTier(s, u, Some(t), track, now, catalog).1.Err?
  {
    NoXp(s.xp, u, t.season);
    hide ScopedXp, Lookup, PointLedger.RecordEvent, OpenForClaim;
  }

  lemma {:induction false} NoXp(xp: seq<XpEntry>, u: User, season: Season)
    requires forall i :: 0 <= i < |xp| ==> xp[i].user != u
    ensures ScopedXp(xp, u, season) == 0
  {
    if |xp| > 0 {
      NoXp(xp[..|xp| - 1], u, season);
    }
  }

  // ---- time ----

  /** A purchase is refused for its time exactly outside the season's own. */
  lemma SaleClosedIff(s: State, u: User, found: Option<Season>, now: int)
    ensures PurchaseSeason(s, u, found, now).1 == Err(SaleClosed)
       <==> && found.Some? && found.value.published && found.value.premiumEnabled
            && ((found.value.startsAt.Some? && now < found.value.startsAt.value)
                || (found.value.endsAt.Some? && now > found.value.endsAt.value))
  {
    hide Lookup;
  }

  /** A claim is refused for its time exactly before the season and from fourteen days after it. */
  lemma ClaimClosedIff(s: State, u: User, t: Tier, track: string, now: int, catalog: map<string, Reward>)
    ensures ClaimTier(s, u, Some(t), track, now, catalog).1 == Err(ClaimClosed)
       <==> && t.season.published && (track == "free" || (track == "premium" && t.season.premiumEnabled))
            && ((t.season.startsAt.Some? && now < t.season.startsAt.value)
                || (t.season.endsAt.Some? && now > t.season.endsAt.value + 14 * 24 * 60 * 60))
  {
    assert "free"[0] != "premium"[0];
    hide Lookup, ScopedXp, PointLedger.RecordEvent;
  }

  /** What a purchase answers. */
  lemma PurchaseAnswer(s: State, u: User, season: Season, now: int)
    requires Valid(s)
    ensures var r := PurchaseSeason(s, u, Some(season), now).1;
            if !season.published || !season.premiumEnabled then r == Err(SeasonNotFound)
            else if (season.startsAt.Some? && now < season.startsAt.value)
              || (season.endsAt.Some? && season.endsAt.value < now)
            then r == Err(SaleClosed)
            else if (u, season.id) in s.entitlements && s.entitlements[(u, season.id)].active
            then r == Ok(Purchase(s.entitlements[(u, season.id)].price, true))
              && PurchaseSeason(s, u, Some(season), now).0 == s
            else if season.price.None? || season.price.value <= 0 then r == Err(PriceNotConfigured)
            else if Lookup(s.orders, OrderKey(u, season.id)).Some? then r == Err(Conflict)
            else if Balance(s.db, u) < season.price.value then r == Err(PointsRefused(InsufficientPoints))
            else r == Ok(Purchase(season.price.value, false))
                 && PurchaseSeason(s, u, Some(season), now).0.entitlements
                    == s.entitlements[(u, season.id) := Entitlement(season.price.value, true, |s.orders|)]
  {
    if season.published && season.premiumEnabled && ActiveForView(season, now) && !HasPremium(s, u, season.id)
       && season.price.Some? && season.price.value > 0 {
      if Lookup(s.orders, OrderKey(u, season.id)).Some? {
        RepurchaseRefused(s, u, season, now);
      } else {
        FirstPurchase(s, u, season, now);
      }
    }
    hide Valid, Lookup, Balance, PointLedger.RecordEvent, PointLedger.SpendPoints;
  }

  /** What a claim answers: the first thing that stands in its way, or the claim. */
  lemma ClaimAnswer(s: State, u: User, t: Tier, track: string, now: int, catalog: map<string, Reward>)
    requires Valid(s) && RewardsListed(t, catalog)
    ensures var r := ClaimTier(s, u, Some(t), track, now, catalog).1;
            var reward := if track == "premium" then t.premiumReward else t.reward;
            if !t.season.published || (track == "premium" && !t.season.premiumEnabled) then r == Err(TierNotFound)
            else if track != "free" && track != "premium" then r == Err(TrackInvalid)
            else if (t.season.startsAt.Some? && now < t.season.startsAt.value)
                    || (t.season.endsAt.Some? && now > t.season.endsAt.value + 14 * 24 * 60 * 60)
            then r == Err(ClaimClosed)
            else if track == "premium"
                    && !((u, t.season.id) in s.entitlements && s.entitlements[(u, t.season.id)].active)
            then r == Err(PremiumNotPurchased)
            else if t.id in TiersOf(s.claims, u, t.season.id, track) then r == Err(AlreadyClaimed)
            else if ScopedXp(s.xp, u, t.season) < t.requiredXp then r == Err(TierLocked)
            else r.Ok? <==> reward.None? || Deliverable(s, catalog, u, t.id, track, reward.value)
  {
    ClaimAcceptedIff(s, u, t, track, now, catalog);
    if track == "free" || track == "premium" {
      ClaimedIsTiersOf(s, u, t.season.id, track);
    }
    assert "free"[0] != "premium"[0];
    hide Valid, Lookup, ScopedXp, PointLedger.RecordEvent, GrantClaim, Deliverable, TiersOf;
  }

  // ---- payment ----

  /** Every premium claim was made by a user who had bought that season's pass. */
  ghost predicate PremiumPaid(s: State) {
    forall i :: 0 <= i < |s.claims| && s.claims[i].track == "premium" ==>
      Lookup(s.orders, OrderKey(s.claims[i].user, s.claims[i].season)).Some?
  }

  lemma OrdersOnlyAdded(s: State, m: Move)
    ensures KeysKept(s.orders, Step(s, m).orders)
  {
    hide Lookup, ScopedXp, PointLedger.Step, PointLedger.RecordEvent, PointLedger.SpendPoints;
  }

  lemma ClaimPaid(s: State, u: User, t: Tier, now: int, catalog: map<string, Reward>)
    requires Valid(s) && ClaimTier(s, u, Some(t), "premium", now, catalog).1.Ok?
    ensures Lookup(s.orders, OrderKey(u, t.season.id)).Some?
  {
    hide Lookup, ScopedXp, PointLedger.RecordEvent, GrantClaim, ClaimsOk;
    var order := s.entitlements[(u, t.season.id)].order;
    assert s.orders[order].key == OrderKey(u, t.season.id);
  }

  lemma StepKeepsPaid(s: State, m: Move)
    requires Valid(s) && PremiumPaid(s) && (m.DoClaim? && m.tier.Some? ==> RewardsListed(m.tier.value, m.catalog))
    ensures PremiumPaid(Step(s, m))
  {
    hide Step, Lookup, Valid, ClaimTier, RewardsListed;
    OrdersOnlyAdded(s, m);
    ClaimsAdded(s, m);
    var s' := Step(s, m);
    if s'.claims != s.claims && m.track == "premium" {
      ClaimPaid(s, m.user, m.tier.value, m.now, m.catalog);
    }
    PaidKept(s, s');
  }

  lemma PaidKept(s: State, s': State)
    requires PremiumPaid(s) && KeysKept(s.orders, s'.orders)
    requires |s.claims| <= |s'.claims| <= |s.claims| + 1 && s'.claims[..|s.claims|] == s.claims
    requires |s'.claims| == |s.claims| + 1 ==>
      var c := s'.claims[|s.claims|];
      c.track == "premium" ==> Lookup(s.orders, OrderKey(c.user, c.season)).Some?
    ensures PremiumPaid(s')
  {
    hide Lookup;
    forall i | 0 <= i < |s'.claims| && s'.claims[i].track == "premium"
      ensures Lookup(s'.orders, OrderKey(s'.claims[i].user, s'.claims[i].season)).Some?
    {
      var c := s'.claims[i];
      assert i < |s.claims| ==> c == s.claims[i];
      LookupKept(s.orders, s'.orders, OrderKey(c.user, c.season));
    }
  }

  /** Only a claim that goes through adds one to the history. */
  lemma ClaimsAdded(s: State, m: Move)
    requires Valid(s) && (m.DoClaim? && m.tier.Some? ==> RewardsListed(m.tier.value, m.catalog))
    ensures var claims := Step(s, m).claims;
            claims == s.claims
            || (m.DoClaim? && m.tier.Some? && ClaimTier(s, m.user, m.tier, m.track, m.now, m.catalog).1.Ok?
                && |claims| == |s.claims| + 1 && claims[..|s.claims|] == s.claims
                && claims[|s.claims|].user == m.user && claims[|s.claims|].season == m.tier.value.season.id
                && claims[|s.claims|].track == m.track)
  {
    hide Valid, Lookup, ClaimTier, PurchaseSeason, PointLedger.Step, RewardsListed;
    match m
    case DoClaim(u, tier, track, now, catalog) =>
      if ClaimTier(s, u, tier, track, now, catalog).1.Ok? {
        ClaimNeedsTier(s, u, tier, track, now, catalog);
        var s1, key, grant := ClaimShape(s, u, tier.value, track, now, catalog);
      } else {
        RefusedClaim(s, u, tier, track, now, catalog);
      }
    case DoPurchase(u, season, now) => PurchaseAddsNoClaim(s, u, season, now);
    case _ =>
  }

  lemma PurchaseAddsNoClaim(s: State, u: User, found: Option<Season>, now: int)
    ensures PurchaseSeason(s, u, found, now).0.claims == s.claims
  {
    hide Lookup;
  }

  lemma {:induction false} RunKeepsPaid(s: State, ms: seq<Move>)
    requires Valid(s) && PremiumPaid(s)
    requires forall i :: 0 <= i < |ms| ==>
      Allowed(ms[i]) && (ms[i].DoClaim? && ms[i].tier.Some? ==> RewardsListed(ms[i].tier.value, ms[i].catalog))
    ensures PremiumPaid(Run(s, ms))
  {
    hide Step, Valid, PremiumPaid, Allowed;
    if |ms| > 0 {
      RunKeepsPaid(s, ms[..|ms| - 1]);
      RunKeeps(s, ms[..|ms| - 1]);
      StepKeepsPaid(Run(s, ms[..|ms| - 1]), ms[|ms| - 1]);
    }
  }
}

/** Season passes: buying premium access with points and claiming tiers with experience. */
module PassTables {
  import opened Wrappers
  import opened Tables
  import opened PointTables
  import PointLedger

  datatype Season = Season(id: string, published: bool, premiumEnabled: bool, price: Option<int>,
                           artist: Option<string>, startsAt: Option<int>, endsAt: Option<int>)
  datatype Tier = Tier(id: string, season: Season, requiredXp: int, reward: Option<string>,
                       premiumReward: Option<string>)

  datatype XpEntry = XpEntry(user: User, artist: Option<string>, amount: int, createdAt: int)

  datatype Entitlement = Entitlement(price: int, active: bool, order: nat)
  datatype OrderKey = OrderKey(user: User, season: string)
  datatype Order = Order(price: int, ledgerId: nat, eventId: nat)
  datatype PassProgress = PassProgress(currentXp: int, free: seq<string>, premium: seq<string>)
  datatype RewardGrant = RewardGrant(reward: string, claimed: bool)

  /** A catalog reward; a card-pack reward also needs its pack to be published. */
  datatype Reward = Reward(published: bool, packPublished: Option<bool>)

  /** One claim as it happened. */
  datatype Claim = Claim(user: User, season: string, tier: string, track: string, xp: int, requiredXp: int,
                         entitled: bool, rewarded: bool)

  /** `claims` is the history of claims; the program does not read it. */
  datatype State = State(
    db: Db,
    xp: seq<XpEntry>,
    entitlements: map<(User, string), Entitlement>,
    orders: seq<Row<OrderKey, Order>>,
    progress: map<(User, string), PassProgress>,
    grants: seq<Row<LedgerKey, RewardGrant>>,
    packs: set<nat>,
    claims: seq<Claim>)

  datatype PassError =
    | SeasonNotFound | SaleClosed | PriceNotConfigured | PointsRefused(error: Error) | Conflict
    | TierNotFound | TrackInvalid | ClaimClosed | PremiumNotPurchased | AlreadyClaimed | TierLocked
    | RewardNotPublished | PackNotPublished

  datatype Purchase = Purchase(price: int, replayed: bool)

  const GRACE := 14 * 86400

  predicate ActiveForView(season: Season, now: int) {
    (season.startsAt.Some? ==> season.startsAt.value <= now) && (season.endsAt.Some? ==> now <= season.endsAt.value)
  }

  predicate OpenForClaim(season: Season, now: int) {
    (season.startsAt.Some? ==> season.startsAt.value <= now)
      && (season.endsAt.Some? ==> now <= season.endsAt.value + GRACE)
  }

  /** Experience the user earned inside the season's time window, for its artist if it has one. */
  function ScopedXp(xp: seq<XpEntry>, u: User, season: Season): int {
    if |xp| == 0 then 0
    else
      var x := xp[|xp| - 1];
      ScopedXp(xp[..|xp| - 1], u, season)
      + if x.user == u && (season.artist.Some? ==> x.artist == season.artist)
           && (season.startsAt.Some? ==> season.startsAt.value <= x.createdAt)
           && (season.endsAt.Some? ==> x.createdAt <= season.endsAt.value)
        then x.amount else 0
  }

  predicate HasPremium(s: State, u: User, season: string) {
    (u, season) in s.entitlements && s.entitlements[(u, season)].active
  }

  function PurchaseEventKey(u: User, season: string): EventKey {
    EventKey(u, "pass_purchased", "pass_season", Text(season))
  }

  function PurchaseSeason(s: State, u: User, found: Option<Season>, now: int): (State, Result<Purchase, PassError>) {
    if found.None? || !found.value.published || !found.value.premiumEnabled then (s, Err(SeasonNotFound))
    else
      var season := found.value;
      if !ActiveForView(season, now) then (s, Err(SaleClosed))
      else if HasPremium(s, u, season.id) then (s, Ok(Purchase(s.entitlements[(u, season.id)].price, true)))
      else if season.price.None? || season.price.value <= 0 then (s, Err(PriceNotConfigured))
      else
        var price := season.price.value;
        var (db1, event) := PointLedger.RecordEvent(s.db, PurchaseEventKey(u, season.id), map["seasonId" := season.id]);
        var (db2, spent) := PointLedger.SpendPoints(db1, u, event, RuleKey.PassPurchase(season.id), price);
        if spent.Err? then (s, Err(PointsRefused(spent.error)))
        else
          var key := OrderKey(u, season.id);
          if Lookup(s.orders, key).Some? then (s, Err(Conflict))
          else
            (s.(db := db2,
                orders := s.orders + [Row(key, Order(price, spent.value, event))],
                entitlements := s.entitlements[(u, season.id) := Entitlement(price, true, |s.orders|)]),
             Ok(Purchase(price, false)))
  }

  function ProgressOf(s: State, u: User, season: string): PassProgress {
    if (u, season) in s.progress then s.progress[(u, season)] else PassProgress(0, [], [])
  }

  function Claimed(p: PassProgress, track: string): seq<string> {
    if track == "premium" then p.premium else p.free
  }

  function ClaimEventKey(u: User, tier: string): EventKey {
    EventKey(u, "pass_tier_claimed", "pass_tier", Text(tier))
  }

  /** The tier's reward is granted, marked claimed, and its card pack made available, each at most once. */
  function GrantClaim(s: State, catalog: map<string, Reward>, key: LedgerKey, reward: string)
    : Result<State, PassError>
  {
    var existing := Lookup(s.grants, key);
    if existing.None? && (reward !in catalog || !catalog[reward].published) then Err(RewardNotPublished)
    else if reward !in catalog then Ok(s)
    else
      var id := if existing.Some? then existing.value else |s.grants|;
      var pack := catalog[reward].packPublished;
      if pack == Some(false) then Err(PackNotPublished)
      else if existing.Some? && (s.grants[id].val.claimed || (pack.Some? && id in s.packs)) then Err(Conflict)
      else
        var grants := if existing.Some? then s.grants[id := s.grants[id].(val := s.grants[id].val.(claimed := true))]
                      else s.grants + [Row(key, RewardGrant(reward, true))];
        Ok(s.(grants := grants, packs := if pack.Some? then s.packs + {id} else s.packs))
  }

  function ClaimTier(s: State, u: User, found: Option<Tier>, track: string, now: int, catalog: map<string, Reward>)
    : (State, Result<Claim, PassError>)
  {
    if found.None? then (s, Err(TierNotFound))
    else
      var tier := found.value;
      var season := tier.season;
      if !season.published || (track == "premium" && !season.premiumEnabled) then (s, Err(TierNotFound))
      else if track != "free" && track != "premium" then (s, Err(TrackInvalid))
      else if !OpenForClaim(season, now) then (s, Err(ClaimClosed))
      else
        var progress := ProgressOf(s, u, season.id).(currentXp := ScopedXp(s.xp, u, season));
        var reward := if track == "premium" then tier.premiumReward else tier.reward;
        if track == "premium" && !HasPremium(s, u, season.id) then (s, Err(PremiumNotPurchased))
        else if tier.id in Claimed(progress, track) then (s, Err(AlreadyClaimed))
        else if progress.currentXp < tier.requiredXp then (s, Err(TierLocked))
        else
          var (db, event) := PointLedger.RecordEvent(s.db, ClaimEventKey(u, tier.id),
                                                     map["seasonId" := season.id, "track" := track]);
          var s1 := s.(db := db);
          var granted := if reward.None? then Ok(s1)
                         else GrantClaim(s1, catalog, LedgerKey(u, event, RuleKey.PassTier(tier.id, track)),
                                         reward.value);
          if granted.Err? then (s, Err(granted.error))
          else
            var after := if track == "premium" then progress.(premium := progress.premium + [tier.id])
                         else progress.(free := progress.free + [tier.id]);
            var claim := Claim(u, season.id, tier.id, track, progress.currentXp, tier.requiredXp,
                               HasPremium(s, u, season.id), reward.Some?);
            (granted.value.(progress := s.progress[(u, season.id) := after], claims := s.claims + [claim]), Ok(claim))
  }

  datatype Move =
    | DoPurchase(user: User, season: Option<Season>, now: int)
    | DoClaim(user: User, tier: Option<Tier>, track: string, now: int, catalog: map<string, Reward>)
    | EarnXp(entry: XpEntry)
    | DoPoints(command: PointLedger.Command)
    | Lapse(user: User, seasonId: string)

  /** Other point commands and the end of an entitlement come from outside the pass services. */
  function Step(s: State, m: Move): State {
    match m
    case DoPurchase(u, season, now) => PurchaseSeason(s, u, season, now).0
    case DoClaim(u, tier, track, now, catalog) => ClaimTier(s, u, tier, track, now, catalog).0
    case EarnXp(entry) => s.(xp := s.xp + [entry])
    case DoPoints(c) => s.(db := PointLedger.Step(s.db, c).0)
    case Lapse(u, season) =>
      if (u, season) in s.entitlements
      then s.(entitlements := s.entitlements[(u, season) := s.entitlements[(u, season)].(active := false)]) else s
  }

  function Run(s: State, ms: seq<Move>): State {
    if |ms| == 0 then s else Step(Run(s, ms[..|ms| - 1]), ms[|ms| - 1])
  }
}

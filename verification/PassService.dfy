/** The season pass services over stored rows; a refused call leaves every row as it was. */
module PassService {
  import opened Wrappers
  import opened Tables
  import opened PointTables
  import PointLedger
  import opened PassTables

  class PassStore {
    var db: Db
    var xp: seq<XpEntry>
    var entitlements: map<(User, string), Entitlement>
    var orders: seq<Row<OrderKey, Order>>
    var progress: map<(User, string), PassProgress>
    var grants: seq<Row<LedgerKey, RewardGrant>>
    var packs: set<nat>
    ghost var claims: seq<Claim>

    ghost function Content(): State
      reads this
    {
      State(db, xp, entitlements, orders, progress, grants, packs, claims)
    }

    constructor (db: Db)
      ensures Content() == State(db, [], map[], [], map[], [], {}, [])
    {
      this.db, xp, entitlements, orders, progress, grants, packs, claims := db, [], map[], [], map[], [], {}, [];
    }

    method PurchasePassSeason(u: User, found: Option<Season>, now: int) returns (r: Result<Purchase, PassError>)
      modifies this
      ensures (Content(), r) == PurchaseSeason(old(Content()), u, found, now)
    {
      hide Lookup;
      if found.None? || !found.value.published || !found.value.premiumEnabled {
        return Err(SeasonNotFound);
      }
      var season := found.value;
      if !ActiveForView(season, now) {
        return Err(SaleClosed);
      }
      var key := (u, season.id);
      if key in entitlements && entitlements[key].active {
        return Ok(Purchase(entitlements[key].price, true));
      }
      if season.price.None? || season.price.value <= 0 {
        return Err(PriceNotConfigured);
      }
      var price := season.price.value;
      var saved := db;
      var recorded := PointLedger.RecordEvent(db, PurchaseEventKey(u, season.id), map["seasonId" := season.id]);
      db := recorded.0;
      var spent := PointLedger.SpendPoints(db, u, recorded.1, RuleKey.PassPurchase(season.id), price);
      if spent.1.Err? {
        db := saved;
        return Err(PointsRefused(spent.1.error));
      }
      db := spent.0;
      if Lookup(orders, OrderKey(u, season.id)).Some? {
        db := saved;
        return Err(Conflict);
      }
      orders := orders + [Row(OrderKey(u, season.id), Order(price, spent.1.value, recorded.1))];
      if key !in entitlements {
        entitlements := entitlements[key := Entitlement(price, true, |orders| - 1)];
      } else {
        entitlements := entitlements[key := entitlements[key].(price := price, active := true)];
        entitlements := entitlements[key := entitlements[key].(order := |orders| - 1)];
      }
      assert entitlements == old(entitlements)[key := Entitlement(price, true, |old(orders)|)];
      return Ok(Purchase(price, false));
    }

    /** Grants a claimed tier's reward; on an error the caller rolls back. */
    method GrantClaimedReward(catalog: map<string, Reward>, key: LedgerKey, reward: string)
      returns (error: Option<PassError>)
      modifies this`grants, this`packs
      ensures var r := GrantClaim(old(Content()), catalog, key, reward);
              if error.None? then r == Ok(Content()) else r == Err(error.value)
    {
      hide Lookup;
      var existing := Lookup(grants, key);
      var id := if existing.Some? then existing.value else |grants|;
      if existing.None? {
        if reward !in catalog || !catalog[reward].published {
          return Some(RewardNotPublished);
        }
        grants := grants + [Row(key, RewardGrant(reward, false))];
      }
      if reward !in catalog {
        return None;
      }
      var pack := catalog[reward].packPublished;
      if pack == Some(false) {
        return Some(PackNotPublished);
      }
      if grants[id].val.claimed || (existing.Some? && pack.Some? && id in packs) {
        return Some(Conflict);
      }
      if pack.Some? {
        packs := packs + {id};
      }
      grants := grants[id := grants[id].(val := grants[id].val.(claimed := true))];
      assert existing.None? ==> grants == old(grants) + [Row(key, RewardGrant(reward, true))];
      return None;
    }

    method ClaimPassTier(u: User, found: Option<Tier>, track: string, now: int, catalog: map<string, Reward>)
      returns (r: Result<int, PassError>)
      modifies this
      ensures var (s', c) := ClaimTier(old(Content()), u, found, track, now, catalog);
              Content() == s' && r == if c.Ok? then Ok(c.value.xp) else Err(c.error)
    {
      hide Lookup, GrantClaim, ScopedXp, OpenForClaim, PointLedger.RecordEvent;
      if found.None? {
        return Err(TierNotFound);
      }
      var tier := found.value;
      var season := tier.season;
      if !season.published || (track == "premium" && !season.premiumEnabled) {
        return Err(TierNotFound);
      }
      if track != "free" && track != "premium" {
        return Err(TrackInvalid);
      }
      if !OpenForClaim(season, now) {
        return Err(ClaimClosed);
      }
      var key := (u, season.id);
      var row := if key in progress then progress[key] else PassProgress(0, [], []);
      row := row.(currentXp := ScopedXp(xp, u, season));
      var claimed := if track == "premium" then row.premium else row.free;
      var reward := if track == "premium" then tier.premiumReward else tier.reward;
      var entitled := key in entitlements && entitlements[key].active;
      if track == "premium" && !entitled {
        return Err(PremiumNotPurchased);
      }
      if tier.id in claimed {
        return Err(AlreadyClaimed);
      }
      if row.currentXp < tier.requiredXp {
        return Err(TierLocked);
      }
      ghost var s := Content();
      var savedDb, savedGrants, savedPacks := db, grants, packs;
      var recorded := PointLedger.RecordEvent(db, ClaimEventKey(u, tier.id),
                                              map["seasonId" := season.id, "track" := track]);
      db := recorded.0;
      if reward.Some? {
        var error := GrantClaimedReward(catalog, LedgerKey(u, recorded.1, RuleKey.PassTier(tier.id, track)),
                                        reward.value);
        if error.Some? {
          db, grants, packs := savedDb, savedGrants, savedPacks;
          return Err(error.value);
        }
      }
      claimed := claimed + [tier.id];
      row := if track == "premium" then row.(premium := claimed) else row.(free := claimed);
      progress := progress[key := row];
      claims := claims + [Claim(u, season.id, tier.id, track, row.currentXp, tier.requiredXp, entitled, reward.Some?)];
      return Ok(row.currentXp);
    }
  }
}

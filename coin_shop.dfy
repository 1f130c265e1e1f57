// The coin shop (CoinShopController.cs and CommonHelpers.DetermineCoinCost):
// a daily list of creatures whose fragments a player buys with the coins
// earned by walking.

module CoinShop {
  import opened Common
  import opened Creatures
  import opened Progression
  import opened Records
  import opened Startup

  // ---------------------------------------------------------------------
  // Prices
  // ---------------------------------------------------------------------

  /** The price before any multiplier: 110 coins plus the id, per tier. */
  function BaseCost(c: Creature): int {
    (110 + c.id) * TierRating(c.stats)
  }

  /** Every area key is a real code (none is the global key ""). */
  predicate AreaLocked(c: Creature) {
    |c.areaSpawns| > 0 && |c.terrainSpawns| == 0 &&
    forall i :: 0 <= i < |c.areaSpawns| ==> |c.areaSpawns[i].key| > 0
  }

  /** One step of the price: multiplied by `factor` when its rule `applies`. */
  function Scale(cost: int, applies: bool, factor: int): int {
    if applies then cost * factor else cost
  }

  /** `DetermineCoinCost`: the base price put through each multiplier in turn. */
  function CoinCost(c: Creature): int {
    LaterMultipliers(Scale(BaseCost(c), !c.isWild, 3), c)
  }

  /** The multipliers after the elite one: timed, dated, placed, area-locked, specific, wandering. */
  function LaterMultipliers(cost: int, c: Creature): int {
    var cost := Scale(cost, |c.spawnTimes| > 0, 2);
    var cost := Scale(cost, |c.spawnDates| > 0, 10);
    var cost := Scale(cost, |c.placeSpawns| > 0, Min(2, 6 - |c.placeSpawns|));
    var cost := Scale(cost, AreaLocked(c), 3);
    var cost := Scale(cost, |c.specificSpawns| > 0, 6);
    Scale(cost, c.wanderOdds > 0, Min(3, 10 - c.wanderSpawnEntries))
  }

  lemma ScaleGrows(cost: int, applies: bool, factor: int)
    requires cost > 0 && factor >= 1
    ensures Scale(cost, applies, factor) >= cost
  {
    if applies {
      assert cost * factor - cost == cost * (factor - 1);
    }
  }

  lemma ScaleTriples(cost: int, applies: bool, factor: int)
    ensures Scale(3 * cost, applies, factor) == 3 * Scale(cost, applies, factor)
  {
  }

  /**
   * With at most five place spawns and fewer than ten wander entries every
   * multiplier is at least 1, so a creature with a positive base price costs
   * at least that much.
   */
  lemma {:induction false} CoinCostAtLeastBase(c: Creature)
    requires BaseCost(c) > 0 && |c.placeSpawns| <= 5 && c.wanderSpawnEntries <= 9
    ensures CoinCost(c) >= BaseCost(c)
  {
    var s1 := Scale(BaseCost(c), !c.isWild, 3);
    ScaleGrows(BaseCost(c), !c.isWild, 3);
    var s2 := Scale(s1, |c.spawnTimes| > 0, 2);
    ScaleGrows(s1, |c.spawnTimes| > 0, 2);
    var s3 := Scale(s2, |c.spawnDates| > 0, 10);
    ScaleGrows(s2, |c.spawnDates| > 0, 10);
    var s4 := Scale(s3, |c.placeSpawns| > 0, Min(2, 6 - |c.placeSpawns|));
    ScaleGrows(s3, |c.placeSpawns| > 0, Min(2, 6 - |c.placeSpawns|));
    var s5 := Scale(s4, AreaLocked(c), 3);
    ScaleGrows(s4, AreaLocked(c), 3);
    var s6 := Scale(s5, |c.specificSpawns| > 0, 6);
    ScaleGrows(s5, |c.specificSpawns| > 0, 6);
    ScaleGrows(s6, c.wanderOdds > 0, Min(3, 10 - c.wanderSpawnEntries));
  }

  /**
   * Place spawns multiply the price by `Min(2, 6 - count)`: never by more
   * than 2, and a creature tied to six named places costs nothing.
   */
  lemma SixPlacesCostNothing(c: Creature)
    requires |c.placeSpawns| == 6
    ensures CoinCost(c) == 0
  {
  }

  /** Wandering multiplies by `Min(3, 10 - entries)`: ten wander entries make the creature free. */
  lemma TenWanderEntriesCostNothing(c: Creature)
    requires c.wanderOdds > 0 && c.wanderSpawnEntries == 10
    ensures CoinCost(c) == 0
  {
  }

  /** An elite creature costs three times what the same creature would cost as a wild spawn. */
  lemma {:induction false} EliteCostsTriple(c: Creature)
    ensures CoinCost(c.(isWild := false)) == 3 * CoinCost(c.(isWild := true))
  {
    var e, w := c.(isWild := false), c.(isWild := true);
    assert BaseCost(e) == BaseCost(w);
    assert AreaLocked(e) == AreaLocked(c) == AreaLocked(w);
    assert LaterMultipliers(3 * BaseCost(w), e) == LaterMultipliers(3 * BaseCost(w), c);
    assert LaterMultipliers(BaseCost(w), w) == LaterMultipliers(BaseCost(w), c);
    LaterMultipliersTriple(BaseCost(w), c);
  }

  lemma {:induction false} LaterMultipliersTriple(s1: int, c: Creature)
    ensures LaterMultipliers(3 * s1, c) == 3 * LaterMultipliers(s1, c)
  {
    var s2 := Scale(s1, |c.spawnTimes| > 0, 2);
    ScaleTriples(s1, |c.spawnTimes| > 0, 2);
    var s3 := Scale(s2, |c.spawnDates| > 0, 10);
    ScaleTriples(s2, |c.spawnDates| > 0, 10);
    var s4 := Scale(s3, |c.placeSpawns| > 0, Min(2, 6 - |c.placeSpawns|));
    ScaleTriples(s3, |c.placeSpawns| > 0, Min(2, 6 - |c.placeSpawns|));
    var s5 := Scale(s4, AreaLocked(c), 3);
    ScaleTriples(s4, AreaLocked(c), 3);
    var s6 := Scale(s5, |c.specificSpawns| > 0, 6);
    ScaleTriples(s5, |c.specificSpawns| > 0, 6);
    ScaleTriples(s6, c.wanderOdds > 0, Min(3, 10 - c.wanderSpawnEntries));
  }

  // ---------------------------------------------------------------------
  // Buying
  // ---------------------------------------------------------------------

  /** `ShopEntry`; the empty entry (0, 0) is the answer to a refused purchase. */
  datatype ShopEntry = ShopEntry(creatureId: int, creatureCost: int)

  const NoSale: ShopEntry := ShopEntry(0, 0)

  predicate InShop(shop: seq<ShopEntry>, creatureId: int) {
    exists i :: 0 <= i < |shop| && shop[i].creatureId == creatureId
  }

  /** The record a purchase creates: level 0, one fragment to the next level, and the id left at 0. */
  function PurchasedRecord(): (r: CreatureRecord)
    ensures r.id == 0 && r.level == 0 && r.toNextLevel == 1
  {
    FreshRecord(0).(toNextLevel := 1)
  }

  /**
   * `BuyFragment`: a creature on today's list is bought for its coin cost
   * when the player has that many coins.  The purchase boosts the player's
   * record once, creating one (under the creature's key but with id 0) if
   * there was none.  Anything else answers the empty entry and saves
   * nothing.  An id on the list but not in the catalog throws.
   */
  method BuyFragment(shop: seq<ShopEntry>, account: Account, creatures: CreatureData, creatureId: int,
                     byId: map<int, Creature>)
    returns (account': Account, creatures': CreatureData, result: ShopEntry, failed: bool)
    requires Coherent(byId, creatures)
    ensures !InShop(shop, creatureId) ==>
      !failed && result == NoSale && account' == account && creatures' == creatures
    ensures InShop(shop, creatureId) && creatureId !in byId ==>
      failed && account' == account && creatures' == creatures
    ensures InShop(shop, creatureId) && creatureId in byId ==>
      var cost := CoinCost(byId[creatureId]);
      var coins := account.currencies.baseCurrency;
      !failed &&
      (coins < cost ==> result == NoSale && account' == account && creatures' == creatures) &&
      (coins >= cost ==>
        result == ShopEntry(creatureId, cost) &&
        account' == account.(currencies := account.currencies.(baseCurrency := coins - cost)) &&
        account'.currencies.baseCurrency >= 0 &&
        creatures' == creatures[creatureId :=
          if creatureId in creatures then Boosted(creatures[creatureId], StatsFor(byId, creatures[creatureId].id))
          else Boosted(PurchasedRecord(), StatsFor(byId, 0))])
  {
    if !InShop(shop, creatureId) {
      return account, creatures, NoSale, false;
    }
    if creatureId !in byId {
      return account, creatures, NoSale, true;
    }
    var cost := CoinCost(byId[creatureId]);
    account', creatures', result, failed := account, creatures, NoSale, false;
    if account.currencies.baseCurrency >= cost {
      account' := account.(currencies := account.currencies.(baseCurrency := account.currencies.baseCurrency - cost));
      var record;
      if creatureId in creatures {
        record := new PlayerCreatureInfo.Load(creatures[creatureId]);
      } else {
        record := new PlayerCreatureInfo.Load(PurchasedRecord());
      }
      record.BoostCreature(byId);
      creatures' := creatures[creatureId := record.Record()];
      result := ShopEntry(creatureId, cost);
    }
  }

  /**
   * A purchase adds exactly one fragment to every count of the bought
   * creature and changes no other record; a first purchase of a creature
   * yields a level-1 record of catalog creature 0 filed under its key.
   */
  lemma PurchaseAddsOneFragment(creatures: CreatureData, creatureId: int, byId: map<int, Creature>)
    requires Coherent(byId, creatures) && creatureId in byId
    ensures var r := if creatureId in creatures then creatures[creatureId] else PurchasedRecord();
      var r' := Boosted(r, StatsFor(byId, r.id));
      r'.totalCaught == r.totalCaught + 1 && r'.currentAvailable == r.currentAvailable + 1 &&
      r'.currentAvailableCompete == r.currentAvailableCompete + 1
    ensures creatureId !in creatures ==>
      var r' := Boosted(PurchasedRecord(), StatsFor(byId, 0));
      r'.id == 0 && r'.level == 1 && r'.totalCaught == 1
  {
  }

  // ---------------------------------------------------------------------
  // Today's list
  // ---------------------------------------------------------------------

  /** `PickOneRandom`: the element a random draw selects, or nothing from an empty list. */
  function PickOne(xs: seq<Creature>, draw: nat): (r: Option<Creature>)
    ensures r.None? <==> xs == []
    ensures r.Some? ==> r.value in xs
  {
    if xs == [] then None else Some(xs[draw % |xs|])
  }

  /** Candidates for the wild slot: visible wild creatures that may spawn now. */
  predicate WildSlot(c: Creature, now: nat) { !c.isHidden && c.isWild && CanSpawnNow(c, now) }

  /** Candidates for the elite slot: visible creatures that are neither wild nor a passport reward. */
  predicate EliteSlot(c: Creature) { !c.isHidden && !c.isWild && !c.passportReward }

  /** Candidates for the special slot: visible creatures out of season now. */
  predicate SpecialSlot(c: Creature, now: nat) { !c.isHidden && !CanSpawnNow(c, now) }

  function Offer(c: Creature): ShopEntry {
    ShopEntry(c.id, CoinCost(c))
  }

  /**
   * The instant the list expires: `now` plus the hours, minutes and seconds
   * left to 23:59:59 of the same day.  `DateTime.Hour`, `Minute` and
   * `Second` are read off the whole seconds of `now`.
   */
  function ShopExpiry(now: nat): int {
    var sec := now / TicksPerSecond;
    var hour := sec % 86400 / 3600;
    var minute := sec % 3600 / 60;
    var second := sec % 60;
    now + (23 - hour) * TicksPerHour + (59 - minute) * TicksPerMinute + (59 - second) * TicksPerSecond
  }

  /** The list expires at 23:59:59 of the day it was made (keeping the sub-second part of `now`). */
  lemma ShopExpiresAtDayEnd(now: nat)
    ensures ShopExpiry(now) == now / TicksPerDay * TicksPerDay + ClockTime(23, 59) + 59 * TicksPerSecond + now % TicksPerSecond
    ensures now <= ShopExpiry(now) && ShopExpiry(now) / TicksPerDay == now / TicksPerDay
  {
    var sec, f := now / TicksPerSecond, now % TicksPerSecond;
    var day, t := sec / 86400, sec % 86400;
    var hour, u := t / 3600, t % 3600;
    var minute, second := u / 60, u % 60;
    assert sec == 3600 * (24 * day + hour) + u;
    assert sec % 3600 == u;
    assert sec == 60 * (1440 * day + 60 * hour + minute) + second;
    assert sec % 60 == second;
    assert now == TicksPerDay * day + TicksPerSecond * t + f;
    assert now / TicksPerDay == day;
  }

  /**
   * Making a new list: one draw among the wild candidates, one among the
   * elite candidates, and one among the out-of-season ones, added only when
   * there is one.  An empty wild or elite candidate list throws.  The list
   * is kept until `ShopExpiry(now)`.
   */
  method MakeShopEntries(creatureList: seq<Creature>, now: nat, wildDraw: nat, eliteDraw: nat, specialDraw: nat)
    returns (shop: seq<ShopEntry>, expires: int, failed: bool)
    ensures var wilds, elites := Filter(creatureList, c => WildSlot(c, now)), Filter(creatureList, EliteSlot);
      failed <==> wilds == [] || elites == []
    ensures !failed ==>
      2 <= |shop| <= 3 && expires == ShopExpiry(now) &&
      (exists c :: c in creatureList && WildSlot(c, now) && shop[0] == Offer(c)) &&
      (exists c :: c in creatureList && EliteSlot(c) && shop[1] == Offer(c)) &&
      (|shop| == 3 <==> exists c :: c in creatureList && SpecialSlot(c, now)) &&
      (|shop| == 3 ==> exists c :: c in creatureList && SpecialSlot(c, now) && shop[2] == Offer(c))
  {
    FilterMembers(creatureList, c => WildSlot(c, now));
    FilterMembers(creatureList, EliteSlot);
    FilterMembers(creatureList, c => SpecialSlot(c, now));
    var wild := PickOne(Filter(creatureList, c => WildSlot(c, now)), wildDraw);
    if wild.None? {
      return [], 0, true;
    }
    shop := [Offer(wild.value)];
    var elite := PickOne(Filter(creatureList, EliteSlot), eliteDraw);
    if elite.None? {
      return [], 0, true;
    }
    shop := shop + [Offer(elite.value)];
    var special := PickOne(Filter(creatureList, c => SpecialSlot(c, now)), specialDraw);
    if special.Some? {
      shop := shop + [Offer(special.value)];
    }
    expires := ShopExpiry(now);
    failed := false;
  }
}

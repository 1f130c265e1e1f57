// The passport (PassportController.cs): a player collects stamps from named
// places of ten kinds; the third stamp of a kind pays out a creature.

module Passport {
  import opened Common
  import opened Creatures
  import opened Progression
  import opened Records

  /** The place styles that carry stamps. */
  const PassportTerrains: seq<string> :=
    ["university", "retail", "tourism", "historical", "artsCulture", "water", "park", "natureReserve", "cemetery", "trail"]

  /** The stamp count that completes a set. */
  const EntryCount: int := 3

  /** A player's passport: each terrain's stamps, oldest first. */
  type PassportData = map<string, seq<string>>

  /** What the map knows of a place at the stamped spot: its style, name and privacy id. */
  datatype PlaceFact = PlaceFact(style: string, name: string, privacyId: string)

  /** The empty passport of a new player: every terrain, no stamps. */
  predicate BlankPassport(p: PassportData) {
    p.Keys == (set t | t in PassportTerrains) && forall t :: t in p ==> p[t] == []
  }

  /**
   * `GetPassportData`: a player without a passport gets (and saves) the
   * blank one; an existing passport is returned as stored.
   */
  method GetPassportData(stored: Option<PassportData>) returns (entries: PassportData, saved: bool)
    ensures stored.Some? ==> entries == stored.value && !saved
    ensures stored.None? ==> saved && BlankPassport(entries)
  {
    if stored.Some? {
      return stored.value, false;
    }
    entries := map[];
    var i := 0;
    while i < |PassportTerrains|
      invariant 0 <= i <= |PassportTerrains|
      invariant entries.Keys == set t | t in PassportTerrains[..i]
      invariant forall t :: t in entries ==> entries[t] == []
    {
      entries := entries[PassportTerrains[i] := []];
      i := i + 1;
    }
    saved := true;
  }

  /** The first place at the spot whose style is a passport terrain, if any. */
  function FirstStampable(places: seq<PlaceFact>): (r: Option<nat>)
    ensures r.Some? ==> r.value < |places| && places[r.value].style in PassportTerrains
    ensures r.Some? ==> forall j :: 0 <= j < r.value ==> places[j].style !in PassportTerrains
    ensures r.None? ==> forall j :: 0 <= j < |places| ==> places[j].style !in PassportTerrains
  {
    if places == [] then None
    else if places[0].style in PassportTerrains then Some(0)
    else match FirstStampable(places[1..]) {
      case None => None
      case Some(k) => Some(k + 1)
    }
  }

  /** The name a place stamps under: its own, or the terrain for an unnamed place. */
  function StampName(p: PlaceFact): string {
    if p.name == "" then p.style else p.name
  }

  /** The stamp string "terrain|name|privacyId". */
  function Stamp(p: PlaceFact): string {
    p.style + "|" + StampName(p) + "|" + p.privacyId
  }

  /** An existing stamp blocks the place when it starts with the place's name or ends with its id. */
  predicate Blocked(current: seq<string>, p: PlaceFact) {
    exists i :: 0 <= i < |current| && (StartsWith(current[i], StampName(p)) || EndsWith(current[i], p.privacyId))
  }

  /** A place already stamped is blocked from being stamped again. */
  lemma RestampBlocked(current: seq<string>, p: PlaceFact)
    requires Stamp(p) in current
    ensures Blocked(current, p)
  {
    var i :| 0 <= i < |current| && current[i] == Stamp(p);
    assert current[i][|current[i]| - |p.privacyId|..] == p.privacyId;
  }

  /**
   * Stamps start with their terrain, and an unnamed place is looked up by its
   * terrain, so once a terrain holds any stamp no unnamed place of that
   * terrain can be stamped.
   */
  lemma UnnamedPlaceBlockedByAnyStamp(current: seq<string>, p: PlaceFact, q: PlaceFact)
    requires p.name == "" && q.style == p.style && Stamp(q) in current
    ensures Blocked(current, p)
  {
    var i :| 0 <= i < |current| && current[i] == Stamp(q);
    assert current[i][..|p.style|] == p.style;
  }

  /** The answer of a stamp: nothing, the stamp of the place found, or the terrain and the reward's name. */
  datatype StampAnswer = NoPlace | Stamped(stamp: string) | Reward(terrain: string, creatureName: string)

  /** What a stamp visit leaves behind. */
  datatype StampResult = StampResult(
    passport: Option<PassportData>,
    creatures: CreatureData,
    answer: StampAnswer,
    failed: bool)

  /**
   * The effect of stamping place `p` on the passport: the stamp is added
   * unless blocked, and a terrain reaching exactly three stamps boosts the
   * player's record of the drawn reward creature (a player without one gains
   * nothing, since the record made for it is never stored).  The reward is
   * named after the id inside the record it boosted, which for a record
   * stored with id 0 is not the drawn creature.  The passport
   * keeps every stamp: the reset of a completed set only rebinds a local.
   */
  function Visit(passport: PassportData, creatures: CreatureData, p: PlaceFact, rewards: seq<Creature>,
                 draw: nat, creatureList: seq<Creature>, byId: map<int, Creature>): StampResult
    requires p.style in passport
    requires forall c :: c in rewards ==> c.id in byId
  {
    var current := passport[p.style];
    if Blocked(current, p) then
      StampResult(Some(passport), creatures, Stamped(Stamp(p)), false)
    else
      var passport' := passport[p.style := current + [Stamp(p)]];
      if |current| + 1 != EntryCount then
        StampResult(Some(passport'), creatures, Stamped(Stamp(p)), false)
      else if rewards == [] then
        StampResult(Some(passport), creatures, NoPlace, true)
      else
        var rc := rewards[draw % |rewards|];
        var creatures' := if rc.id in creatures then creatures[rc.id := Boosted(creatures[rc.id], StatsFor(byId, creatures[rc.id].id))] else creatures;
        var named := if rc.id in creatures then creatures[rc.id].id else rc.id;
        if 0 <= named < |creatureList| then
          StampResult(Some(passport'), creatures', Reward(p.style, creatureList[named].name), false)
        else
          StampResult(Some(passport), creatures', NoPlace, true)
  }

  /**
   * `StampPlace`: an out-of-bounds code answers nothing.  Otherwise only the
   * first place of a passport terrain at the spot counts; the passport is
   * saved exactly when there is one.  A missing passport or terrain list
   * throws, as does an empty reward list when a set completes.
   */
  method StampPlace(passport: Option<PassportData>, creatures: CreatureData, places: seq<PlaceFact>, inBounds: bool,
                    rewards: seq<Creature>, draw: nat, creatureList: seq<Creature>, byId: map<int, Creature>)
    returns (r: StampResult)
    requires Coherent(byId, creatures)
    requires forall c :: c in rewards ==> c.id in byId
    ensures !inBounds || FirstStampable(places).None? ==> r == StampResult(passport, creatures, NoPlace, false)
    ensures inBounds && FirstStampable(places).Some? ==>
      var p := places[FirstStampable(places).value];
      (passport.None? || p.style !in passport.value ==> r == StampResult(passport, creatures, NoPlace, true)) &&
      (passport.Some? && p.style in passport.value ==>
        r == Visit(passport.value, creatures, p, rewards, draw, creatureList, byId))
  {
    if !inBounds {
      return StampResult(passport, creatures, NoPlace, false);
    }
    var i := 0;
    while i < |places|
      invariant 0 <= i <= |places|
      invariant forall j :: 0 <= j < i ==> places[j].style !in PassportTerrains
    {
      var p := places[i];
      if p.style in PassportTerrains {
        assert FirstStampable(places) == Some(i) by {
          FirstStampableAt(places, i);
        }
        if passport.None? || p.style !in passport.value {
          return StampResult(passport, creatures, NoPlace, true);
        }
        var entries := passport.value;
        var currentEntries := entries[p.style];
        var stamp := Stamp(p);
        if !Blocked(currentEntries, p) {
          currentEntries := currentEntries + [stamp];
          entries := entries[p.style := currentEntries];
          if |currentEntries| == EntryCount {
            if rewards == [] {
              return StampResult(passport, creatures, NoPlace, true);
            }
            var rewardCreature := rewards[draw % |rewards|];
            var creatures' := creatures;
            var named := rewardCreature.id;
            if rewardCreature.id in creatures {
              var foundReward := new PlayerCreatureInfo.Load(creatures[rewardCreature.id]);
              foundReward.BoostCreature(byId);
              creatures' := creatures[rewardCreature.id := foundReward.Record()];
              named := foundReward.id;
            }
            if !(0 <= named < |creatureList|) {
              return StampResult(passport, creatures', NoPlace, true);
            }
            return StampResult(Some(entries), creatures', Reward(p.style, creatureList[named].name), false);
          }
        }
        return StampResult(Some(entries), creatures, Stamped(stamp), false);
      }
      i := i + 1;
    }
    r := StampResult(passport, creatures, NoPlace, false);
  }

  lemma {:induction false} FirstStampableAt(places: seq<PlaceFact>, i: nat)
    requires i < |places| && places[i].style in PassportTerrains
    requires forall j :: 0 <= j < i ==> places[j].style !in PassportTerrains
    ensures FirstStampable(places) == Some(i)
  {
    if i > 0 {
      FirstStampableAt(places[1..], i - 1);
    }
  }

  /**
   * A visit adds at most one stamp, and pays out only when the terrain's
   * list goes from two stamps to exactly three; a list already at three or
   * more never pays again.
   */
  lemma VisitRewardsOnlyThirdStamp(passport: PassportData, creatures: CreatureData, p: PlaceFact, rewards: seq<Creature>,
                                   draw: nat, creatureList: seq<Creature>, byId: map<int, Creature>)
    requires p.style in passport
    requires forall c :: c in rewards ==> c.id in byId
    ensures var r := Visit(passport, creatures, p, rewards, draw, creatureList, byId);
      (r.answer.Reward? ==> |passport[p.style]| == 2 && !Blocked(passport[p.style], p)) &&
      (r.creatures != creatures ==> |passport[p.style]| == 2) &&
      (!r.failed ==> (r.passport.Some? && p.style in r.passport.value &&
        (r.passport.value[p.style] == passport[p.style] ||
         r.passport.value[p.style] == passport[p.style] + [Stamp(p)])))
  {
  }

  /**
   * The reward is named after the id inside the boosted record, not the
   * drawn creature: a player whose record of the drawn creature was filed
   * with id 0, as a first coin-shop purchase files it, is told creature 0.
   */
  lemma RewardNamedByStoredId(passport: PassportData, creatures: CreatureData, p: PlaceFact, rewards: seq<Creature>,
                              draw: nat, creatureList: seq<Creature>, byId: map<int, Creature>)
    requires p.style in passport && |passport[p.style]| == 2 && !Blocked(passport[p.style], p)
    requires forall c :: c in rewards ==> c.id in byId
    requires rewards != [] && creatureList != []
    requires rewards[draw % |rewards|].id in creatures && creatures[rewards[draw % |rewards|].id].id == 0
    ensures Visit(passport, creatures, p, rewards, draw, creatureList, byId).answer == Reward(p.style, creatureList[0].name)
  {
  }

  /** A completed set is kept, not cleared: the fourth stamp of a terrain is stored after the first three. */
  lemma CompletedSetKeepsGrowing(passport: PassportData, creatures: CreatureData, p: PlaceFact, rewards: seq<Creature>,
                                 draw: nat, creatureList: seq<Creature>, byId: map<int, Creature>)
    requires p.style in passport && |passport[p.style]| == 3 && !Blocked(passport[p.style], p)
    requires forall c :: c in rewards ==> c.id in byId
    ensures var r := Visit(passport, creatures, p, rewards, draw, creatureList, byId);
      r == StampResult(Some(passport[p.style := passport[p.style] + [Stamp(p)]]), creatures, Stamped(Stamp(p)), false) &&
      |r.passport.value[p.style]| == 4
  {
  }
}

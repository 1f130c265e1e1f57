// A player's record of one creature and how it levels (TransferClasses.cs),
// plus the small transfer records shared by the game modes.

module Progression {
  import opened Common
  import opened Creatures

  /** The persisted value of a `PlayerCreatureInfo`. */
  datatype CreatureRecord = CreatureRecord(
    id: int,
    level: int,
    available: bool,
    assignedTo: string,
    totalCaught: int,
    currentAvailable: int,
    currentAvailableCompete: int,
    toNextLevel: int,
    hintUnlocked: bool,
    strength: int,
    defense: int,
    scouting: int)

  /** `new PlayerCreatureInfo() { id = id }`: level 0, available, nothing caught. */
  function FreshRecord(id: int): (r: CreatureRecord)
    ensures r.id == id && r.level == 0 && r.toNextLevel == 0 && r.available && r.assignedTo == ""
  {
    CreatureRecord(id, 0, true, "", 0, 0, 0, 0, false, 0, 0, 0)
  }

  /** The catalog stats `creaturesById[id].stats`; a missing id is never looked up where this is used. */
  function StatsFor(byId: map<int, Creature>, id: int): LevelStats {
    if id in byId then byId[id].stats else DefaultStats
  }

  // ---------------------------------------------------------------------
  // Specification of the record operations
  // ---------------------------------------------------------------------

  /** `SetToLevel(newLevel)`: the level and every derived stat, from the catalog stats alone. */
  function AtLevel(r: CreatureRecord, newLevel: int, s: LevelStats): (r': CreatureRecord)
    ensures r'.level == newLevel
    ensures r'.strength == StatAt(s.strengthPerLevel, newLevel)
    ensures r'.defense == StatAt(s.defensePerLevel, newLevel)
    ensures r'.scouting == StatAt(s.scoutingPerLevel, newLevel)
    ensures r'.toNextLevel == LevelCost(s, newLevel)
    ensures r'.(level := r.level, strength := r.strength, defense := r.defense,
                scouting := r.scouting, toNextLevel := r.toNextLevel) == r
  {
    r.(level := newLevel,
       strength := StatAt(s.strengthPerLevel, newLevel),
       defense := StatAt(s.defensePerLevel, newLevel),
       scouting := StatAt(s.scoutingPerLevel, newLevel),
       toNextLevel := LevelCost(s, newLevel))
  }

  /** Two records of the same creature at the same level carry the same stats. */
  lemma SameLevelSameStats(a: CreatureRecord, b: CreatureRecord, level: int, byId: map<int, Creature>)
    requires a.id == b.id
    ensures var a', b' := AtLevel(a, level, StatsFor(byId, a.id)), AtLevel(b, level, StatsFor(byId, b.id));
      a'.strength == b'.strength && a'.defense == b'.defense &&
      a'.scouting == b'.scouting && a'.toNextLevel == b'.toNextLevel
  {
  }

  /** `LevelUp()`. */
  function LeveledUp(r: CreatureRecord, s: LevelStats): (r': CreatureRecord)
    ensures r'.level == r.level + 1
    ensures r'.id == r.id && r'.totalCaught == r.totalCaught
    ensures r'.currentAvailable == r.currentAvailable
    ensures r'.currentAvailableCompete == r.currentAvailableCompete
  {
    AtLevel(r, r.level + 1, s)
  }

  /** `BoostCreature()`: one more copy caught. */
  function Boosted(r: CreatureRecord, s: LevelStats): (r': CreatureRecord)
    ensures r'.totalCaught == r.totalCaught + 1
    ensures r'.currentAvailable == r.currentAvailable + 1
    ensures r'.currentAvailableCompete == r.currentAvailableCompete + 1
    ensures r'.id == r.id && r'.available == r.available && r'.assignedTo == r.assignedTo
    ensures r'.hintUnlocked == r.hintUnlocked
    ensures r.toNextLevel - 1 >= 1 ==> r'.level == r.level && r'.toNextLevel == r.toNextLevel - 1
    ensures r.toNextLevel - 1 < 1 ==> r'.level == r.level + 1 && r'.toNextLevel == LevelCost(s, r.level + 1)
  {
    var r1 := r.(toNextLevel := r.toNextLevel - 1,
                 totalCaught := r.totalCaught + 1,
                 currentAvailable := r.currentAvailable + 1,
                 currentAvailableCompete := r.currentAvailableCompete + 1);
    if r1.toNextLevel < 1 then LeveledUp(r1, s) else r1
  }

  /** `n` successive boosts. */
  function BoostedTimes(r: CreatureRecord, n: int, s: LevelStats): (r': CreatureRecord)
    ensures r'.totalCaught == r.totalCaught + Max(0, n)
    ensures r'.currentAvailable == r.currentAvailable + Max(0, n)
    ensures r'.currentAvailableCompete == r.currentAvailableCompete + Max(0, n)
    ensures r'.id == r.id && r'.available == r.available && r'.assignedTo == r.assignedTo
    ensures r'.level >= r.level
    decreases n
  {
    if n <= 0 then r else BoostedTimes(Boosted(r, s), n - 1, s)
  }

  /**
   * The level-up loop of `FastBoost`: while the remaining fragments reach the
   * threshold, spend it and level up; then lower the threshold by the rest.
   */
  function LevelLoop(r: CreatureRecord, n: int, s: LevelStats): (r': CreatureRecord)
    requires n < r.toNextLevel || ValidStats(s)
    ensures r'.toNextLevel >= 1
    ensures r'.level >= r.level
    ensures n >= r.toNextLevel ==> r'.level > r.level
    ensures n < r.toNextLevel ==> r' == r.(toNextLevel := r.toNextLevel - n)
    ensures r'.id == r.id && r'.totalCaught == r.totalCaught
    ensures r'.currentAvailable == r.currentAvailable
    ensures r'.currentAvailableCompete == r.currentAvailableCompete
    ensures r'.available == r.available && r'.assignedTo == r.assignedTo
    decreases if r.level < 2 then 2 - r.level else 0, if r.toNextLevel < 1 then 1 else 0, n
  {
    if n >= r.toNextLevel then
      LevelCostPositive(s, if r.level + 1 >= 2 then r.level + 1 else 2);
      LevelLoop(LeveledUp(r, s), n - r.toNextLevel, s)
    else
      r.(toNextLevel := r.toNextLevel - n)
  }

  /** `FastBoost(n)`: `n` fragments at once, without counting them as caught. */
  function FastBoosted(r: CreatureRecord, n: int, s: LevelStats): (r': CreatureRecord)
    requires n < r.toNextLevel || ValidStats(s)
    ensures r'.currentAvailable == r.currentAvailable + n
    ensures r'.currentAvailableCompete == r.currentAvailableCompete + n
    ensures r'.totalCaught == r.totalCaught
    ensures r'.toNextLevel >= 1
    ensures r'.level >= r.level
    ensures r'.id == r.id && r'.available == r.available && r'.assignedTo == r.assignedTo
  {
    LevelLoop(r.(currentAvailable := r.currentAvailable + n,
                 currentAvailableCompete := r.currentAvailableCompete + n), n, s)
  }

  /**
   * A fresh record reaches level 1 even with no fragments at all, because its
   * threshold of 0 is always met.
   */
  lemma FreshRecordLevelsUp(id: int, n: int, s: LevelStats)
    requires n >= 0 && ValidStats(s)
    ensures FastBoosted(FreshRecord(id), n, s).level >= 1
  {
  }

  /**
   * Under stats whose first level is free and whose second costs one
   * fragment, a fresh record boosted with nothing ends at level 2.
   */
  lemma {:induction false} FreeFirstLevelBoost(id: int, s: LevelStats)
    requires ValidStats(s) && LevelCost(s, 1) == 0 && LevelCost(s, 2) == 1
    ensures FastBoosted(FreshRecord(id), 0, s).level == 2
    ensures FastBoosted(FreshRecord(id), 0, s).toNextLevel == 1
  {
    var r0 := FreshRecord(id);
    assert r0.(currentAvailable := 0, currentAvailableCompete := 0) == r0;
    var r1 := LeveledUp(r0, s);
    var r2 := LeveledUp(r1, s);
    calc {
      FastBoosted(r0, 0, s);
      LevelLoop(r0, 0, s);
      LevelLoop(r1, 0, s);
      LevelLoop(r2, 0, s);
      r2.(toNextLevel := 1);
    }
  }

  /** Creature 65 is such a creature. */
  lemma WeshipeshuFreshBoost()
    ensures FastBoosted(FreshRecord(65), 0, WeshipeshuStats).level == 2
  {
    WeshipeshuCosts();
    FreeFirstLevelBoost(65, WeshipeshuStats);
  }

  /** The scouting a fresh record of `id` reaches after `FastBoost(n)`: the score of a placed stack. */
  function StackScouting(byId: map<int, Creature>, id: int, n: int): int
    requires n < 0 || ValidStats(StatsFor(byId, id))
  {
    FastBoosted(FreshRecord(id), n, StatsFor(byId, id)).scouting
  }

  // ---------------------------------------------------------------------
  // The mutable record
  // ---------------------------------------------------------------------

  class PlayerCreatureInfo {
    var id: int
    var level: int
    var available: bool
    var assignedTo: string
    var totalCaught: int
    var currentAvailable: int
    var currentAvailableCompete: int
    var toNextLevel: int
    var hintUnlocked: bool
    var strength: int
    var defense: int
    var scouting: int

    function Record(): CreatureRecord
      reads this
    {
      CreatureRecord(id, level, available, assignedTo, totalCaught, currentAvailable,
                     currentAvailableCompete, toNextLevel, hintUnlocked, strength, defense, scouting)
    }

    /** `new PlayerCreatureInfo() { id = id }`. */
    constructor (id: int)
      ensures Record() == FreshRecord(id)
    {
      this.id := id;
      level := 0;
      available := true;
      assignedTo := "";
      totalCaught := 0;
      currentAvailable := 0;
      currentAvailableCompete := 0;
      toNextLevel := 0;
      hintUnlocked := false;
      strength := 0;
      defense := 0;
      scouting := 0;
    }

    /** A record as loaded from storage. */
    constructor Load(r: CreatureRecord)
      ensures Record() == r
    {
      id := r.id;
      level := r.level;
      available := r.available;
      assignedTo := r.assignedTo;
      totalCaught := r.totalCaught;
      currentAvailable := r.currentAvailable;
      currentAvailableCompete := r.currentAvailableCompete;
      toNextLevel := r.toNextLevel;
      hintUnlocked := r.hintUnlocked;
      strength := r.strength;
      defense := r.defense;
      scouting := r.scouting;
    }

    method SetToLevel(newLevel: int, byId: map<int, Creature>)
      requires id in byId
      modifies this
      ensures Record() == AtLevel(old(Record()), newLevel, StatsFor(byId, old(id)))
    {
      level := newLevel;
      var stats := byId[id].stats;
      strength := StatAt(stats.strengthPerLevel, level);
      defense := StatAt(stats.defensePerLevel, level);
      scouting := StatAt(stats.scoutingPerLevel, level);
      toNextLevel := LevelCost(stats, level);
    }

    method LevelUp(byId: map<int, Creature>)
      requires id in byId
      modifies this
      ensures Record() == LeveledUp(old(Record()), StatsFor(byId, old(id)))
    {
      level := level + 1;
      SetToLevel(level, byId);
    }

    method BoostCreature(byId: map<int, Creature>)
      requires toNextLevel > 1 || id in byId
      modifies this
      ensures Record() == Boosted(old(Record()), StatsFor(byId, old(id)))
    {
      toNextLevel := toNextLevel - 1;
      totalCaught := totalCaught + 1;
      currentAvailable := currentAvailable + 1;
      currentAvailableCompete := currentAvailableCompete + 1;
      if toNextLevel < 1 {
        LevelUp(byId);
      }
    }

    method FastBoost(fragmentCount: int, byId: map<int, Creature>)
      requires fragmentCount < toNextLevel || (id in byId && ValidStats(byId[id].stats))
      modifies this
      ensures Record() == FastBoosted(old(Record()), fragmentCount, StatsFor(byId, old(id)))
    {
      currentAvailable := currentAvailable + fragmentCount;
      currentAvailableCompete := currentAvailableCompete + fragmentCount;
      SpendFragments(fragmentCount, byId);
    }

    /** The level-up loop of `FastBoost`. */
    method SpendFragments(fragmentCount: int, byId: map<int, Creature>)
      requires fragmentCount < toNextLevel || (id in byId && ValidStats(byId[id].stats))
      modifies this
      ensures Record() == LevelLoop(old(Record()), fragmentCount, StatsFor(byId, old(id)))
    {
      ghost var s := StatsFor(byId, id);
      var n := fragmentCount;
      while n >= toNextLevel
        invariant id == old(id) && (n < toNextLevel || (id in byId && ValidStats(s)))
        invariant LevelLoop(Record(), n, s) == LevelLoop(old(Record()), fragmentCount, s)
        decreases if level < 2 then 2 - level else 0, if toNextLevel < 1 then 1 else 0, n
      {
        LevelCostPositive(s, if level + 1 >= 2 then level + 1 else 2);
        n := n - toNextLevel;
        LevelUp(byId);
      }
      toNextLevel := toNextLevel - n;
    }
  }

  // ---------------------------------------------------------------------
  // Transfer records
  // ---------------------------------------------------------------------

  /** One occupant of a Control-mode place. */
  datatype ClaimData = ClaimData(team: int, owner: string, level: int, creatureId: int, creatureName: string)

  /** An improvement task; `lastCheck` is an instant in ticks. */
  datatype ImprovementTask = ImprovementTask(
    id: string,
    name: string,
    timePerResult: int,
    accrued: int,
    assignedCreature: int,  // `assigned` in the source; a creature id, 0 for none
    lastCheck: int,
    desc: string)

  /** `ImprovementTasks.DefaultTasks`, keyed by id as `ToDictionary(k => k.id)` does. */
  const DefaultTasks: seq<Entry<string, ImprovementTask>> := [
    Entry("clone", ImprovementTask("clone", "Find Creature", 60 * 60 * 12, 0, 0, 0,
      "Level up assigned creature slowly.")),
    Entry("ppt", ImprovementTask("ppt", "ProxyPlay Token", 60 * 60 * 24 * 7, 0, 0, 0,
      "Choose a different place to explore remotely.")),
    Entry("hint", ImprovementTask("hint", "Creature Hint", 60 * 60 * 60 * 24, 0, 0, 0,
      "A clue for the next unfound creature")),
    Entry("tst", ImprovementTask("tst", "Team Swap Token", 60 * 60 * 24 * 14, 0, 0, 0,
      "Change which team you're part of.")),
    Entry("vortex", ImprovementTask("vortex", "Vortex Token", 60 * 60 * 24, 0, 0, 0,
      "Collect all creature fragments in current map tile and neighbors."))
  ]

  /** The default tasks: five, with distinct ids, none assigned, every period positive. */
  lemma DefaultTasksShape()
    ensures |DefaultTasks| == 5 && DistinctKeys(DefaultTasks)
    ensures forall i :: 0 <= i < |DefaultTasks| ==>
      DefaultTasks[i].value.assignedCreature == 0 && DefaultTasks[i].value.timePerResult > 0 &&
      DefaultTasks[i].key == DefaultTasks[i].value.id
  {
  }
}

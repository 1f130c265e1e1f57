// The creature catalog entry (Creature.cs): spawn rules, per-level stats
// and the wandering draw.

module Creatures {
  import opened Common

  // ---------------------------------------------------------------------
  // Clock arithmetic, in .NET ticks (100 ns)
  // ---------------------------------------------------------------------

  const TicksPerSecond: int := 10_000_000
  const TicksPerMinute: int := 60 * TicksPerSecond
  const TicksPerHour: int := 60 * TicksPerMinute
  const TicksPerDay: int := 24 * TicksPerHour

  /** `new TimeOnly(h, m)`, as ticks since midnight. */
  function ClockTime(h: int, m: int): int {
    (h * 60 + m) * TicksPerMinute
  }

  /** `TimeOnly.FromDateTime(t)`: the time of day of an instant. */
  function TimeOfDay(ticks: int): (r: int)
    requires ticks >= 0
    ensures 0 <= r < TicksPerDay
  {
    ticks % TicksPerDay
  }

  /** `DateTime.DayOfYear`, by .NET's 400/100/4/1-year decomposition of the day count. */
  function InstantDayOfYear(ticks: int): (r: int)
    requires ticks >= 0
    ensures 1 <= r <= 366
  {
    var n0 := ticks / TicksPerDay;
    var n1 := n0 % 146097;
    var y100 := if n1 / 36524 == 4 then 3 else n1 / 36524;
    var n2 := n1 - y100 * 36524;
    var n3 := n2 % 1461;
    var y1 := if n3 / 365 == 4 then 3 else n3 / 365;
    n3 - y1 * 365 + 1
  }

  datatype Date = Date(year: int, month: int, day: int)

  predicate IsLeapYear(y: int) {
    y % 4 == 0 && (y % 100 != 0 || y % 400 == 0)
  }

  const DaysBeforeMonth: seq<int> := [0, 31, 59, 90, 120, 151, 181, 212, 243, 273, 304, 334]

  /** `DateOnly.DayOfYear`. */
  function DayOfYear(d: Date): int
    requires 1 <= d.month <= 12
  {
    DaysBeforeMonth[d.month - 1] + (if IsLeapYear(d.year) && d.month > 2 then 1 else 0) + d.day
  }

  // ---------------------------------------------------------------------
  // Catalog entries
  // ---------------------------------------------------------------------

  /**
   * Per-level growth.  The catalog writes these as decimals with at most two
   * places, so they are held exactly as hundredths: 2.1 is 210.
   */
  datatype LevelStats = LevelStats(
    multiplierPerLevel: int,   // hundredths
    addedPerLevel: int,
    strengthPerLevel: int,     // hundredths
    scoutingPerLevel: int,     // hundredths
    defensePerLevel: int)      // hundredths

  /** A `LevelStats` with its constructor defaults (2.1, 0, 1, 1, 1). */
  const DefaultStats: LevelStats := LevelStats(210, 0, 100, 100, 100)

  /** `TimeSpawnEntry`: a time-of-day window, in ticks since midnight. */
  datatype TimeWindow = TimeWindow(start: int, end: int)

  /** `DateSpawnEntry`: a calendar window. */
  datatype DateWindow = DateWindow(start: Date, end: Date)

  datatype Creature = Creature(
    id: int,
    name: string,
    stats: LevelStats,
    terrainSpawns: seq<Entry<string, int>>,
    areaSpawns: seq<Entry<string, int>>,
    placeSpawns: seq<Entry<string, int>>,
    specificSpawns: seq<string>,
    isPermanent: bool,
    activeCatchDifficulty: int,
    isWild: bool,
    isHidden: bool,
    passportReward: bool,
    spawnTimes: seq<TimeWindow>,
    spawnDates: seq<DateWindow>,
    wanderOdds: int,
    wanderSpawnEntries: int,
    wandersAfterDays: int)

  /** `tierRating`: the three per-level stats summed, truncated, divided by 5. */
  function TierRating(s: LevelStats): int {
    TruncDiv(s.strengthPerLevel + s.defensePerLevel + s.scoutingPerLevel, 100) / 5
  }

  /** `(long)(level * perLevel)` for a per-level value held in hundredths. */
  function StatAt(perLevel: int, level: int): int {
    TruncDiv(level * perLevel, 100)
  }

  /** The fragments needed to leave `level`, as `SetToLevel` computes `toNextLevel`. */
  function LevelCost(s: LevelStats, level: int): int {
    StatAt(s.multiplierPerLevel, level) + s.addedPerLevel * level
  }

  /**
   * Stats under which a level-up loop makes progress: from level 2 on every
   * level costs at least one fragment.  Every catalog entry satisfies this
   * (the smallest multiplier is 0.8, and most entries add at least 1).
   */
  predicate ValidStats(s: LevelStats) {
    s.multiplierPerLevel >= 0 && s.addedPerLevel >= 0 &&
    (s.addedPerLevel >= 1 || s.multiplierPerLevel >= 50)
  }

  lemma {:induction false} LevelCostPositive(s: LevelStats, level: int)
    requires ValidStats(s) && level >= 2
    ensures LevelCost(s, level) >= 1
  {
    if s.addedPerLevel >= 1 {
      assert s.addedPerLevel * level >= level by {
        assert s.addedPerLevel * level - level == (s.addedPerLevel - 1) * level;
      }
      assert level * s.multiplierPerLevel >= 0;
    } else {
      assert level * s.multiplierPerLevel >= 100 by {
        assert level * s.multiplierPerLevel - 100 ==
          (level - 2) * s.multiplierPerLevel + 2 * (s.multiplierPerLevel - 50);
        assert (level - 2) * s.multiplierPerLevel >= 0;
      }
    }
  }

  /** `creaturesById`: every key names its own entry and every entry has usable stats. */
  ghost predicate WellFormedCatalog(byId: map<int, Creature>) {
    forall id :: id in byId ==> byId[id].id == id && ValidStats(byId[id].stats)
  }

  // ---------------------------------------------------------------------
  // Spawn rules
  // ---------------------------------------------------------------------

  predicate TimeMatches(w: TimeWindow, timeOfDay: int) {
    w.start <= timeOfDay && w.end >= timeOfDay
  }

  predicate DateMatches(w: DateWindow, ticks: int)
    requires ticks >= 0
  {
    1 <= w.start.month <= 12 && 1 <= w.end.month <= 12 &&
    DayOfYear(w.start) <= InstantDayOfYear(ticks) &&
    DayOfYear(w.end) >= InstantDayOfYear(ticks)
  }

  predicate WellFormedDates(c: Creature) {
    forall i :: 0 <= i < |c.spawnDates| ==>
      1 <= c.spawnDates[i].start.month <= 12 && 1 <= c.spawnDates[i].end.month <= 12
  }

  /** `Creature.CanSpawnNow(adjustedDate)`. */
  predicate CanSpawnNow(c: Creature, ticks: int)
    requires ticks >= 0
  {
    (|c.spawnTimes| == 0 ||
      exists i :: 0 <= i < |c.spawnTimes| && TimeMatches(c.spawnTimes[i], TimeOfDay(ticks))) &&
    (|c.spawnDates| == 0 ||
      exists i :: 0 <= i < |c.spawnDates| && DateMatches(c.spawnDates[i], ticks))
  }

  /** A creature without time or date rules may spawn at every instant. */
  lemma UnrestrictedAlwaysSpawns(c: Creature, ticks: int)
    requires ticks >= 0 && |c.spawnTimes| == 0 && |c.spawnDates| == 0
    ensures CanSpawnNow(c, ticks)
  {
  }

  /**
   * Time windows are inclusive at both ends, and one whose start lies after
   * its end matches nothing; this is why a window across midnight is written
   * as two entries.
   */
  lemma TimeWindowBounds(w: TimeWindow, t: int)
    ensures TimeMatches(w, w.start) <==> w.start <= w.end
    ensures TimeMatches(w, w.end) <==> w.start <= w.end
    ensures w.start > w.end ==> !TimeMatches(w, t)
  {
  }

  /**
   * The result is the conjunction of the two rule families: each holds when
   * it is empty or when one of its windows matches.
   */
  lemma {:induction false} CanSpawnNowCharacterised(c: Creature, ticks: int)
    requires ticks >= 0 && WellFormedDates(c)
    ensures CanSpawnNow(c, ticks) <==>
      (|c.spawnTimes| == 0 || exists w :: w in c.spawnTimes && TimeMatches(w, TimeOfDay(ticks))) &&
      (|c.spawnDates| == 0 || exists w :: w in c.spawnDates && DateMatches(w, ticks))
  {
    var tod := TimeOfDay(ticks);
    if exists w :: w in c.spawnTimes && TimeMatches(w, tod) {
      var w :| w in c.spawnTimes && TimeMatches(w, tod);
      var i :| 0 <= i < |c.spawnTimes| && c.spawnTimes[i] == w;
    }
    if exists w :: w in c.spawnDates && DateMatches(w, ticks) {
      var w :| w in c.spawnDates && DateMatches(w, ticks);
      var i :| 0 <= i < |c.spawnDates| && c.spawnDates[i] == w;
    }
  }

  /**
   * A date window is compared by day of year only, so shifting its entries
   * to another year of the same leap status changes nothing.
   */
  lemma DateWindowIgnoresYear(w: DateWindow, y1: int, y2: int, ticks: int)
    requires ticks >= 0
    requires IsLeapYear(y1) == IsLeapYear(y2)
    ensures
      var w' := DateWindow(w.start.(year := y1), w.end.(year := y2));
      DateMatches(w', ticks) <==> DateMatches(w.(start := w.start.(year := y1), end := w.end.(year := y1)), ticks)
  {
  }

  /**
   * The year still shows through leap days: 21 March is day 81 of 2000 but
   * day 80 of 2001, so a window written with year 2000 starts one calendar
   * day later in a common year.
   */
  lemma LeapYearShiftsWindows()
    ensures DayOfYear(Date(2000, 3, 21)) == 81
    ensures DayOfYear(Date(2001, 3, 21)) == 80
  {
  }

  // ---------------------------------------------------------------------
  // Wandering
  // ---------------------------------------------------------------------

  /** Unchecked conversion to a 32-bit `int`, as C# performs it. */
  function Wrap32(x: int): (r: int)
    ensures -0x8000_0000 <= r < 0x8000_0000
    ensures (r - x) % 0x1_0000_0000 == 0
  {
    var m := x % 0x1_0000_0000;
    if m >= 0x8000_0000 then m - 0x1_0000_0000 else m
  }

  /** The wander period an instant falls in: `(Ticks / TicksPerDay) / wandersAfterDays`. */
  function WanderBlock(c: Creature, ticks: int): int
    requires ticks >= 0 && c.wandersAfterDays > 0
  {
    (ticks / TicksPerDay) / c.wandersAfterDays
  }

  /** The seed of `SpawnWander`: code hash + period + id, in unchecked 32-bit arithmetic. */
  function WanderSeed(c: Creature, codeHash: int, ticks: int): int
    requires ticks >= 0 && c.wandersAfterDays > 0
  {
    Wrap32(Wrap32(codeHash + Wrap32(WanderBlock(c, ticks))) + Wrap32(c.id))
  }

  /**
   * `seededNext(seed, bound)` stands for `new Random(seed).Next(bound)`: a
   * fixed function of its arguments, below `bound` when `bound` is positive.
   */
  ghost predicate ValidSeededNext(seededNext: (int, int) -> int) {
    forall seed, bound :: bound > 0 ==> 0 <= seededNext(seed, bound) < bound
  }

  /** The draw of `SpawnWander`; `Random.Next(0)` is 0. */
  function WanderDraw(c: Creature, codeHash: int, ticks: int, seededNext: (int, int) -> int): int
    requires ticks >= 0 && c.wandersAfterDays > 0
  {
    if c.wanderOdds == 0 then 0 else seededNext(WanderSeed(c, codeHash, ticks), c.wanderOdds)
  }

  /** `Creature.SpawnWander(plusCode, dateTime)`, with the code's hash given. */
  predicate SpawnWander(c: Creature, codeHash: int, ticks: int, seededNext: (int, int) -> int)
    requires ticks >= 0 && c.wandersAfterDays > 0
  {
    WanderDraw(c, codeHash, ticks, seededNext) <= 1
  }

  /** Two instants in the same wander period give the same answer. */
  lemma WanderStableWithinPeriod(c: Creature, codeHash: int, t1: int, t2: int, seededNext: (int, int) -> int)
    requires t1 >= 0 && t2 >= 0 && c.wandersAfterDays > 0
    requires WanderBlock(c, t1) == WanderBlock(c, t2)
    ensures SpawnWander(c, codeHash, t1, seededNext) == SpawnWander(c, codeHash, t2, seededNext)
  {
  }

  /** Odds of 1 or 2 make the creature wander into every cell in every period. */
  lemma SmallOddsAlwaysWander(c: Creature, codeHash: int, ticks: int, seededNext: (int, int) -> int)
    requires ticks >= 0 && c.wandersAfterDays > 0 && ValidSeededNext(seededNext)
    requires 0 <= c.wanderOdds <= 2
    ensures SpawnWander(c, codeHash, ticks, seededNext)
  {
  }

  // ---------------------------------------------------------------------
  // Catalog facts used elsewhere
  // ---------------------------------------------------------------------

  /** Stats of creature 65 (We-shipeshu): multiplier 0.89 and nothing added. */
  const WeshipeshuStats: LevelStats := LevelStats(89, 0, 750, 1000, 750)

  /** Its first level is free; from level 2 on every level costs something. */
  lemma WeshipeshuCosts()
    ensures ValidStats(WeshipeshuStats)
    ensures LevelCost(WeshipeshuStats, 1) == 0
    ensures LevelCost(WeshipeshuStats, 2) == 1
  {
  }
}

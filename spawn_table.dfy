// The spawn table of a Cell8 (CommonHelpers.cs, GenerateSpawnTable): every
// creature that may appear there now, with repeats as weights.  The facts
// about the map (the terrain of each Cell10, the places) and the draws of
// the code-seeded random stream are parameters.

module SpawnTables {
  import opened Common
  import opened Creatures
  import opened Startup

  /** The Open Location Code alphabet; 'F' is at index 9. */
  const CodeAlphabet: string := "23456789CFGHJMPQRVWX"

  /** The draws of the code-seeded random stream, in the order they are taken. */
  datatype SeededDraws = SeededDraws(nestActive: int, nestType: int, nestSize: int, wander: seq<int>)

  /**
   * The draws `Next(26)`, `Next(|gameplayAreas|)`, `Next(25, 225)` and one
   * `Next(odds * week)` per wanderer.
   */
  predicate ValidDraws(d: SeededDraws, areaCount: int, wanderers: seq<Creature>, week: int) {
    0 <= d.nestActive < 26 &&
    (if areaCount > 0 then 0 <= d.nestType < areaCount else d.nestType == 0) &&
    25 <= d.nestSize < 225 &&
    |d.wander| == |wanderers| &&
    forall i :: 0 <= i < |wanderers| ==> WanderDraw(d.wander[i], wanderers[i].wanderOdds * week)
  }

  /** `Next(max)`: below `max`, and 0 when `max` is 0. */
  predicate WanderDraw(draw: int, max: int) {
    if max > 0 then 0 <= draw < max else draw == 0
  }

  /** Hours of shift for a code: the index of its second character in the alphabet, less 9 (-10 when absent). */
  function TimeShift(plusCode: string): (h: int)
    requires |plusCode| >= 2
    ensures -10 <= h <= 10
    ensures h == -10 <==> plusCode[1] !in CodeAlphabet
  {
    IndexOf(CodeAlphabet, plusCode[1]) - 9
  }

  /** One step of shift: an hour and 24 minutes. */
  const ShiftStep: int := TicksPerHour + 24 * TicksPerMinute

  /** `AddHours(h).AddMinutes(h * 24)`, in ticks. */
  function ShiftTicks(h: int): int {
    h * TicksPerHour + h * 24 * TicksPerMinute
  }

  /** The instant the spawn rules are checked at: `now`, shifted by the code's number of steps. */
  function ShiftedTime(plusCode: string, now: int): int
    requires |plusCode| >= 2
  {
    now + ShiftTicks(TimeShift(plusCode))
  }

  /** Cell8s in the 'F' band of latitude keep the real time. */
  lemma NoShiftInBandF(plusCode: string, now: int)
    requires |plusCode| >= 2 && plusCode[1] == 'F'
    ensures ShiftedTime(plusCode, now) == now
  {
    ZeroShiftAtF(plusCode);
    ShiftSteps(0);
  }

  lemma ZeroShiftAtF(plusCode: string)
    requires |plusCode| >= 2 && plusCode[1] == 'F'
    ensures TimeShift(plusCode) == 0
  {
    NoShiftAtF();
  }

  /** Other Cell8s are shifted by a whole number of steps, at most 10 either way. */
  lemma ShiftedTimeBounds(plusCode: string, now: int)
    requires |plusCode| >= 2
    ensures ShiftedTime(plusCode, now) == now + TimeShift(plusCode) * ShiftStep
    ensures now - 10 * ShiftStep <= ShiftedTime(plusCode, now) <= now + 10 * ShiftStep
  {
    ShiftSteps(TimeShift(plusCode));
  }

  lemma ShiftSteps(h: int)
    requires -10 <= h <= 10
    ensures ShiftTicks(h) == h * ShiftStep
    ensures -10 * ShiftStep <= ShiftTicks(h) <= 10 * ShiftStep
    ensures h == 0 ==> ShiftTicks(h) == 0
  {
    assert TicksPerMinute == 600_000_000 && TicksPerHour == 36_000_000_000 && ShiftStep == 50_400_000_000;
  }

  lemma NoShiftAtF()
    ensures IndexOf(CodeAlphabet, 'F') == 9
  {
    var prefix := CodeAlphabet[..9];
    assert prefix == "23456789C";
    assert 'F' !in prefix;
    FirstIndex(CodeAlphabet, 'F', 9);
  }

  lemma FirstIndex(s: string, c: char, i: int)
    requires 0 <= i < |s| && s[i] == c && c !in s[..i]
    ensures IndexOf(s, c) == i
  {
  }

  /** Every id in the table's lists names a catalog creature. */
  ghost predicate KnownIds(t: Table<string>, byId: map<int, Creature>) {
    forall i :: 0 <= i < |t| ==> forall id :: id in t[i].value ==> id in byId
  }

  predicate AllSpawnable(cs: seq<Creature>, ticks: int)
    requires ticks >= 0
  {
    forall c :: c in cs ==> CanSpawnNow(c, ticks)
  }

  /** `list.Where(t => t.CanSpawnNow(shiftedTime))`, on a list of catalog ids. */
  function Spawnable(ids: seq<int>, byId: map<int, Creature>, ticks: int): (r: seq<Creature>)
    requires ticks >= 0
    requires forall k :: k in ids ==> k in byId
    ensures AllSpawnable(r, ticks)
    ensures |r| <= |ids|
    decreases |ids|
  {
    if ids == [] then []
    else
      var init := ids[..|ids| - 1];
      var last := ids[|ids| - 1];
      assert last in ids;
      var c := byId[last];
      assert forall id :: id in init ==> id in ids;
      Spawnable(init, byId, ticks) + (if CanSpawnNow(c, ticks) then [c] else [])
  }

  // ---------------------------------------------------------------------
  // The parts of the table
  // ---------------------------------------------------------------------

  /**
   * `tempTerrainDict`: for each terrain table whose key is among the types
   * present, its spawnable creatures (built in table order).
   */
  function TerrainLists(t: Table<string>, types: seq<string>, byId: map<int, Creature>, ticks: int): (m: map<string, seq<Creature>>)
    requires ticks >= 0 && KnownIds(t, byId)
    ensures forall k :: k in m ==> k in types && AllSpawnable(m[k], ticks)
    decreases |t|
  {
    if t == [] then map[]
    else
      var init, last := t[..|t| - 1], t[|t| - 1];
      assert KnownIds(init, byId);
      var m := TerrainLists(init, types, byId, ticks);
      if last.key in types then m[last.key := Spawnable(last.value, byId, ticks)] else m
  }

  /** What each present type adds: its list, once per type, in order of first appearance. */
  function TerrainPart(types: seq<string>, lists: map<string, seq<Creature>>): seq<Creature>
    decreases |types|
  {
    if types == [] then []
    else
      var k := types[|types| - 1];
      TerrainPart(types[..|types| - 1], lists) + (if k in lists then lists[k] else [])
  }

  /** Every area key that prefixes the code, the global "" included, adds its spawnable list. */
  function AreaPart(t: Table<string>, plusCode: string, byId: map<int, Creature>, ticks: int): seq<Creature>
    requires ticks >= 0 && KnownIds(t, byId)
    decreases |t|
  {
    if t == [] then []
    else
      var init, last := t[..|t| - 1], t[|t| - 1];
      assert KnownIds(init, byId);
      AreaPart(init, plusCode, byId, ticks) + (if StartsWith(plusCode, last.key) then Spawnable(last.value, byId, ticks) else [])
  }

  /** Each place (by its element name, repeats included) adds its table's spawnable list. */
  function PlacePart(t: Table<string>, places: seq<string>, byId: map<int, Creature>, ticks: int): seq<Creature>
    requires ticks >= 0 && KnownIds(t, byId)
    decreases |places|
  {
    if places == [] then []
    else
      var p := places[|places| - 1];
      var rest := PlacePart(t, places[..|places| - 1], byId, ticks);
      match Find(t, p)
      case None => rest
      case Some(ids) =>
        FindInTable(t, p, byId);
        rest + Spawnable(ids, byId, ticks)
  }

  lemma {:induction false} FindInTable(t: Table<string>, k: string, byId: map<int, Creature>)
    requires KnownIds(t, byId) && Find(t, k).Some?
    ensures forall id :: id in Find(t, k).value ==> id in byId
  {
    if t[0].key != k {
      assert KnownIds(t[1..], byId);
      FindInTable(t[1..], k, byId);
    }
  }

  /** A nest is active when the first draw, plus one, equals the week modulo 26. */
  predicate NestActive(d: SeededDraws, week: int) {
    d.nestActive + 1 == week % 26
  }

  /** `xs`, `n` times over. */
  function Copies(xs: seq<Creature>, n: int): (r: seq<Creature>)
    ensures |r| == Max(0, n) * |xs|
    ensures forall c :: c in r ==> c in xs
    decreases n
  {
    if n <= 0 then [] else Copies(xs, n - 1) + xs
  }

  /** An active, enabled nest adds its terrain's list once per Cell10 of the nest, if that terrain is present. */
  function NestPart(lists: map<string, seq<Creature>>, gameplayAreas: seq<string>, d: SeededDraws, week: int, nestsEnabled: bool): seq<Creature>
    requires 0 <= d.nestType < |gameplayAreas| || !(NestActive(d, week) && nestsEnabled)
  {
    if NestActive(d, week) && nestsEnabled && gameplayAreas[d.nestType] in lists then Copies(lists[gameplayAreas[d.nestType]], d.nestSize)
    else []
  }

  /** A wanderer is in this week when its draw is at most the week number less one. */
  predicate WanderAllowed(draw: int, week: int) {
    draw <= week - 1
  }

  /** Each wanderer allowed this week adds `wanderSpawnEntries` copies of itself. */
  function WanderPart(ws: seq<Creature>, draws: seq<int>, week: int): (r: seq<Creature>)
    requires |draws| == |ws|
    ensures forall c :: c in r ==> c in ws
    decreases |ws|
  {
    if ws == [] then []
    else
      var n := |ws| - 1;
      var r := WanderPart(ws[..n], draws[..n], week);
      assert forall c :: c in ws[..n] ==> c in ws;
      assert ws[n] in ws;
      RepeatElements(ws[n], ws[n].wanderSpawnEntries);
      r + (if WanderAllowed(draws[n], week) then Repeat(ws[n], ws[n].wanderSpawnEntries) else [])
  }

  /** The facts about the Cell8 the table is built from. */
  datatype CellFacts = CellFacts(plusCode: string, terrainInfo: seq<string>, places: seq<string>)

  /** The process-wide tables and lists the table is built from. */
  datatype Pools = Pools(
    terrainSpawnTables: Table<string>,
    areaSpawnTables: Table<string>,
    placeSpawnTables: Table<string>,
    wanderingCreatures: seq<Creature>,
    gameplayAreas: seq<string>,
    nestsEnabled: bool)

  ghost predicate ValidInputs(cell: CellFacts, pools: Pools, byId: map<int, Creature>, now: int, week: int, d: SeededDraws) {
    |cell.plusCode| >= 2 && ShiftedTime(cell.plusCode, now) >= 0 && 1 <= week <= 53 &&
    KnownIds(pools.terrainSpawnTables, byId) && KnownIds(pools.areaSpawnTables, byId) && KnownIds(pools.placeSpawnTables, byId) &&
    ValidDraws(d, |pools.gameplayAreas|, pools.wanderingCreatures, week) &&
    (NestActive(d, week) && pools.nestsEnabled ==> |pools.gameplayAreas| > 0)
  }

  /** The whole table: terrains, areas, places, the nest, then the wanderers. */
  function SpawnTableOf(cell: CellFacts, pools: Pools, byId: map<int, Creature>, now: int, week: int, d: SeededDraws): seq<Creature>
    requires ValidInputs(cell, pools, byId, now, week, d)
  {
    var ticks := ShiftedTime(cell.plusCode, now);
    var lists := TerrainLists(pools.terrainSpawnTables, Dedup(cell.terrainInfo), byId, ticks);
    TerrainPart(Dedup(cell.terrainInfo), lists) +
    AreaPart(pools.areaSpawnTables, cell.plusCode, byId, ticks) +
    PlacePart(pools.placeSpawnTables, cell.places, byId, ticks) +
    NestPart(lists, pools.gameplayAreas, d, week, pools.nestsEnabled) +
    WanderPart(pools.wanderingCreatures, d.wander, week)
  }

  // ---------------------------------------------------------------------
  // Building it
  // ---------------------------------------------------------------------

  method BuildTerrainLists(t: Table<string>, types: seq<string>, byId: map<int, Creature>, ticks: int)
    returns (m: map<string, seq<Creature>>)
    requires ticks >= 0 && KnownIds(t, byId)
    ensures m == TerrainLists(t, types, byId, ticks)
  {
    m := map[];
    var i := 0;
    while i < |t|
      invariant 0 <= i <= |t| && KnownIds(t[..i], byId)
      invariant m == TerrainLists(t[..i], types, byId, ticks)
    {
      assert t[..i + 1][..i] == t[..i];
      if t[i].key in types {
        m := m[t[i].key := Spawnable(t[i].value, byId, ticks)];
      }
      i := i + 1;
    }
    assert t[..i] == t;
  }

  method AddTerrainLists(table: seq<Creature>, types: seq<string>, lists: map<string, seq<Creature>>)
    returns (table': seq<Creature>)
    ensures table' == table + TerrainPart(types, lists)
  {
    table' := table;
    var i := 0;
    while i < |types|
      invariant 0 <= i <= |types|
      invariant table' == table + TerrainPart(types[..i], lists)
    {
      assert types[..i + 1][..i] == types[..i];
      if types[i] in lists {
        table' := table' + lists[types[i]];
      }
      i := i + 1;
    }
    assert types[..i] == types;
  }

  method AddAreaLists(table: seq<Creature>, t: Table<string>, plusCode: string, byId: map<int, Creature>, ticks: int)
    returns (table': seq<Creature>)
    requires ticks >= 0 && KnownIds(t, byId)
    ensures table' == table + AreaPart(t, plusCode, byId, ticks)
  {
    table' := table;
    var i := 0;
    while i < |t|
      invariant 0 <= i <= |t| && KnownIds(t[..i], byId)
      invariant table' == table + AreaPart(t[..i], plusCode, byId, ticks)
    {
      assert t[..i + 1][..i] == t[..i];
      if StartsWith(plusCode, t[i].key) {
        table' := table' + Spawnable(t[i].value, byId, ticks);
      }
      i := i + 1;
    }
    assert t[..i] == t;
  }

  method AddPlaceLists(table: seq<Creature>, t: Table<string>, places: seq<string>, byId: map<int, Creature>, ticks: int)
    returns (table': seq<Creature>)
    requires ticks >= 0 && KnownIds(t, byId)
    ensures table' == table + PlacePart(t, places, byId, ticks)
  {
    table' := table;
    var i := 0;
    while i < |places|
      invariant 0 <= i <= |places|
      invariant table' == table + PlacePart(t, places[..i], byId, ticks)
    {
      assert places[..i + 1][..i] == places[..i];
      var found := Find(t, places[i]);
      if found.Some? {
        FindInTable(t, places[i], byId);
        table' := table' + Spawnable(found.value, byId, ticks);
      }
      i := i + 1;
    }
    assert places[..i] == places;
  }

  method AddNest(table: seq<Creature>, lists: map<string, seq<Creature>>, gameplayAreas: seq<string>, d: SeededDraws,
                 week: int, nestsEnabled: bool)
    returns (table': seq<Creature>)
    requires 0 <= d.nestType < |gameplayAreas| || !(NestActive(d, week) && nestsEnabled)
    ensures table' == table + NestPart(lists, gameplayAreas, d, week, nestsEnabled)
  {
    table' := table;
    if NestActive(d, week) && nestsEnabled {
      var i := 0;
      while i < d.nestSize
        invariant 0 <= i <= Max(0, d.nestSize)
        invariant gameplayAreas[d.nestType] in lists ==> table' == table + Copies(lists[gameplayAreas[d.nestType]], i)
        invariant gameplayAreas[d.nestType] !in lists ==> table' == table
      {
        if gameplayAreas[d.nestType] in lists {
          table' := table' + lists[gameplayAreas[d.nestType]];
        }
        i := i + 1;
      }
    }
  }

  /** `for (i < n) table.Add(w)`. */
  method AddCopies(table: seq<Creature>, w: Creature, n: int) returns (table': seq<Creature>)
    ensures table' == table + Repeat(w, n)
  {
    table' := table;
    var i := 0;
    while i < n
      invariant 0 <= i <= Max(0, n)
      invariant table' == table + Repeat(w, i)
    {
      RepeatSnoc(w, i);
      table' := table' + [w];
      i := i + 1;
    }
  }

  lemma {:induction false} RepeatSnoc(w: Creature, n: int)
    requires n >= 0
    ensures Repeat(w, n + 1) == Repeat(w, n) + [w]
    decreases n
  {
    if n > 0 {
      RepeatSnoc(w, n - 1);
    }
  }

  method AddWanderers(table: seq<Creature>, ws: seq<Creature>, draws: seq<int>, week: int) returns (table': seq<Creature>)
    requires |draws| == |ws|
    ensures table' == table + WanderPart(ws, draws, week)
  {
    table' := table;
    var i := 0;
    while i < |ws|
      invariant 0 <= i <= |ws|
      invariant table' == table + WanderPart(ws[..i], draws[..i], week)
    {
      assert ws[..i + 1][..i] == ws[..i] && draws[..i + 1][..i] == draws[..i];
      if WanderAllowed(draws[i], week) {
        table' := AddCopies(table', ws[i], ws[i].wanderSpawnEntries);
      }
      i := i + 1;
    }
    assert ws[..i] == ws && draws[..i] == draws;
  }

  /**
   * `GenerateSpawnTable`: the spawn rules are checked at the code's shifted
   * time; each terrain type present adds its list, then each area prefixing
   * the code, each place, an active nest, and the wanderers allowed this week.
   */
  method GenerateSpawnTable(cell: CellFacts, pools: Pools, byId: map<int, Creature>, now: int, week: int, d: SeededDraws)
    returns (table: seq<Creature>)
    requires ValidInputs(cell, pools, byId, now, week, d)
    ensures table == SpawnTableOf(cell, pools, byId, now, week, d)
  {
    var shiftedTime := ShiftedTime(cell.plusCode, now);
    var terrainCounts := Dedup(cell.terrainInfo);
    var tempTerrainDict := BuildTerrainLists(pools.terrainSpawnTables, terrainCounts, byId, shiftedTime);
    table := AddTerrainLists([], terrainCounts, tempTerrainDict);
    assert table == TerrainPart(terrainCounts, tempTerrainDict);
    table := AddAreaLists(table, pools.areaSpawnTables, cell.plusCode, byId, shiftedTime);
    table := AddPlaceLists(table, pools.placeSpawnTables, cell.places, byId, shiftedTime);
    table := AddNest(table, tempTerrainDict, pools.gameplayAreas, d, week, pools.nestsEnabled);
    table := AddWanderers(table, pools.wanderingCreatures, d.wander, week);
  }

  // ---------------------------------------------------------------------
  // Properties
  // ---------------------------------------------------------------------

  lemma {:induction false} TerrainPartSpawnable(types: seq<string>, lists: map<string, seq<Creature>>, ticks: int)
    requires ticks >= 0 && forall k :: k in lists ==> AllSpawnable(lists[k], ticks)
    ensures AllSpawnable(TerrainPart(types, lists), ticks)
    decreases |types|
  {
    if types != [] {
      TerrainPartSpawnable(types[..|types| - 1], lists, ticks);
    }
  }

  lemma {:induction false} AreaPartSpawnable(t: Table<string>, plusCode: string, byId: map<int, Creature>, ticks: int)
    requires ticks >= 0 && KnownIds(t, byId)
    ensures AllSpawnable(AreaPart(t, plusCode, byId, ticks), ticks)
    decreases |t|
  {
    if t != [] {
      assert KnownIds(t[..|t| - 1], byId);
      AreaPartSpawnable(t[..|t| - 1], plusCode, byId, ticks);
    }
  }

  lemma {:induction false} PlacePartSpawnable(t: Table<string>, places: seq<string>, byId: map<int, Creature>, ticks: int)
    requires ticks >= 0 && KnownIds(t, byId)
    ensures AllSpawnable(PlacePart(t, places, byId, ticks), ticks)
    decreases |places|
  {
    if places != [] {
      PlacePartSpawnable(t, places[..|places| - 1], byId, ticks);
    }
  }

  /**
   * Everything in the table may spawn at the shifted time, except the
   * wanderers, whose weekly draw stands in for the time rules.
   */
  lemma SpawnTableSound(cell: CellFacts, pools: Pools, byId: map<int, Creature>, now: int, week: int, d: SeededDraws)
    requires ValidInputs(cell, pools, byId, now, week, d)
    ensures var ticks := ShiftedTime(cell.plusCode, now);
      forall c :: c in SpawnTableOf(cell, pools, byId, now, week, d) ==>
        CanSpawnNow(c, ticks) || c in pools.wanderingCreatures
  {
    var ticks := ShiftedTime(cell.plusCode, now);
    var types := Dedup(cell.terrainInfo);
    var lists := TerrainLists(pools.terrainSpawnTables, types, byId, ticks);
    TerrainPartSpawnable(types, lists, ticks);
    AreaPartSpawnable(pools.areaSpawnTables, cell.plusCode, byId, ticks);
    PlacePartSpawnable(pools.placeSpawnTables, cell.places, byId, ticks);
  }

  /**
   * Terrain counts play no part: one more Cell10 of a terrain already present
   * leaves the table as it was.
   */
  lemma ExtraCellOfPresentTerrain(cell: CellFacts, pools: Pools, byId: map<int, Creature>, now: int, week: int, d: SeededDraws, t: string)
    requires ValidInputs(cell, pools, byId, now, week, d) && t in cell.terrainInfo
    ensures SpawnTableOf(cell.(terrainInfo := cell.terrainInfo + [t]), pools, byId, now, week, d) ==
            SpawnTableOf(cell, pools, byId, now, week, d)
  {
    var s := cell.terrainInfo + [t];
    assert s[..|s| - 1] == cell.terrainInfo;
  }

  /**
   * The global area "" prefixes every code, so its spawnable creatures are
   * in every Cell8's table.
   */
  lemma {:induction false} GlobalAreaEverywhere(t: Table<string>, plusCode: string, byId: map<int, Creature>, ticks: int, i: int)
    requires ticks >= 0 && KnownIds(t, byId) && 0 <= i < |t| && t[i].key == ""
    ensures forall c :: c in Spawnable(t[i].value, byId, ticks) ==> c in AreaPart(t, plusCode, byId, ticks)
    decreases |t|
  {
    var init := t[..|t| - 1];
    assert KnownIds(init, byId);
    if i < |t| - 1 {
      assert init[i] == t[i];
      GlobalAreaEverywhere(init, plusCode, byId, ticks, i);
    } else {
      assert StartsWith(plusCode, "");
    }
  }

  /**
   * With distinct wanderers, an allowed wanderer appears exactly
   * `wanderSpawnEntries` times (none when that is not positive), and one not
   * allowed does not appear.
   */
  lemma {:induction false} WandererWeight(ws: seq<Creature>, draws: seq<int>, week: int, i: int)
    requires |draws| == |ws| && Distinct(ws) && 0 <= i < |ws|
    ensures multiset(WanderPart(ws, draws, week))[ws[i]] ==
      if WanderAllowed(draws[i], week) then Max(0, ws[i].wanderSpawnEntries) else 0
    decreases |ws|
  {
    var n := |ws| - 1;
    var w := ws[i];
    RepeatCount(ws[n], ws[n].wanderSpawnEntries, w);
    if i < n {
      assert ws[..n][i] == w && draws[..n][i] == draws[i];
      assert Distinct(ws[..n]);
      WandererWeight(ws[..n], draws[..n], week, i);
    } else {
      assert w !in ws[..n];
      assert multiset(WanderPart(ws[..n], draws[..n], week))[w] == 0;
    }
  }

  /**
   * The nest test compares a number from 1 to 26 with the week modulo 26, so
   * no nest is ever active in weeks 26 and 52.
   */
  lemma NoNestInWeeks26And52(d: SeededDraws, week: int)
    requires 0 <= d.nestActive && (week == 26 || week == 52)
    ensures !NestActive(d, week)
  {
  }

  /** An active, enabled nest on a present terrain repeats that terrain's list once per Cell10 of the nest. */
  lemma NestWeight(lists: map<string, seq<Creature>>, gameplayAreas: seq<string>, d: SeededDraws, week: int)
    requires 0 <= d.nestType < |gameplayAreas| && 25 <= d.nestSize < 225 && NestActive(d, week)
    requires gameplayAreas[d.nestType] in lists
    ensures |NestPart(lists, gameplayAreas, d, week, true)| == d.nestSize * |lists[gameplayAreas[d.nestType]]|
    ensures NestPart(lists, gameplayAreas, d, week, false) == []
  {
  }
}

// Graduation (CreatureController.cs): a player gives their chosen creature
// one more spawn entry in an area of their choice, and their account starts
// over.

module Graduation {
  import opened Common
  import opened Creatures
  import opened Progression
  import opened Records
  import opened Startup

  /** What graduating writes: the catalog and its version, the area tables, and the player's fresh start. */
  datatype GraduateOutcome = GraduateOutcome(
    creatureList: seq<Creature>,
    creaturesById: map<int, Creature>,
    areaSpawnTables: SpawnTable,
    version: int,
    account: Account,
    creatures: CreatureData,
    tasks: seq<Entry<string, ImprovementTask>>,
    grantBlocks: map<string, int>)

  /** The chosen creature with one more spawn entry in `area`: the count goes up, or starts at 1. */
  function WithAreaSpawn(c: Creature, area: string): (c': Creature)
    ensures c' == c.(areaSpawns := c'.areaSpawns)
    ensures Find(c'.areaSpawns, area) == Some(GetOr(c.areaSpawns, area, 0) + 1)
    ensures forall k :: k != area ==> Find(c'.areaSpawns, k) == Find(c.areaSpawns, k)
  {
    FindPutAll(c.areaSpawns, area, GetOr(c.areaSpawns, area, 0) + 1);
    c.(areaSpawns := Put(c.areaSpawns, area, GetOr(c.areaSpawns, area, 0) + 1))
  }

  lemma FindPutAll<V>(d: seq<Entry<string, V>>, k: string, v: V)
    ensures forall q :: Find(Put(d, k, v), q) == if q == k then Some(v) else Find(d, q)
  {
    forall q {
      FindPut(d, k, v, q);
    }
  }

  /** The area table with the creature's id once more at the end of the area's list. */
  function WithTableEntry(t: SpawnTable, area: string, id: int): (t': SpawnTable)
    ensures Find(t', area) == Some(GetOr(t, area, []) + [id])
    ensures forall k :: k != area ==> Find(t', k) == Find(t, k)
  {
    FindPutAll(t, area, GetOr(t, area, []) + [id]);
    Put(t, area, GetOr(t, area, []) + [id])
  }

  /** Every catalog entry of the chosen id replaced by its updated value (the list and the map share it). */
  function Replaced(cs: seq<Creature>, c': Creature): (r: seq<Creature>)
    ensures |r| == |cs|
    ensures forall i :: 0 <= i < |cs| ==> r[i] == if cs[i].id == c'.id then c' else cs[i]
  {
    seq(|cs|, i requires 0 <= i < |cs| => if cs[i].id == c'.id then c' else cs[i])
  }

  /**
   * `Graduate`: an unknown creature id throws before anything is written.
   * For an area that is a plus code, the creature's spawn count there goes
   * up by one and its id joins the end of the area's spawn list; the catalog
   * is stored with its version bumped either way; and the player's account,
   * collection, tasks and coin-grant blocks start over as for a new player.
   * Nothing checks that the player was eligible to graduate.
   */
  method Graduate(creatureList: seq<Creature>, byId: map<int, Creature>, areaTables: SpawnTable, version: Option<int>,
                  chosenId: int, area: string, isPlusCode: bool, accountId: string, now: int)
    returns (r: Option<GraduateOutcome>)
    requires StarterId in byId
    ensures chosenId !in byId ==> r.None?
    ensures chosenId in byId ==> (r.Some? &&
      var c := byId[chosenId];
      var c' := if isPlusCode then WithAreaSpawn(c, area) else c;
      r.value.creatureList == Replaced(creatureList, c') &&
      r.value.creaturesById == byId[chosenId := c'] &&
      r.value.areaSpawnTables == (if isPlusCode then WithTableEntry(areaTables, area, c.id) else areaTables) &&
      r.value.version == BumpedVersion(version) &&
      r.value.account == NewAccount(accountId, now) &&
      r.value.creatures == map[StarterId := Boosted(FreshRecord(StarterId), StatsFor(byId, StarterId))] &&
      r.value.tasks == DefaultTasks && r.value.grantBlocks == map[])
  {
    if chosenId !in byId {
      return None;
    }
    var creature := byId[chosenId];
    var tables := areaTables;
    if isPlusCode {
      var count := GetOr(creature.areaSpawns, area, 0);
      creature := creature.(areaSpawns := Put(creature.areaSpawns, area, count + 1));
      tables := Put(tables, area, GetOr(tables, area, []) + [creature.id]);
    }
    var list := Replaced(creatureList, creature);
    var byId' := byId[chosenId := creature];
    var newVersion := BumpedVersion(version);
    var data := NewAccount(accountId, now);
    var creatureInfo := MakeStarterCreatureInfo(byId);
    assert creatureInfo == map[StarterId := creatureInfo[StarterId]];
    r := Some(GraduateOutcome(list, byId', tables, newVersion, data, creatureInfo, DefaultTasks, map[]));
  }

  /**
   * Graduating in a plus-code area gives the chosen creature exactly one more
   * entry there and changes no other creature or area; the player restarts
   * at no grants, not eligible, with the level-1 starter alone.
   */
  lemma GraduateEffect(creatureList: seq<Creature>, byId: map<int, Creature>, areaTables: SpawnTable, chosenId: int,
                       area: string, accountId: string, now: int)
    requires chosenId in byId && StarterId in byId && WellFormedCatalog(byId)
    ensures var c := byId[chosenId];
      var c' := WithAreaSpawn(c, area);
      var t' := WithTableEntry(areaTables, area, c.id);
      GetOr(c'.areaSpawns, area, 0) == GetOr(c.areaSpawns, area, 0) + 1 &&
      GetOr(t', area, []) == GetOr(areaTables, area, []) + [c.id] &&
      (forall k :: k != area ==> Find(t', k) == Find(areaTables, k)) &&
      (forall i :: 0 <= i < |creatureList| && creatureList[i].id != chosenId ==> Replaced(creatureList, c')[i] == creatureList[i])
    ensures var a := NewAccount(accountId, now);
      a.totalGrants == 0 && !a.graduationEligible && a.currencies == NewCurrencies &&
      Boosted(FreshRecord(StarterId), StatsFor(byId, StarterId)).level == 1
  {
    var c := byId[chosenId];
    var c' := WithAreaSpawn(c, area);
    assert GetOr(c'.areaSpawns, area, 0) == GetOr(c.areaSpawns, area, 0) + 1;
    var t' := WithTableEntry(areaTables, area, c.id);
    assert GetOr(t', area, []) == GetOr(areaTables, area, []) + [c.id];
  }
}

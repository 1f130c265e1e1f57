// Wild spawns (CreatureController.cs): choosing the Cell10s of a Cell8 that
// receive new creatures, making the spawn records, and the threshold below
// which a cell is refilled.  The shuffled order of the sub-cells and every
// random draw are parameters.

module Spawning {
  import opened Common
  import opened Creatures
  import opened Startup

  /** `CreatureInstance`: the creature standing on a map cell; `uid` stands for its Guid. */
  datatype CreatureInstance = CreatureInstance(id: int, uid: int, name: string, activeGame: string, difficulty: int)

  /** A stored spawn: the `AreaData` row with key "creature" at a Cell10, until `expiration` (ticks). */
  datatype Spawned = Spawned(plusCode: string, expiration: int, creature: CreatureInstance)

  /** A Cell10 of the Cell8 being filled, with the style of the map element covering it. */
  datatype AreaDetail = AreaDetail(plusCode: string, style: string)

  /** The server settings that govern spawning (Config.cs), as loaded. */
  datatype SpawnConfig = SpawnConfig(
    creaturesPerCell8: int,
    minWalkableSpacesOnSpawn: int,
    minOtherSpacesOnSpawn: int,
    creatureCountToRespawn: int,
    creatureDurationMin: int,
    creatureDurationMax: int)

  /** The random numbers one spawn consumes: the table pick, its lifetime in seconds, the challenge pick and its uid. */
  datatype SpawnDraw = SpawnDraw(pick: nat, seconds: int, game: nat, uid: int)

  const ActiveChallengeOptions: string := "ABCDE"

  /** Styles whose cells count as walkable. */
  const WalkableAreas: seq<string> := ["tertiary", "trail"]

  /** `Random.Shared.Next(min, max)`: at least `min` and below `max` (exactly `min` when they meet). */
  predicate ValidSeconds(cfg: SpawnConfig, s: int) {
    if cfg.creatureDurationMin < cfg.creatureDurationMax then cfg.creatureDurationMin <= s < cfg.creatureDurationMax
    else s == cfg.creatureDurationMin
  }

  ghost predicate ValidDraws(cfg: SpawnConfig, draw: nat -> SpawnDraw) {
    forall k: nat :: ValidSeconds(cfg, draw(k).seconds)
  }

  // ---------------------------------------------------------------------
  // One spawn
  // ---------------------------------------------------------------------

  /**
   * `MakeRandomCreatureInstance`: a creature drawn from the spawn table, with
   * one of the five challenge letters and the creature's catch difficulty.
   * An empty table throws.
   */
  function MakeRandomCreatureInstance(table: seq<Creature>, d: SpawnDraw): (r: Option<CreatureInstance>)
    ensures r.None? <==> table == []
    ensures r.Some? ==> exists c :: (c in table &&
      r.value == CreatureInstance(c.id, d.uid, c.name, r.value.activeGame, c.activeCatchDifficulty))
    ensures r.Some? ==> |r.value.activeGame| == 1 && r.value.activeGame[0] in ActiveChallengeOptions
  {
    if table == [] then None
    else
      var c := table[d.pick % |table|];
      Some(CreatureInstance(c.id, d.uid, c.name, [ActiveChallengeOptions[d.game % |ActiveChallengeOptions|]], c.activeCatchDifficulty))
  }

  /** `MakeCreatureSpawn`: a random creature at the cell, living the drawn number of seconds. */
  function MakeCreatureSpawn(cell: AreaDetail, table: seq<Creature>, now: int, cfg: SpawnConfig, d: SpawnDraw): (r: Option<Spawned>)
    requires ValidSeconds(cfg, d.seconds)
    ensures r.None? <==> table == []
    ensures r.Some? ==> r.value.plusCode == cell.plusCode && Some(r.value.creature) == MakeRandomCreatureInstance(table, d)
    ensures r.Some? ==> (now + cfg.creatureDurationMin * TicksPerSecond <= r.value.expiration &&
      (cfg.creatureDurationMin < cfg.creatureDurationMax ==> r.value.expiration < now + cfg.creatureDurationMax * TicksPerSecond))
  {
    match MakeRandomCreatureInstance(table, d)
    case None => None
    case Some(ci) => Some(Spawned(cell.plusCode, now + d.seconds * TicksPerSecond, ci))
  }

  /** The spawn of a permanent creature: at its chosen specific cell, for the longest lifetime. */
  function PermanentSpawn(c: Creature, code: string, now: int, cfg: SpawnConfig, d: SpawnDraw): (r: Spawned)
    ensures r.plusCode == code && r.expiration == now + cfg.creatureDurationMax * TicksPerSecond
    ensures r.creature.id == c.id && r.creature.difficulty == c.activeCatchDifficulty && r.creature.uid == d.uid
  {
    Spawned(code, now + cfg.creatureDurationMax * TicksPerSecond,
            CreatureInstance(c.id, d.uid, c.name, [ActiveChallengeOptions[d.game % |ActiveChallengeOptions|]], c.activeCatchDifficulty))
  }

  // ---------------------------------------------------------------------
  // Choosing the cells
  // ---------------------------------------------------------------------

  /** The lists built while walking the shuffled cells, and whether the walk stopped early. */
  datatype Picks = Picks(walkable: seq<AreaDetail>, other: seq<AreaDetail>, unoccupied: seq<AreaDetail>, stopped: bool)

  /**
   * One cell of the walk: an occupied cell is skipped (before the stop
   * test); a walkable cell fills the walkable quota, any other the other
   * quota, and a cell fitting no quota joins the leftovers.  The walk stops
   * once the quotas look met, where the walkable test compares the size of
   * the walkable style list, not the walkable cells found.
   */
  function PickStep(p: Picks, t: AreaDetail, occupied: set<string>, cfg: SpawnConfig): Picks {
    if t.plusCode in occupied then p
    else
      var p1 :=
        if t.style in WalkableAreas then
          (if |p.walkable| < cfg.minWalkableSpacesOnSpawn then p.(walkable := p.walkable + [t]) else p.(unoccupied := p.unoccupied + [t]))
        else if |p.other| < cfg.minOtherSpacesOnSpawn then p.(other := p.other + [t])
        else p.(unoccupied := p.unoccupied + [t]);
      p1.(stopped := |WalkableAreas| >= cfg.minWalkableSpacesOnSpawn && |p1.other| >= cfg.minOtherSpacesOnSpawn &&
                     |p1.unoccupied| >= cfg.creaturesPerCell8 - |WalkableAreas| - |p1.other|)
  }

  /** The walk over the cells in their shuffled order, up to the early stop. */
  function Picked(ts: seq<AreaDetail>, occupied: set<string>, cfg: SpawnConfig): Picks
    decreases |ts|
  {
    if ts == [] then Picks([], [], [], false)
    else
      var p := Picked(ts[..|ts| - 1], occupied, cfg);
      if p.stopped then p else PickStep(p, ts[|ts| - 1], occupied, cfg)
  }

  /** The leftovers used to top up: as many as the per-Cell8 total still allows (`Take` of a negative count is empty). */
  function Rest(p: Picks, cfg: SpawnConfig): (r: seq<AreaDetail>)
    ensures |r| == Min(|p.unoccupied|, Max(0, cfg.creaturesPerCell8 - |p.walkable| - |p.other|))
    ensures r <= p.unoccupied
  {
    p.unoccupied[..Min(|p.unoccupied|, Max(0, cfg.creaturesPerCell8 - |p.walkable| - |p.other|))]
  }

  /** Every cell that will be filled, in the order the spawns are made. */
  function ChosenCells(p: Picks, cfg: SpawnConfig): seq<AreaDetail> {
    p.walkable + p.other + Rest(p, cfg)
  }

  /**
   * What the walk keeps true: each cell is on at most one list and came from
   * the cells walked, no list holds an occupied cell, walkable and other
   * cells are kept apart, and no quota is exceeded.
   */
  ghost predicate PicksSound(p: Picks, ts: seq<AreaDetail>, occupied: set<string>, cfg: SpawnConfig) {
    multiset(p.walkable) + multiset(p.other) + multiset(p.unoccupied) <= multiset(ts) &&
    (forall x :: x in p.walkable ==> x.plusCode !in occupied && x.style in WalkableAreas) &&
    (forall x :: x in p.other ==> x.plusCode !in occupied && x.style !in WalkableAreas) &&
    (forall x :: x in p.unoccupied ==> x.plusCode !in occupied) &&
    |p.walkable| <= Max(0, cfg.minWalkableSpacesOnSpawn) && |p.other| <= Max(0, cfg.minOtherSpacesOnSpawn)
  }

  lemma PickStepSound(p: Picks, ts: seq<AreaDetail>, t: AreaDetail, occupied: set<string>, cfg: SpawnConfig)
    requires PicksSound(p, ts, occupied, cfg)
    ensures PicksSound(PickStep(p, t, occupied, cfg), ts + [t], occupied, cfg)
  {
    var q := PickStep(p, t, occupied, cfg);
    var before := multiset(p.walkable) + multiset(p.other) + multiset(p.unoccupied);
    var after := multiset(q.walkable) + multiset(q.other) + multiset(q.unoccupied);
    assert multiset(ts + [t]) == multiset(ts) + multiset{t};
    if t.plusCode in occupied {
      assert after == before;
    } else if t.style in WalkableAreas && |p.walkable| < cfg.minWalkableSpacesOnSpawn {
      assert q.walkable == p.walkable + [t] && q.other == p.other && q.unoccupied == p.unoccupied;
      assert after == before + multiset{t};
    } else if t.style !in WalkableAreas && |p.other| < cfg.minOtherSpacesOnSpawn {
      assert q.other == p.other + [t] && q.walkable == p.walkable && q.unoccupied == p.unoccupied;
      assert after == before + multiset{t};
    } else {
      assert q.unoccupied == p.unoccupied + [t] && q.walkable == p.walkable && q.other == p.other;
      assert after == before + multiset{t};
    }
  }

  /** The walk keeps `PicksSound` from the first cell to the last. */
  lemma {:induction false} PickedSound(ts: seq<AreaDetail>, occupied: set<string>, cfg: SpawnConfig)
    ensures PicksSound(Picked(ts, occupied, cfg), ts, occupied, cfg)
    decreases |ts|
  {
    if ts != [] {
      var init, t := ts[..|ts| - 1], ts[|ts| - 1];
      PickedSound(init, occupied, cfg);
      assert ts == init + [t];
      var p := Picked(init, occupied, cfg);
      if p.stopped {
        assert multiset(ts) == multiset(init) + multiset{t};
      } else {
        PickStepSound(p, init, t, occupied, cfg);
      }
    }
  }

  /**
   * Hence the chosen cells are distinct entries of the cell list, none
   * occupied, and the top-up never takes the total past `CreaturesPerCell8`
   * beyond what the quotas placed.
   */
  lemma ChosenCellsSound(ts: seq<AreaDetail>, occupied: set<string>, cfg: SpawnConfig)
    ensures var p := Picked(ts, occupied, cfg);
      var cells := ChosenCells(p, cfg);
      multiset(cells) <= multiset(ts) &&
      (forall x :: x in cells ==> x.plusCode !in occupied) &&
      |cells| <= Max(|p.walkable| + |p.other|, cfg.creaturesPerCell8)
  {
    var p := Picked(ts, occupied, cfg);
    PickedSound(ts, occupied, cfg);
    var r := Rest(p, cfg);
    assert p.unoccupied == r + p.unoccupied[|r|..];
    assert multiset(r) <= multiset(p.unoccupied) by {
      assert multiset(p.unoccupied) == multiset(r) + multiset(p.unoccupied[|r|..]);
    }
    var cells := ChosenCells(p, cfg);
    assert multiset(cells) == multiset(p.walkable) + multiset(p.other) + multiset(r);
    forall x | x in cells
      ensures x.plusCode !in occupied
    {
      assert x in p.walkable || x in p.other || x in r;
    }
  }

  /**
   * The early stop reads the walkable style list: with one walkable cell
   * wanted and no other cells, a non-walkable first cell ends the walk when
   * the total is 3, so the walkable cell after it is never reached.
   */
  lemma EarlyStopSkipsWalkable()
    ensures var cfg := SpawnConfig(3, 1, 0, 0, 0, 0);
      var ts := [AreaDetail("A", "park"), AreaDetail("B", "trail")];
      Picked(ts, {}, cfg) == Picks([], [], [AreaDetail("A", "park")], true)
  {
    var cfg := SpawnConfig(3, 1, 0, 0, 0, 0);
    var ts := [AreaDetail("A", "park"), AreaDetail("B", "trail")];
    assert ts[..1] == [AreaDetail("A", "park")];
    assert ts[..1][..0] == [];
    assert "park" !in WalkableAreas;
  }

  lemma {:induction false} PickedStops(ts: seq<AreaDetail>, i: nat, occupied: set<string>, cfg: SpawnConfig)
    requires i <= |ts| && Picked(ts[..i], occupied, cfg).stopped
    ensures Picked(ts, occupied, cfg) == Picked(ts[..i], occupied, cfg)
    decreases |ts| - i
  {
    if i < |ts| {
      assert ts[..i + 1][..i] == ts[..i];
      PickedStops(ts, i + 1, occupied, cfg);
    } else {
      assert ts[..i] == ts;
    }
  }

  /** The codes of the spawns already in the cell. */
  function Codes(existing: seq<Spawned>): set<string> {
    set k | 0 <= k < |existing| :: existing[k].plusCode
  }

  /** The walk of `RunSpawnProcess` over the shuffled cells. */
  method PickCells(ts: seq<AreaDetail>, occupied: set<string>, cfg: SpawnConfig) returns (p: Picks)
    ensures p == Picked(ts, occupied, cfg)
  {
    p := Picks([], [], [], false);
    var i := 0;
    while i < |ts|
      invariant 0 <= i <= |ts|
      invariant p == Picked(ts[..i], occupied, cfg) && !p.stopped
    {
      var t := ts[i];
      assert ts[..i + 1][..i] == ts[..i];
      if t.plusCode in occupied {
        i := i + 1;
        continue;
      }
      var putOnSubList := false;
      if t.style in WalkableAreas {
        if |p.walkable| < cfg.minWalkableSpacesOnSpawn {
          p := p.(walkable := p.walkable + [t]);
          putOnSubList := true;
        }
      } else if |p.other| < cfg.minOtherSpacesOnSpawn {
        p := p.(other := p.other + [t]);
        putOnSubList := true;
      }
      if !putOnSubList {
        p := p.(unoccupied := p.unoccupied + [t]);
      }
      if |WalkableAreas| >= cfg.minWalkableSpacesOnSpawn && |p.other| >= cfg.minOtherSpacesOnSpawn &&
         |p.unoccupied| >= cfg.creaturesPerCell8 - |WalkableAreas| - |p.other| {
        p := p.(stopped := true);
        PickedStops(ts, i + 1, occupied, cfg);
        return;
      }
      i := i + 1;
    }
    assert ts[..i] == ts;
  }

  // ---------------------------------------------------------------------
  // Filling the cell
  // ---------------------------------------------------------------------

  /** The permanent creatures of the table, each once. */
  function Permanents(table: seq<Creature>): seq<Creature> {
    Dedup(Filter(table, (c: Creature) => c.isPermanent))
  }

  /** The spawn already at a code that a permanent spawn replaces: the first one there. */
  function FirstAt(existing: seq<Spawned>, code: string): (r: Option<Spawned>)
    ensures r.Some? ==> r.value in existing && r.value.plusCode == code
    ensures r.None? ==> forall k :: 0 <= k < |existing| ==> existing[k].plusCode != code
  {
    if existing == [] then None
    else if existing[0].plusCode == code then Some(existing[0])
    else FirstAt(existing[1..], code)
  }

  /** The code a permanent creature spawns at this time: one of its specific cells. */
  function PermanentCode(c: Creature, d: SpawnDraw): string
    requires c.specificSpawns != []
  {
    c.specificSpawns[d.pick % |c.specificSpawns|]
  }

  /** The random spawns of the chosen cells, in order; the k-th uses `draw(k)`. */
  method SpawnCells(cells: seq<AreaDetail>, table: seq<Creature>, now: int, cfg: SpawnConfig, draw: nat -> SpawnDraw)
    returns (added: seq<Spawned>)
    requires table != [] && ValidDraws(cfg, draw)
    ensures |added| == |cells|
    ensures forall k :: 0 <= k < |cells| ==> MakeCreatureSpawn(cells[k], table, now, cfg, draw(k)) == Some(added[k])
  {
    added := [];
    var k := 0;
    while k < |cells|
      invariant 0 <= k <= |cells| && |added| == k
      invariant forall i :: 0 <= i < k ==> MakeCreatureSpawn(cells[i], table, now, cfg, draw(i)) == Some(added[i])
    {
      var spawn := MakeCreatureSpawn(cells[k], table, now, cfg, draw(k));
      added := added + [spawn.value];
      k := k + 1;
    }
  }

  /**
   * The spawns of the permanent creatures, in order, with the first existing
   * spawn at each chosen code marked for removal; a permanent creature
   * without a specific cell fails the whole run.
   */
  method SpawnPermanents(existing: seq<Spawned>, perms: seq<Creature>, now: int, cfg: SpawnConfig, permDraw: nat -> SpawnDraw)
    returns (removed: seq<Spawned>, added: seq<Spawned>, failed: bool)
    ensures failed <==> exists j :: 0 <= j < |perms| && perms[j].specificSpawns == []
    ensures !failed ==> |added| == |perms|
    ensures !failed ==> forall j :: 0 <= j < |perms| ==>
      added[j] == PermanentSpawn(perms[j], PermanentCode(perms[j], permDraw(j)), now, cfg, permDraw(j))
    ensures forall x :: x in removed ==> x in existing
    ensures !failed ==> forall x :: x in removed <==>
      exists j :: 0 <= j < |perms| && FirstAt(existing, PermanentCode(perms[j], permDraw(j))) == Some(x)
    ensures failed ==> removed == [] && added == []
  {
    removed, added := [], [];
    var j := 0;
    while j < |perms|
      invariant 0 <= j <= |perms| && |added| == j
      invariant forall i :: 0 <= i < j ==> perms[i].specificSpawns != []
      invariant forall i :: 0 <= i < j ==>
        added[i] == PermanentSpawn(perms[i], PermanentCode(perms[i], permDraw(i)), now, cfg, permDraw(i))
      invariant forall x :: x in removed ==> x in existing
      invariant forall x :: x in removed <==>
        exists i :: 0 <= i < j && FirstAt(existing, PermanentCode(perms[i], permDraw(i))) == Some(x)
    {
      var c := perms[j];
      if c.specificSpawns == [] {
        return [], [], true;
      }
      var code := PermanentCode(c, permDraw(j));
      var removeEntry := FirstAt(existing, code);
      if removeEntry.Some? {
        removed := removed + [removeEntry.value];
      }
      added := added + [PermanentSpawn(c, code, now, cfg, permDraw(j))];
      j := j + 1;
    }
    failed := false;
  }

  /**
   * `RunSpawnProcess`: the chosen cells get random creatures from the table,
   * walkable cells first, then other cells, then the top-up; then every
   * permanent creature of the table gets one spawn at one of its specific
   * cells, replacing the first spawn already there.  `draw(k)` feeds the
   * k-th random spawn and `permDraw(j)` the j-th permanent one.  Nothing is
   * saved if an empty table is drawn from or a permanent creature has no
   * specific cell.
   */
  method RunSpawnProcess(existing: seq<Spawned>, table: seq<Creature>, terrainInfo: seq<AreaDetail>, cfg: SpawnConfig,
                         now: int, draw: nat -> SpawnDraw, permDraw: nat -> SpawnDraw)
    returns (removed: seq<Spawned>, added: seq<Spawned>, failed: bool)
    requires ValidDraws(cfg, draw)
    ensures var cells := ChosenCells(Picked(terrainInfo, Codes(existing), cfg), cfg);
      var perms := Permanents(table);
      (failed <==> (table == [] && cells != []) || exists j :: 0 <= j < |perms| && perms[j].specificSpawns == []) &&
      (failed ==> removed == [] && added == []) &&
      (!failed ==> (
        |added| == |cells| + |perms| &&
        (forall k :: 0 <= k < |cells| ==> MakeCreatureSpawn(cells[k], table, now, cfg, draw(k)) == Some(added[k])) &&
        (forall j :: 0 <= j < |perms| ==>
          added[|cells| + j] == PermanentSpawn(perms[j], PermanentCode(perms[j], permDraw(j)), now, cfg, permDraw(j))) &&
        (forall x :: x in removed ==> x in existing) &&
        (forall x :: x in removed <==>
          exists j :: 0 <= j < |perms| && FirstAt(existing, PermanentCode(perms[j], permDraw(j))) == Some(x))))
  {
    var p := PickCells(terrainInfo, Codes(existing), cfg);
    var cells := ChosenCells(p, cfg);
    var perms := Permanents(table);
    if table == [] {
      assert Filter(table, (c: Creature) => c.isPermanent) == [];
      assert perms == [];
      return [], [], cells != [];
    }
    var randoms := SpawnCells(cells, table, now, cfg, draw);
    var permanents;
    removed, permanents, failed := SpawnPermanents(existing, perms, now, cfg, permDraw);
    if failed {
      return [], [], true;
    }
    added := randoms + permanents;
    assert forall k :: 0 <= k < |cells| ==> added[k] == randoms[k];
    assert forall j :: 0 <= j < |perms| ==> added[|cells| + j] == permanents[j];
  }

  /** Every random spawn lives between the shortest and the longest configured lifetime. */
  lemma RandomSpawnLifetime(cell: AreaDetail, table: seq<Creature>, now: int, cfg: SpawnConfig, d: SpawnDraw)
    requires table != [] && ValidSeconds(cfg, d.seconds) && cfg.creatureDurationMin < cfg.creatureDurationMax
    ensures var s := MakeCreatureSpawn(cell, table, now, cfg, d).value;
      now + cfg.creatureDurationMin * TicksPerSecond <= s.expiration < now + cfg.creatureDurationMax * TicksPerSecond &&
      s.creature.id in set c | c in table :: c.id
  {
  }

  // ---------------------------------------------------------------------
  // The wild list of a cell
  // ---------------------------------------------------------------------

  /** A Cell8 is refilled while it holds no more spawns than `CreatureCountToRespawn`. */
  predicate NeedsRespawn(spawns: seq<Spawned>, cfg: SpawnConfig) {
    |spawns| <= cfg.creatureCountToRespawn
  }

  /** The spawns a player is shown: those whose uid is not among their recent catches. */
  function Uncaught(spawns: seq<Spawned>, recent: seq<int>): (r: seq<Spawned>)
    ensures forall s :: s in r <==> s in spawns && s.creature.uid !in recent
  {
    if spawns == [] then []
    else
      var rest := Uncaught(spawns[1..], recent);
      assert forall s :: s in spawns <==> s == spawns[0] || s in spawns[1..];
      (if spawns[0].creature.uid in recent then [] else [spawns[0]]) + rest
  }

  /**
   * `GetWildCreatures`: a cell at or below the threshold is refilled first
   * (by `respawn`) and looked at again; otherwise the player's uncaught
   * spawns are listed.  `fuel` bounds the repeated refills.
   */
  method GetWildCreatures(spawns: seq<Spawned>, recent: seq<int>, cfg: SpawnConfig, respawn: seq<Spawned> -> seq<Spawned>, fuel: nat)
    returns (shown: Option<seq<Spawned>>)
    ensures shown.Some? ==> exists n: nat :: (n <= fuel && !NeedsRespawn(Refilled(spawns, respawn, n), cfg) &&
      shown.value == Uncaught(Refilled(spawns, respawn, n), recent))
    ensures shown.None? ==> forall n: nat :: n <= fuel ==> NeedsRespawn(Refilled(spawns, respawn, n), cfg)
  {
    var current := spawns;
    var n := 0;
    while NeedsRespawn(current, cfg)
      invariant 0 <= n <= fuel && current == Refilled(spawns, respawn, n)
      invariant forall m: nat :: m < n ==> NeedsRespawn(Refilled(spawns, respawn, m), cfg)
      decreases fuel - n
    {
      if n == fuel {
        return None;
      }
      assert Refilled(spawns, respawn, n + 1) == respawn(current);
      current := respawn(current);
      n := n + 1;
    }
    shown := Some(Uncaught(current, recent));
    assert !NeedsRespawn(Refilled(spawns, respawn, n), cfg) && shown.value == Uncaught(Refilled(spawns, respawn, n), recent);
  }

  /** The cell's spawns after `n` refills. */
  function Refilled(spawns: seq<Spawned>, respawn: seq<Spawned> -> seq<Spawned>, n: nat): seq<Spawned> {
    if n == 0 then spawns else respawn(Refilled(spawns, respawn, n - 1))
  }
}

// Catalog start-up (Startup.cs, lines 69-148): reconcile the stored catalog
// with the built-in defaults, bump the catalog version when needed, derive
// the lookup lists, and build the weighted spawn tables.

module Startup {
  import opened Common
  import opened Creatures

  // ---------------------------------------------------------------------
  // Catalog reconciliation and version
  // ---------------------------------------------------------------------

  predicate HasId(cs: seq<Creature>, id: int) {
    exists i :: 0 <= i < |cs| && cs[i].id == id
  }

  predicate DistinctIds(cs: seq<Creature>) {
    forall i, j :: 0 <= i < j < |cs| ==> cs[i].id != cs[j].id
  }

  /** `FirstOrDefault(c => c.id == id)`, for an id that is present: the earliest such entry. */
  function FirstWithId(cs: seq<Creature>, id: int): (c: Creature)
    requires HasId(cs, id)
    ensures c in cs && c.id == id
    ensures cs[0].id == id ==> c == cs[0]
  {
    if cs[0].id == id then cs[0]
    else
      assert HasId(cs[1..], id) by {
        var i :| 0 <= i < |cs| && cs[i].id == id;
        assert cs[1..][i - 1] == cs[i];
      }
      FirstWithId(cs[1..], id)
  }

  /** The catalog after the loop over `defaults`: each default whose id is missing is appended. */
  function Merged(current: seq<Creature>, defaults: seq<Creature>): seq<Creature>
    decreases |defaults|
  {
    if |defaults| == 0 then current
    else
      var m := Merged(current, defaults[..|defaults| - 1]);
      var d := defaults[|defaults| - 1];
      if HasId(m, d.id) then m else m + [d]
  }

  /**
   * Whether the `i`-th default differs from its stored entry once the stored
   * area spawns (the only field graduation changes) are carried over.
   */
  predicate Drifted(current: seq<Creature>, defaults: seq<Creature>, i: int)
    requires 0 <= i < |defaults|
  {
    var m := Merged(current, defaults[..i + 1]);
    StoredEntriesKept(current, defaults[..i + 1]);
    assert defaults[..i + 1][i] == defaults[i];
    var c := FirstWithId(m, defaults[i].id);
    defaults[i].(areaSpawns := c.areaSpawns) != c
  }

  /** Some of the first `n` defaults drifted. */
  predicate AnyDrifted(current: seq<Creature>, defaults: seq<Creature>, n: int)
    requires 0 <= n <= |defaults|
  {
    exists i :: 0 <= i < n && Drifted(current, defaults, i)
  }

  /** The catalog the reconciliation starts from: the stored one, or the defaults when none is stored. */
  function StartCatalog(stored: Option<seq<Creature>>, defaults: seq<Creature>): seq<Creature> {
    if stored.None? then defaults else stored.value
  }

  /** The stored catalog is missing, has another size, or some default drifted. */
  predicate NeedsBump(stored: Option<seq<Creature>>, defaults: seq<Creature>) {
    var current := StartCatalog(stored, defaults);
    stored.None? || |current| != |defaults| || AnyDrifted(current, defaults, |defaults|)
  }

  /** One step of the reconciliation loop, as the recursive definitions see it. */
  lemma MergedStep(start: seq<Creature>, defaults: seq<Creature>, i: int)
    requires 0 <= i < |defaults|
    ensures var m := Merged(start, defaults[..i]);
      Merged(start, defaults[..i + 1]) == if HasId(m, defaults[i].id) then m else m + [defaults[i]]
    ensures AnyDrifted(start, defaults, i + 1) <==> AnyDrifted(start, defaults, i) || Drifted(start, defaults, i)
  {
    assert defaults[..i + 1][..i] == defaults[..i];
    assert defaults[..i + 1][i] == defaults[i];
  }

  /** The catalog version after a bump: a missing version becomes 1, any other goes up by one. */
  function BumpedVersion(v: Option<int>): (r: int)
    ensures v.None? ==> r == 1
    ensures v.Some? ==> r == v.value + 1
  {
    match v
    case None => 1
    case Some(n) => n + 1
  }

  /**
   * A drifted default never replaces the stored entry: whatever the defaults
   * say, the entries already stored come through unchanged and in order, and
   * every default id is present afterwards.
   */
  lemma {:induction false} StoredEntriesKept(stored: seq<Creature>, defaults: seq<Creature>)
    ensures |Merged(stored, defaults)| >= |stored|
    ensures forall i :: 0 <= i < |stored| ==> Merged(stored, defaults)[i] == stored[i]
    ensures forall i :: 0 <= i < |defaults| ==> HasId(Merged(stored, defaults), defaults[i].id)
    decreases |defaults|
  {
    if |defaults| > 0 {
      var ds := defaults[..|defaults| - 1];
      var d := defaults[|defaults| - 1];
      StoredEntriesKept(stored, ds);
      var m := Merged(stored, ds);
      var r := Merged(stored, defaults);
      assert r == if HasId(m, d.id) then m else m + [d];
      assert forall j :: 0 <= j < |m| ==> r[j] == m[j];
      forall i | 0 <= i < |defaults| ensures HasId(r, defaults[i].id) {
        if i < |ds| {
          assert ds[i] == defaults[i];
          var j :| 0 <= j < |m| && m[j].id == ds[i].id;
          assert r[j] == m[j];
        } else if !HasId(m, d.id) {
          assert r[|m|] == d;
        }
      }
    }
  }

  /** Entries are only ever appended for ids not yet present. */
  lemma {:induction false} MergedAddsOnlyMissing(stored: seq<Creature>, defaults: seq<Creature>)
    requires DistinctIds(stored)
    ensures DistinctIds(Merged(stored, defaults))
    ensures forall c :: c in Merged(stored, defaults) ==> c in stored || c in defaults
    decreases |defaults|
  {
    if |defaults| > 0 {
      var ds := defaults[..|defaults| - 1];
      MergedAddsOnlyMissing(stored, ds);
      var m := Merged(stored, ds);
      forall c | c in ds ensures c in defaults {
        var k :| 0 <= k < |ds| && ds[k] == c;
        assert defaults[k] == c;
      }
      if !HasId(m, defaults[|defaults| - 1].id) {
        var r := m + [defaults[|defaults| - 1]];
        assert r == Merged(stored, defaults);
        forall i, j | 0 <= i < j < |r| ensures r[i].id != r[j].id {
          if j == |m| {
            assert r[i] == m[i];
          } else {
            assert r[i] == m[i] && r[j] == m[j];
          }
        }
      }
    }
  }

  // ---------------------------------------------------------------------
  // Derived lists
  // ---------------------------------------------------------------------

  /** `creaturesById` (`ToDictionary(c => c.id)`, which refuses duplicate ids). */
  function ById(cs: seq<Creature>): map<int, Creature>
    requires DistinctIds(cs)
  {
    if |cs| == 0 then map[]
    else
      var init := cs[..|cs| - 1];
      assert DistinctIds(init) by {
        assert forall i :: 0 <= i < |init| ==> init[i] == cs[i];
      }
      ById(init)[cs[|cs| - 1].id := cs[|cs| - 1]]
  }

  /** The map has exactly the catalog's ids, each mapped to its own entry. */
  lemma {:induction false} ByIdLookup(cs: seq<Creature>)
    requires DistinctIds(cs)
    ensures forall id :: id in ById(cs) <==> HasId(cs, id)
    ensures forall i :: 0 <= i < |cs| ==> cs[i].id in ById(cs) && ById(cs)[cs[i].id] == cs[i]
    decreases |cs|
  {
    if |cs| > 0 {
      var init := cs[..|cs| - 1];
      assert forall i :: 0 <= i < |init| ==> init[i] == cs[i];
      ByIdLookup(init);
      HasIdSnoc(cs);
    }
  }

  lemma HasIdSnoc(cs: seq<Creature>)
    requires |cs| > 0
    ensures forall id :: HasId(cs, id) <==> HasId(cs[..|cs| - 1], id) || id == cs[|cs| - 1].id
  {
    var init := cs[..|cs| - 1];
    forall id | HasId(init, id) ensures HasId(cs, id) {
      var i :| 0 <= i < |init| && init[i].id == id;
      assert cs[i].id == id;
    }
    forall id | HasId(cs, id) ensures HasId(init, id) || id == cs[|cs| - 1].id {
      var i :| 0 <= i < |cs| && cs[i].id == id;
      if i < |init| { assert init[i].id == id; }
    }
  }

  /** The entries of `cs` satisfying `keep`, in order (`Where(...).ToList()`). */
  function Filter(cs: seq<Creature>, keep: Creature -> bool): (r: seq<Creature>)
    ensures |r| <= |cs|
  {
    if |cs| == 0 then []
    else (if keep(cs[0]) then [cs[0]] else []) + Filter(cs[1..], keep)
  }

  /** A filtered list holds exactly the kept entries. */
  lemma {:induction false} FilterMembers(cs: seq<Creature>, keep: Creature -> bool)
    ensures forall c :: c in Filter(cs, keep) <==> c in cs && keep(c)
    decreases |cs|
  {
    if |cs| > 0 {
      FilterMembers(cs[1..], keep);
      assert cs == [cs[0]] + cs[1..];
    }
  }

  predicate IsPassportReward(c: Creature) { c.passportReward && !c.isHidden }
  predicate IsWanderer(c: Creature) { c.wanderOdds > 0 }
  predicate IsWildCreature(c: Creature) { c.isWild }

  /** Creatures that feed the spawn tables. */
  predicate SpawnsInTables(c: Creature) { c.isWild && !c.isHidden }

  // ---------------------------------------------------------------------
  // Spawn tables
  // ---------------------------------------------------------------------

  /** A table from keys to bags of creature ids (references into the catalog). */
  type Table<K> = seq<Entry<K, seq<int>>>

  /** A spawn table, keyed by terrain, area type or place. */
  type SpawnTable = Table<string>

  datatype SpawnKind = Terrain | Area | Place

  function SpawnsOf(c: Creature, kind: SpawnKind): seq<Entry<string, int>> {
    match kind
    case Terrain => c.terrainSpawns
    case Area => c.areaSpawns
    case Place => c.placeSpawns
  }

  /** One spawn entry: `TryAdd(key, [])`, then append the id `weight` times. */
  function AddEntry<K(==)>(t: Table<K>, id: int, e: Entry<K, int>): Table<K> {
    var t1 := TryAdd(t, e.key, []);
    Put(t1, e.key, GetOr(t1, e.key, []) + Repeat(id, e.value))
  }

  /** All of one creature's entries of one kind, in dictionary order. */
  function AddCreature<K(==)>(t: Table<K>, id: int, spawns: seq<Entry<K, int>>): Table<K>
    decreases |spawns|
  {
    if |spawns| == 0 then t
    else AddEntry(AddCreature(t, id, spawns[..|spawns| - 1]), id, spawns[|spawns| - 1])
  }

  /** The table of one kind after the loop over the catalog. */
  function BuildTable(t: SpawnTable, cs: seq<Creature>, kind: SpawnKind): SpawnTable
    decreases |cs|
  {
    if |cs| == 0 then t
    else
      var t' := BuildTable(t, cs[..|cs| - 1], kind);
      var c := cs[|cs| - 1];
      if SpawnsInTables(c) then AddCreature(t', c.id, SpawnsOf(c, kind)) else t'
  }

  /** What the catalog contributes under `key`: each eligible creature, `weight` times, in catalog order. */
  function Contribution(cs: seq<Creature>, kind: SpawnKind, key: string): seq<int>
    decreases |cs|
  {
    if |cs| == 0 then []
    else
      var c := cs[|cs| - 1];
      Contribution(cs[..|cs| - 1], kind, key) +
        (if SpawnsInTables(c) then Repeat(c.id, GetOr(SpawnsOf(c, kind), key, 0)) else [])
  }

  predicate WellFormedSpawns(cs: seq<Creature>) {
    forall i :: 0 <= i < |cs| ==>
      DistinctKeys(cs[i].terrainSpawns) && DistinctKeys(cs[i].areaSpawns) && DistinctKeys(cs[i].placeSpawns)
  }

  lemma AddEntryContents<K>(t: Table<K>, id: int, e: Entry<K, int>, k: K)
    requires DistinctKeys(t)
    ensures DistinctKeys(AddEntry(t, id, e))
    ensures HasKey(AddEntry(t, id, e), k) <==> HasKey(t, k) || k == e.key
    ensures GetOr(AddEntry(t, id, e), k, []) ==
      GetOr(t, k, []) + (if k == e.key then Repeat(id, e.value) else [])
  {
    var t1 := TryAdd(t, e.key, []);
    TryAddKeepsDistinct(t, e.key, []);
    PutKeepsDistinct(t1, e.key, GetOr(t1, e.key, []) + Repeat(id, e.value));
    FindTryAdd(t, e.key, [], k);
    FindPut(t1, e.key, GetOr(t1, e.key, []) + Repeat(id, e.value), k);
    FindTryAdd(t, e.key, [], e.key);
    FindHasKey(AddEntry(t, id, e), k);
    FindHasKey(t, k);
  }

  lemma {:induction false} AddCreatureKeys<K>(t: Table<K>, id: int, spawns: seq<Entry<K, int>>, k: K)
    requires DistinctKeys(t)
    ensures DistinctKeys(AddCreature(t, id, spawns))
    ensures HasKey(AddCreature(t, id, spawns), k) <==> HasKey(t, k) || HasKey(spawns, k)
    decreases |spawns|
  {
    if |spawns| > 0 {
      var init := spawns[..|spawns| - 1];
      var e := spawns[|spawns| - 1];
      AddCreatureKeys(t, id, init, k);
      AddEntryContents(AddCreature(t, id, init), id, e, k);
      assert spawns == init + [e];
      HasKeyAppend(init, e, k);
    }
  }

  lemma {:induction false} AddCreatureContents<K>(t: Table<K>, id: int, spawns: seq<Entry<K, int>>, k: K)
    requires DistinctKeys(t) && DistinctKeys(spawns)
    ensures GetOr(AddCreature(t, id, spawns), k, []) == GetOr(t, k, []) + Repeat(id, GetOr(spawns, k, 0))
    decreases |spawns|
  {
    if |spawns| > 0 {
      var init := spawns[..|spawns| - 1];
      var e := spawns[|spawns| - 1];
      LastKeyFresh(spawns);
      AddCreatureContents(t, id, init, k);
      var before := AddCreature(t, id, init);
      var added := if k == e.key then Repeat(id, e.value) else [];
      assert GetOr(AddCreature(t, id, spawns), k, []) == GetOr(before, k, []) + added by {
        AddCreatureKeys(t, id, init, k);
        AddEntryContents(before, id, e, k);
      }
      assert spawns == init + [e];
      if k == e.key {
        assert GetOr(init, k, 0) == 0 && GetOr(spawns, k, 0) == e.value by {
          LastKeyFresh(spawns);
          FindHasKey(init, k);
          FindAppend(init, e, k);
        }
        assert Repeat(id, 0) == [];
      } else {
        assert GetOr(spawns, k, 0) == GetOr(init, k, 0) by {
          FindHasKey(init, k);
          FindAppend(init, e, k);
        }
      }
    }
  }

  /**
   * The built table holds, under every key, what it held before followed by
   * each eligible creature repeated by its weight for that key, in catalog
   * order; a key exists once any eligible creature names it.
   */
  lemma {:induction false} BuildTableContents(t: SpawnTable, cs: seq<Creature>, kind: SpawnKind, k: string)
    requires DistinctKeys(t) && WellFormedSpawns(cs)
    ensures GetOr(BuildTable(t, cs, kind), k, []) == GetOr(t, k, []) + Contribution(cs, kind, k)
    decreases |cs|
  {
    if |cs| > 0 {
      var init := cs[..|cs| - 1];
      var c := cs[|cs| - 1];
      assert WellFormedSpawns(init) by {
        forall i | 0 <= i < |init| ensures init[i] == cs[i] {}
      }
      BuildTableContents(t, init, kind, k);
      BuildTableKeys(t, init, kind, k);
      var t' := BuildTable(t, init, kind);
      if SpawnsInTables(c) {
        AddCreatureContents(t', c.id, SpawnsOf(c, kind), k);
      }
    }
  }

  /** Some eligible creature names `k` among its spawns of this kind. */
  predicate NamedBy(cs: seq<Creature>, kind: SpawnKind, k: string) {
    exists i :: 0 <= i < |cs| && SpawnsInTables(cs[i]) && HasKey(SpawnsOf(cs[i], kind), k)
  }

  /** The built table keeps its keys distinct, and has a key once any eligible creature names it. */
  lemma {:induction false} BuildTableKeys(t: SpawnTable, cs: seq<Creature>, kind: SpawnKind, k: string)
    requires DistinctKeys(t)
    ensures DistinctKeys(BuildTable(t, cs, kind))
    ensures HasKey(BuildTable(t, cs, kind), k) <==> HasKey(t, k) || NamedBy(cs, kind, k)
    decreases |cs|
  {
    if |cs| > 0 {
      var init := cs[..|cs| - 1];
      var c := cs[|cs| - 1];
      var named := SpawnsInTables(c) && HasKey(SpawnsOf(c, kind), k);
      BuildTableKeys(t, init, kind, k);
      var t' := BuildTable(t, init, kind);
      assert DistinctKeys(BuildTable(t, cs, kind)) &&
        (HasKey(BuildTable(t, cs, kind), k) <==> HasKey(t', k) || named) by {
        if SpawnsInTables(c) {
          AddCreatureKeys(t', c.id, SpawnsOf(c, kind), k);
        }
      }
      NamedBySnoc(cs, kind, k);
    }
  }

  lemma NamedBySnoc(cs: seq<Creature>, kind: SpawnKind, k: string)
    requires |cs| > 0
    ensures var c := cs[|cs| - 1];
      NamedBy(cs, kind, k) <==> NamedBy(cs[..|cs| - 1], kind, k) || (SpawnsInTables(c) && HasKey(SpawnsOf(c, kind), k))
  {
    var init := cs[..|cs| - 1];
    if NamedBy(cs, kind, k) {
      var i :| 0 <= i < |cs| && SpawnsInTables(cs[i]) && HasKey(SpawnsOf(cs[i], kind), k);
      if i < |init| { assert init[i] == cs[i]; }
    }
    if NamedBy(init, kind, k) {
      var i :| 0 <= i < |init| && SpawnsInTables(init[i]) && HasKey(SpawnsOf(init[i], kind), k);
      assert init[i] == cs[i];
    }
  }

  /** Hidden or tame creatures never enter a spawn table. */
  lemma {:induction false} OnlyEligibleContribute(cs: seq<Creature>, kind: SpawnKind, key: string, id: int)
    requires id in Contribution(cs, kind, key)
    ensures exists i :: 0 <= i < |cs| && cs[i].id == id && SpawnsInTables(cs[i])
    decreases |cs|
  {
    var init := cs[..|cs| - 1];
    var c := cs[|cs| - 1];
    if id in Contribution(init, kind, key) {
      OnlyEligibleContribute(init, kind, key, id);
      var i :| 0 <= i < |init| && init[i].id == id && SpawnsInTables(init[i]);
      assert cs[i] == init[i];
    } else {
      RepeatElements(c.id, GetOr(SpawnsOf(c, kind), key, 0));
      assert SpawnsInTables(c) && c.id == id;
    }
  }

  /** An id no creature carries never appears in a table. */
  lemma {:induction false} AbsentIdNotContributed(cs: seq<Creature>, kind: SpawnKind, key: string, id: int)
    requires forall i :: 0 <= i < |cs| ==> cs[i].id != id
    ensures id !in Contribution(cs, kind, key)
    decreases |cs|
  {
    if |cs| > 0 {
      var init := cs[..|cs| - 1];
      var c := cs[|cs| - 1];
      assert forall i :: 0 <= i < |init| ==> init[i] == cs[i];
      AbsentIdNotContributed(init, kind, key, id);
      RepeatCount(c.id, GetOr(SpawnsOf(c, kind), key, 0), id);
    }
  }

  /**
   * With distinct ids, an eligible creature appears under `key` exactly as
   * many times as its weight for that key, and an ineligible one not at all.
   */
  lemma {:induction false} ContributionCount(cs: seq<Creature>, kind: SpawnKind, key: string, j: int)
    requires DistinctIds(cs) && 0 <= j < |cs|
    ensures multiset(Contribution(cs, kind, key))[cs[j].id] ==
      if SpawnsInTables(cs[j]) then Max(0, GetOr(SpawnsOf(cs[j], kind), key, 0)) else 0
    decreases |cs|
  {
    var init := cs[..|cs| - 1];
    var c := cs[|cs| - 1];
    var id := cs[j].id;
    var tail := if SpawnsInTables(c) then Repeat(c.id, GetOr(SpawnsOf(c, kind), key, 0)) else [];
    assert Contribution(cs, kind, key) == Contribution(init, kind, key) + tail;
    RepeatCount(c.id, GetOr(SpawnsOf(c, kind), key, 0), id);
    assert DistinctIds(init) by {
      forall a, b | 0 <= a < b < |init| ensures init[a].id != init[b].id {
        assert init[a] == cs[a] && init[b] == cs[b];
      }
    }
    if j < |cs| - 1 {
      assert init[j] == cs[j];
      ContributionCount(init, kind, key, j);
      assert c.id != id;
    } else {
      assert forall i :: 0 <= i < |init| ==> init[i].id != id by {
        forall i | 0 <= i < |init| ensures init[i].id != id {
          assert init[i] == cs[i];
        }
      }
      AbsentIdNotContributed(init, kind, key, id);
    }
  }

  /** One creature's spawns of one kind, appended to a table with nested loops. */
  method AppendSpawns<K(==)>(table: Table<K>, id: int, spawns: seq<Entry<K, int>>) returns (t: Table<K>)
    ensures t == AddCreature(table, id, spawns)
  {
    t := table;
    for j := 0 to |spawns|
      invariant t == AddCreature(table, id, spawns[..j])
    {
      var e := spawns[j];
      t := TryAdd(t, e.key, []);
      var bag := GetOr(t, e.key, []);
      var n := 0;
      while n < e.value
        invariant 0 <= n && (n <= e.value || n == 0)
        invariant bag == GetOr(TryAdd(AddCreature(table, id, spawns[..j]), e.key, []), e.key, []) + Repeat(id, n)
      {
        RepeatAppend(id, n);
        bag := bag + [id];
        n := n + 1;
      }
      if e.value < 0 {
        assert Repeat(id, e.value) == [];
      }
      t := Put(t, e.key, bag);
      assert spawns[..j + 1][..j] == spawns[..j];
    }
    assert spawns[..|spawns|] == spawns;
  }

  lemma RepeatAppend(x: int, n: int)
    requires n >= 0
    ensures Repeat(x, n) + [x] == Repeat(x, n + 1)
  {
    if n > 0 {
      RepeatAppend(x, n - 1);
    }
  }

  /** The reconciliation loop over the defaults (Startup.cs, lines 69-98). */
  method Reconcile(stored: Option<seq<Creature>>, defaults: seq<Creature>) returns (current: seq<Creature>, updateVersion: bool)
    ensures current == Merged(StartCatalog(stored, defaults), defaults)
    ensures updateVersion == NeedsBump(stored, defaults)
  {
    current := StartCatalog(stored, defaults);
    ghost var start := current;
    updateVersion := stored.None?;
    if |current| != |defaults| {
      updateVersion := true;
    }
    for i := 0 to |defaults|
      invariant current == Merged(start, defaults[..i])
      invariant updateVersion == (stored.None? || |start| != |defaults| || AnyDrifted(start, defaults, i))
    {
      var d := defaults[i];
      MergedStep(start, defaults, i);
      ghost var next := Merged(start, defaults[..i + 1]);
      if !HasId(current, d.id) {
        current := current + [d];
        assert current[|current| - 1] == d;
      }
      assert current == next;
      var c := FirstWithId(current, d.id);
      if d.(areaSpawns := c.areaSpawns) != c {
        // The source assigns `d` to the loop-local `c` here; the list keeps the stored entry.
        updateVersion := true;
      }
    }
    assert defaults[..|defaults|] == defaults;
  }

  /** The spawn-table loops (Startup.cs, lines 123-148), over tables that may already hold entries. */
  method BuildSpawnTables(cs: seq<Creature>, terrain0: SpawnTable, area0: SpawnTable, place0: SpawnTable)
    returns (terrain: SpawnTable, area: SpawnTable, place: SpawnTable)
    ensures terrain == BuildTable(terrain0, cs, Terrain)
    ensures area == BuildTable(area0, cs, Area)
    ensures place == BuildTable(place0, cs, Place)
  {
    terrain, area, place := terrain0, area0, place0;
    for i := 0 to |cs|
      invariant terrain == BuildTable(terrain0, cs[..i], Terrain)
      invariant area == BuildTable(area0, cs[..i], Area)
      invariant place == BuildTable(place0, cs[..i], Place)
    {
      var c := cs[i];
      assert cs[..i + 1][..i] == cs[..i];
      assert cs[..i + 1][i] == c;
      if c.isWild && !c.isHidden {
        terrain := AppendSpawns(terrain, c.id, c.terrainSpawns);
        area := AppendSpawns(area, c.id, c.areaSpawns);
        place := AppendSpawns(place, c.id, c.placeSpawns);
      }
    }
    assert cs[..|cs|] == cs;
  }

  // ---------------------------------------------------------------------
  // The start-up step
  // ---------------------------------------------------------------------

  /** Everything start-up writes: the stored catalog and version, and the process-wide lists and tables. */
  datatype CatalogState = CatalogState(
    storedCatalog: Option<seq<Creature>>,
    storedVersion: Option<int>,
    creatureList: seq<Creature>,
    creaturesById: map<int, Creature>,
    graduateCreatureCount: int,
    passportRewards: seq<Creature>,
    additionalSpawns: seq<Creature>,
    wanderingCreatures: seq<Creature>,
    terrainSpawnTables: SpawnTable,
    areaSpawnTables: SpawnTable,
    placeSpawnTables: SpawnTable)

  /**
   * What start-up leaves behind, from the stored catalog and version, the
   * built-in defaults and the tables as they were: the reconciled catalog,
   * stored again with a bumped version when needed, and the lists and tables
   * derived from it.
   */
  function StartupOutcome(stored: Option<seq<Creature>>, version: Option<int>, defaults: seq<Creature>,
                          terrain0: SpawnTable, area0: SpawnTable, place0: SpawnTable): (r: CatalogState)
    requires DistinctIds(StartCatalog(stored, defaults))
    ensures DistinctIds(r.creatureList)
  {
    var current := Merged(StartCatalog(stored, defaults), defaults);
    MergedAddsOnlyMissing(StartCatalog(stored, defaults), defaults);
    var bump := NeedsBump(stored, defaults);
    CatalogState(
      if bump then Some(current) else stored,
      if bump then Some(BumpedVersion(version)) else version,
      current, ById(current), |current| / 2,
      Filter(current, IsPassportReward), Filter(current, IsWildCreature), Filter(current, IsWanderer),
      BuildTable(terrain0, current, Terrain), BuildTable(area0, current, Area), BuildTable(place0, current, Place))
  }

  // ---------------------------------------------------------------------
  // The start-up step
  // ---------------------------------------------------------------------

  /**
   * The plugin's process-wide catalog (the static fields of the start-up
   * class) together with the stored catalog it reconciles with, held as one
   * `CatalogState` value.
   */
  class CreatureRegistry {
    var initialized: bool
    var state: CatalogState

    /** Catalog state before start-up has run, over a given store. */
    constructor (storedCatalog: Option<seq<Creature>>, storedVersion: Option<int>)
      ensures !initialized
      ensures state == CatalogState(storedCatalog, storedVersion, [], map[], 0, [], [], [], [], [], [])
    {
      initialized := false;
      state := CatalogState(storedCatalog, storedVersion, [], map[], 0, [], [], [], [], [], []);
    }

    /** `CreatureStartup.Startup()`, catalog part: runs once per process (lines 15-16 and 178). */
    method Startup(defaults: seq<Creature>)
      requires DistinctIds(StartCatalog(state.storedCatalog, defaults))
      modifies this
      ensures old(initialized) ==> unchanged(this)
      ensures !old(initialized) ==> initialized
      ensures !old(initialized) ==>
        var s := old(state);
        state == StartupOutcome(s.storedCatalog, s.storedVersion, defaults,
                                s.terrainSpawnTables, s.areaSpawnTables, s.placeSpawnTables)
    {
      if initialized {
        return;
      }
      var s := state;
      var current, updateVersion := Reconcile(s.storedCatalog, defaults);
      MergedAddsOnlyMissing(StartCatalog(s.storedCatalog, defaults), defaults);
      var terrain, area, place := BuildSpawnTables(current, s.terrainSpawnTables, s.areaSpawnTables, s.placeSpawnTables);
      state := CatalogState(
        if updateVersion then Some(current) else s.storedCatalog,
        if updateVersion then Some(BumpedVersion(s.storedVersion)) else s.storedVersion,
        current, ById(current), |current| / 2,
        Filter(current, IsPassportReward), Filter(current, IsWildCreature), Filter(current, IsWanderer),
        terrain, area, place);
      initialized := true;
    }
  }
}

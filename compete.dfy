// Compete mode (CompeteController.cs): the players of one team pool fragments
// of a creature on a Cell8; another player can knock the pool out, which
// sends every contributor a RETURNCOMPETE command.  A team swap withdraws a
// player from every pool (CommonHelpers.DeleteAllPlayerCompeteEntries).
// The covered areas and the team scores computed from them are geometry and
// are not modelled.

module Compete {
  import opened Common
  import opened Creatures
  import opened Progression
  import opened Scoring
  import opened Records
  import opened Commands

  /** A Compete entry per Cell8. */
  type Entries = map<string, CompeteModeEntry>

  /**
   * The pools in two places: `live` is the in-memory `allEntries` dictionary
   * that an update reads, `stored` the `competeEntry` area data that an
   * attack and a withdrawal read.  Every completed write updates both; an
   * update that throws after opening an empty cell leaves the cell live but
   * not stored.
   */
  datatype Pools = Pools(live: Entries, stored: Entries)

  /** An entry's running total is the sum of its contributions, one per account. */
  predicate Balanced(e: CompeteModeEntry) {
    DistinctKeys(e.creatureFragmentCounts) && e.totalFragments == SumValues(e.creatureFragmentCounts)
  }

  ghost predicate AllBalanced(entries: Entries) {
    forall cell :: cell in entries ==> Balanced(entries[cell])
  }

  ghost predicate PoolsBalanced(pools: Pools) {
    AllBalanced(pools.live) && AllBalanced(pools.stored)
  }

  /** What an account has in the entry so far; `0` when it has no contribution. */
  function Contributed(e: CompeteModeEntry, accountId: string): int {
    GetOr(e.creatureFragmentCounts, accountId, 0)
  }

  /** The entry an empty cell gets: the caller's team and creature, nothing contributed. */
  function NewEntry(creatureId: int, cell: string, team: int): (e: CompeteModeEntry)
    ensures Balanced(e) && e.totalFragments == 0
  {
    CompeteModeEntry(creatureId, team, [], cell, 0, 0)
  }

  /** The live entries once an empty cell has been given its new entry (`TryAdd`, before any other check). */
  function Opened(entries: Entries, cell: string, creatureId: int, team: int): (r: Entries)
    ensures cell in r && r - {cell} == entries - {cell}
    ensures cell in entries ==> r == entries
  {
    if cell in entries then entries else entries[cell := NewEntry(creatureId, cell, team)]
  }

  /** A caller may add to a cell that is empty or already held by its own team. */
  predicate Joinable(entries: Entries, cell: string, team: int) {
    cell !in entries || entries[cell].teamId == team
  }

  /** The requested total, cut down to the copies the caller has ever caught. */
  function ClampedRequest(fragmentsUsed: int, r: CreatureRecord): (n: int)
    ensures n <= r.totalCaught && n <= fragmentsUsed
    ensures n == fragmentsUsed || n == r.totalCaught
  {
    if fragmentsUsed > r.totalCaught then r.totalCaught else fragmentsUsed
  }

  /**
   * The entry once the caller's contribution becomes `n`: the total moves by
   * the difference, and the scouting is that of a stack of the caller's
   * creature `creatureId`, whatever creature the entry was opened with.
   */
  function Contribution(e: CompeteModeEntry, accountId: string, n: int, creatureId: int,
                        byId: map<int, Creature>): CompeteModeEntry
    requires WellFormedCatalog(byId) && creatureId in byId
  {
    var total := e.totalFragments + (n - Contributed(e, accountId));
    e.(creatureFragmentCounts := Put(e.creatureFragmentCounts, accountId, n),
       totalFragments := total,
       scouting := StackScouting(byId, creatureId, total))
  }

  /**
   * A contribution keeps the entry balanced, sets the caller's share to `n`,
   * moves the total by exactly the change, and leaves every other account's
   * share as it was.
   */
  lemma ContributionBalanced(e: CompeteModeEntry, accountId: string, n: int, creatureId: int,
                             byId: map<int, Creature>, other: string)
    requires WellFormedCatalog(byId) && creatureId in byId && Balanced(e)
    ensures var e' := Contribution(e, accountId, n, creatureId, byId);
      Balanced(e') && Contributed(e', accountId) == n &&
      e'.totalFragments - e.totalFragments == n - Contributed(e, accountId) &&
      (other != accountId ==> Contributed(e', other) == Contributed(e, other)) &&
      e'.creatureId == e.creatureId && e'.teamId == e.teamId
  {
    PutKeepsDistinct(e.creatureFragmentCounts, accountId, n);
    SumValuesPut(e.creatureFragmentCounts, accountId, n);
    FindPut(e.creatureFragmentCounts, accountId, n, accountId);
    FindPut(e.creatureFragmentCounts, accountId, n, other);
  }

  /** The live map after a change: an entry whose total is zero leaves it, any other is stored. */
  function Settled(entries: Entries, cell: string, e: CompeteModeEntry): (r: Entries)
    ensures r - {cell} == entries - {cell}
    ensures cell in r <==> e.totalFragments != 0
  {
    if e.totalFragments == 0 then entries - {cell} else entries[cell := e]
  }

  /** The caller's own note of the cell, moved by the change; a new note names the creature sent. */
  function Noted(compete: map<string, PlayerCompeteEntry>, cell: string, creatureId: int, change: int)
    : (r: map<string, PlayerCompeteEntry>)
    ensures cell in r && r - {cell} == compete - {cell}
    ensures r[cell].fragmentCount == (if cell in compete then compete[cell].fragmentCount else 0) + change
    ensures cell in compete ==> r[cell].creatureId == compete[cell].creatureId
    ensures cell !in compete ==> r[cell].creatureId == creatureId
  {
    if cell in compete then compete[cell := compete[cell].(fragmentCount := compete[cell].fragmentCount + change)]
    else compete[cell := PlayerCompeteEntry(creatureId, change)]
  }

  /**
   * `UpdatePlacedCreature`: sets the caller's contribution to a Cell8 to
   * `fragmentsUsed` (a new total, not a change) and returns the change.  The
   * pool is read from the live dictionary.  The missing-record lookup throws
   * after an empty cell has already been given its live entry, and before
   * anything is stored.
   */
  method UpdatePlacedCreature(pools: Pools, account: Account, creatures: CreatureData,
                              compete: map<string, PlayerCompeteEntry>, accountId: string, cell: string,
                              inBounds: bool, creatureId: int, fragmentsUsed: int, byId: map<int, Creature>)
    returns (pools': Pools, creatures': CreatureData, compete': map<string, PlayerCompeteEntry>,
             placed: int, failed: bool)
    requires Coherent(byId, creatures)
    ensures !inBounds || !Joinable(pools.live, cell, account.team) ==>
      placed == 0 && !failed && pools' == pools && creatures' == creatures && compete' == compete
    ensures inBounds && Joinable(pools.live, cell, account.team) && creatureId !in creatures ==>
      failed && pools' == pools.(live := Opened(pools.live, cell, creatureId, account.team)) &&
      creatures' == creatures && compete' == compete
    ensures inBounds && Joinable(pools.live, cell, account.team) && creatureId in creatures ==>
      var e := Opened(pools.live, cell, creatureId, account.team)[cell];
      var r := creatures[creatureId];
      var n := ClampedRequest(fragmentsUsed, r);
      var e' := Contribution(e, accountId, n, creatureId, byId);
      !failed && placed == n - Contributed(e, accountId) &&
      pools' == Pools(Settled(pools.live, cell, e'), Settled(pools.stored, cell, e')) &&
      creatures' == creatures[creatureId := r.(currentAvailableCompete := r.currentAvailableCompete - placed)] &&
      creatures'[creatureId].currentAvailableCompete + n == r.currentAvailableCompete + Contributed(e, accountId) &&
      compete' == Noted(compete, cell, creatureId, placed)
    ensures PoolsBalanced(pools) ==> PoolsBalanced(pools')
  {
    if !inBounds {
      return pools, creatures, compete, 0, false;
    }
    var live := Opened(pools.live, cell, creatureId, account.team);
    var e := live[cell];
    if account.team != e.teamId {
      return pools, creatures, compete, 0, false;
    }
    if creatureId !in creatures {
      pools' := pools.(live := live);
      assert PoolsBalanced(pools) ==> PoolsBalanced(pools');
      return pools', creatures, compete, 0, true;
    }
    var r := creatures[creatureId];
    var n := ClampedRequest(fragmentsUsed, r);
    placed := n - Contributed(e, accountId);
    var e' := Contribution(e, accountId, n, creatureId, byId);
    pools' := Pools(Settled(pools.live, cell, e'), Settled(pools.stored, cell, e'));
    creatures' := creatures[creatureId := r.(currentAvailableCompete := r.currentAvailableCompete - placed)];
    compete' := Noted(compete, cell, creatureId, placed);
    failed := false;
    if PoolsBalanced(pools) {
      ContributionBalanced(e, accountId, n, creatureId, byId, accountId);
    }
  }

  /**
   * After an update that throws on an empty cell the pool is live but not
   * stored, so a withdrawal from that cell still throws.
   */
  lemma OpenedPoolNotStored(pools: Pools, cell: string, creatureId: int, team: int, accountName: string,
                            byId: map<int, Creature>)
    requires WellFormedCatalog(byId) && cell !in pools.live && cell !in pools.stored
    ensures var after := pools.(live := Opened(pools.live, cell, creatureId, team));
      cell in after.live && WithdrawStep(after, cell, accountName, byId) == Withdrawal(after, true)
  {
  }

  // ---------------------------------------------------------------------
  // Attack
  // ---------------------------------------------------------------------

  /** `GetPlacedCreature`: the stored entry, or an empty `new CompeteModeEntry()`. */
  function PlacedEntry(stored: Entries, cell: string): (e: CompeteModeEntry)
    ensures cell in stored ==> e == stored[cell]
    ensures cell !in stored ==> Balanced(e) && e.totalFragments == 0 && e.creatureFragmentCounts == []
  {
    if cell in stored then stored[cell] else CompeteModeEntry(0, 0, [], "", 0, 0)
  }

  /** A fresh record of creature `id` after `FastBoost(n)`: one side of a Compete fight. */
  function Stack(byId: map<int, Creature>, id: int, n: int): CreatureRecord
    requires WellFormedCatalog(byId) && id in byId
  {
    FastBoosted(FreshRecord(id), n, StatsFor(byId, id))
  }

  /** The RETURNCOMPETE command that gives `count` fragments of `creatureId` back from `cell`. */
  function ReturnCompeteCommand(creatureId: int, count: int, cell: string): UpdateCommand {
    UpdateCommand("RETURNCOMPETE", IntToString(creatureId) + "|" + IntToString(count) + "|" + cell)
  }

  /** Every contribution of `counts`, in order, queued back to its account. */
  function QueueReturns(q: Queues, counts: seq<Entry<string, int>>, creatureId: int, cell: string): Queues
    decreases |counts|
  {
    if counts == [] then q
    else
      var e := counts[|counts| - 1];
      Enqueued(QueueReturns(q, counts[..|counts| - 1], creatureId, cell), e.key, ReturnCompeteCommand(creatureId, e.value, cell))
  }

  /** Each contributor of a balanced entry receives exactly one RETURNCOMPETE, for its own share. */
  lemma {:induction false} QueueReturnsPending(q: Queues, counts: seq<Entry<string, int>>, creatureId: int,
                                               cell: string, a: string)
    requires DistinctKeys(counts)
    ensures Pending(QueueReturns(q, counts, creatureId, cell), a) ==
      Pending(q, a) + (if HasKey(counts, a) then [ReturnCompeteCommand(creatureId, GetOr(counts, a, 0), cell)] else [])
    decreases |counts|
  {
    if counts != [] {
      var init, e := counts[..|counts| - 1], counts[|counts| - 1];
      assert counts == init + [e];
      LastKeyFresh(counts);
      QueueReturnsPending(q, init, creatureId, cell, a);
      HasKeyAppend(init, e, a);
      FindAppend(init, e, a);
      if a == e.key {
        assert GetOr(counts, a, 0) == e.value;
      } else {
        FindHasKey(init, a);
        assert GetOr(counts, a, 0) == GetOr(init, a, 0);
      }
    }
  }

  /**
   * `Attack`: all the attacker's available Compete fragments of one creature
   * against the cell's pooled total.  Both stacks are built from the
   * attacker's creature, so the defender's own creature plays no part.  A win
   * empties the cell and queues a RETURNCOMPETE to every contributor; the
   * attacker spends nothing.  There is no bounds or team check.  The pool
   * is read from the stored data, and a win removes it from both places.
   */
  method Attack(pools: Pools, creatures: CreatureData, queues: Queues, cell: string, creatureId: int,
                byId: map<int, Creature>)
    returns (pools': Pools, queues': Queues, won: Option<bool>)
    requires Coherent(byId, creatures)
    ensures creatureId !in creatures ==> won.None? && pools' == pools && queues' == queues
    ensures creatureId in creatures ==>
      var r := creatures[creatureId];
      var placed := PlacedEntry(pools.stored, cell);
      won == Some(Beats(Stack(byId, r.id, r.currentAvailableCompete), Stack(byId, r.id, placed.totalFragments)))
    ensures won == Some(true) ==>
      var placed := PlacedEntry(pools.stored, cell);
      pools' == Pools(pools.live - {cell}, pools.stored - {cell}) &&
      queues' == QueueReturns(queues, placed.creatureFragmentCounts, placed.creatureId, cell)
    ensures won != Some(true) ==> pools' == pools && queues' == queues
  {
    if creatureId !in creatures {
      return pools, queues, None;
    }
    var thisCreature := creatures[creatureId];
    var placedEntry := PlacedEntry(pools.stored, cell);
    var attackerCi := new PlayerCreatureInfo(thisCreature.id);
    attackerCi.FastBoost(thisCreature.currentAvailableCompete, byId);
    var defenderCi := new PlayerCreatureInfo(thisCreature.id);
    defenderCi.FastBoost(placedEntry.totalFragments, byId);
    if attackerCi.strength > defenderCi.defense {
      pools' := Pools(pools.live - {cell}, pools.stored - {cell});
      var counts := placedEntry.creatureFragmentCounts;
      queues' := queues;
      for i := 0 to |counts|
        invariant queues' == QueueReturns(queues, counts[..i], placedEntry.creatureId, cell)
      {
        assert counts[..i + 1][..i] == counts[..i];
        queues' := UpdateAccountPendingCommand(queues', counts[i].key, "RETURNCOMPETE",
          IntToString(placedEntry.creatureId) + "|" + IntToString(counts[i].value) + "|" + cell);
      }
      assert counts[..|counts|] == counts;
      won := Some(true);
    } else {
      pools', queues', won := pools, queues, Some(false);
    }
  }

  /** The outcome depends on the attacker's creature and the pooled total only: which creature the pool holds does not matter. */
  lemma AttackIgnoresDefenderCreature(entries: Entries, cell: string, otherId: int, r: CreatureRecord,
                                      byId: map<int, Creature>)
    requires WellFormedCatalog(byId) && r.id in byId && cell in entries
    ensures var other := entries[cell := entries[cell].(creatureId := otherId)];
      Beats(Stack(byId, r.id, r.currentAvailableCompete), Stack(byId, r.id, PlacedEntry(entries, cell).totalFragments)) ==
      Beats(Stack(byId, r.id, r.currentAvailableCompete), Stack(byId, r.id, PlacedEntry(other, cell).totalFragments))
  {
  }

  /**
   * The refund round trip: the command queued to a contributor, once that
   * player's pending commands run, gives back its share to the record of
   * the pool's creature and forgets the cell.
   */
  lemma AttackRefundsContributor(e: CompeteModeEntry, cell: string, a: string, p: Progress,
                                 creatureList: seq<Creature>, byId: map<int, Creature>, parse: Parser)
    requires Balanced(e) && HasKey(e.creatureFragmentCounts, a) && '|' !in cell
    requires Coherent(byId, p.files.creatures) && ParsesDecimal(parse) && e.creatureId in p.files.creatures
    ensures var r := ApplyCommand(p, ReturnCompeteCommand(e.creatureId, Contributed(e, a), cell), creatureList, byId, parse);
      r.Some? &&
      r.value.files.creatures[e.creatureId].currentAvailableCompete ==
        p.files.creatures[e.creatureId].currentAvailableCompete + Contributed(e, a) &&
      cell !in r.value.files.compete
  {
    ReturnCompeteRestores(p, e.creatureId, Contributed(e, a), cell, creatureList, byId, parse);
  }

  // ---------------------------------------------------------------------
  // Withdrawing a player from every pool
  // ---------------------------------------------------------------------

  /** One pool without the account's share: the total is re-summed, and a pool still holding fragments is re-scouted. */
  function Withdrawn(e: CompeteModeEntry, accountName: string, byId: map<int, Creature>): CompeteModeEntry
    requires WellFormedCatalog(byId) && e.creatureId in byId
  {
    var counts := Remove(e.creatureFragmentCounts, accountName);
    var total := SumValues(counts);
    e.(creatureFragmentCounts := counts,
       totalFragments := total,
       scouting := if total > 0 then StackScouting(byId, e.creatureId, total) else e.scouting)
  }

  /** A withdrawal removes exactly the account's share and keeps the pool balanced. */
  lemma WithdrawnBalanced(e: CompeteModeEntry, accountName: string, byId: map<int, Creature>, other: string)
    requires WellFormedCatalog(byId) && e.creatureId in byId && Balanced(e)
    ensures var e' := Withdrawn(e, accountName, byId);
      Balanced(e') && !HasKey(e'.creatureFragmentCounts, accountName) &&
      e'.totalFragments == e.totalFragments - Contributed(e, accountName) &&
      (other != accountName ==> Contributed(e', other) == Contributed(e, other))
  {
    RemoveKeepsDistinct(e.creatureFragmentCounts, accountName);
    SumValuesRemove(e.creatureFragmentCounts, accountName);
    FindRemove(e.creatureFragmentCounts, accountName, accountName);
    FindRemove(e.creatureFragmentCounts, accountName, other);
    FindHasKey(Remove(e.creatureFragmentCounts, accountName), accountName);
  }

  /** The pools as far as the loop got, and whether it threw there. */
  datatype Withdrawal = Withdrawal(pools: Pools, failed: bool)

  /** A pool written back by a withdrawal goes to the stored data and the live dictionary alike. */
  function WrittenBack(pools: Pools, cell: string, e: CompeteModeEntry): Pools {
    Pools(pools.live[cell := e], pools.stored[cell := e])
  }

  /**
   * One iteration, reading the stored pool: a cell with none stored throws,
   * and so does a pool still holding fragments of a creature the catalog
   * lacks.
   */
  function WithdrawStep(pools: Pools, cell: string, accountName: string, byId: map<int, Creature>): Withdrawal
    requires WellFormedCatalog(byId)
  {
    if cell !in pools.stored then Withdrawal(pools, true)
    else
      var e := pools.stored[cell];
      if e.creatureId !in byId then
        var counts := Remove(e.creatureFragmentCounts, accountName);
        if SumValues(counts) > 0 then Withdrawal(pools, true)
        else Withdrawal(WrittenBack(pools, cell, e.(creatureFragmentCounts := counts, totalFragments := SumValues(counts))), false)
      else Withdrawal(WrittenBack(pools, cell, Withdrawn(e, accountName, byId)), false)
  }

  /** The loop over the player's cells in dictionary order; the cells done before a throw stay done. */
  function WithdrawAll(pools: Pools, cells: seq<string>, accountName: string, byId: map<int, Creature>): Withdrawal
    requires WellFormedCatalog(byId)
    decreases |cells|
  {
    if cells == [] then Withdrawal(pools, false)
    else
      var w := WithdrawAll(pools, cells[..|cells| - 1], accountName, byId);
      if w.failed then w else WithdrawStep(w.pools, cells[|cells| - 1], accountName, byId)
  }

  /**
   * The loop keeps the set of stored cells, never drops a live one, and
   * touches no cell outside `cells` in either place.
   */
  lemma {:induction false} WithdrawAllFrame(pools: Pools, cells: seq<string>, accountName: string,
                                            byId: map<int, Creature>)
    requires WellFormedCatalog(byId)
    ensures var w := WithdrawAll(pools, cells, accountName, byId).pools;
      w.stored.Keys == pools.stored.Keys && pools.live.Keys <= w.live.Keys &&
      forall c :: c !in cells ==>
        (c in w.live <==> c in pools.live) &&
        (c in pools.live ==> w.live[c] == pools.live[c]) &&
        (c in pools.stored ==> w.stored[c] == pools.stored[c])
    decreases |cells|
  {
    if cells != [] {
      var init := cells[..|cells| - 1];
      WithdrawAllFrame(pools, init, accountName, byId);
      forall c | c !in cells ensures c !in init { }
    }
  }

  /** Every pool, live or stored, stays balanced through the loop. */
  lemma {:induction false} WithdrawAllBalanced(pools: Pools, cells: seq<string>, accountName: string,
                                               byId: map<int, Creature>)
    requires WellFormedCatalog(byId) && PoolsBalanced(pools)
    ensures PoolsBalanced(WithdrawAll(pools, cells, accountName, byId).pools)
    decreases |cells|
  {
    if cells != [] {
      var init, cell := cells[..|cells| - 1], cells[|cells| - 1];
      WithdrawAllBalanced(pools, init, accountName, byId);
      var w := WithdrawAll(pools, init, accountName, byId);
      if !w.failed && cell in w.pools.stored {
        var e := w.pools.stored[cell];
        if e.creatureId in byId {
          WithdrawnBalanced(e, accountName, byId, accountName);
        } else {
          RemoveKeepsDistinct(e.creatureFragmentCounts, accountName);
        }
      }
    }
  }

  /** An iteration that completes wrote back one stored pool, now without the account's share. */
  lemma WithdrawStepClears(pools: Pools, cell: string, accountName: string, byId: map<int, Creature>)
    requires WellFormedCatalog(byId)
    ensures var w := WithdrawStep(pools, cell, accountName, byId);
      !w.failed ==> (cell in pools.stored && cell in w.pools.stored &&
                     w.pools == WrittenBack(pools, cell, w.pools.stored[cell]) &&
                     !HasKey(w.pools.stored[cell].creatureFragmentCounts, accountName))
  {
    if cell in pools.stored {
      var counts := pools.stored[cell].creatureFragmentCounts;
      FindRemove(counts, accountName, accountName);
      FindHasKey(Remove(counts, accountName), accountName);
    }
  }

  /**
   * A withdrawal that completes had a stored pool for every cell, and leaves
   * the account with no share in it, with the live pool equal to the stored
   * one.
   */
  lemma {:induction false} WithdrawAllClears(pools: Pools, cells: seq<string>, accountName: string,
                                             byId: map<int, Creature>)
    requires WellFormedCatalog(byId)
    ensures var w := WithdrawAll(pools, cells, accountName, byId);
      !w.failed ==> forall i :: 0 <= i < |cells| ==>
        cells[i] in pools.stored && cells[i] in w.pools.stored && cells[i] in w.pools.live &&
        w.pools.live[cells[i]] == w.pools.stored[cells[i]] &&
        !HasKey(w.pools.stored[cells[i]].creatureFragmentCounts, accountName)
    decreases |cells|
  {
    if cells != [] {
      var init, cell := cells[..|cells| - 1], cells[|cells| - 1];
      WithdrawAllClears(pools, init, accountName, byId);
      WithdrawAllFrame(pools, init, accountName, byId);
      var w := WithdrawAll(pools, init, accountName, byId);
      if !w.failed {
        WithdrawStepClears(w.pools, cell, accountName, byId);
        if !WithdrawStep(w.pools, cell, accountName, byId).failed {
          forall i | 0 <= i < |init| ensures init[i] == cells[i] { }
        }
      }
    }
  }

  /**
   * `DeleteAllPlayerCompeteEntries`: takes the account's share out of every
   * cell its notes name, in `cells` order, and writes each pool back to the
   * stored data and the live dictionary even when it is left empty.  The
   * account's notes are then deleted.
   */
  method DeleteAllPlayerCompeteEntries(pools: Pools, cells: seq<string>, accountName: string,
                                       byId: map<int, Creature>)
    returns (pools': Pools, failed: bool)
    requires WellFormedCatalog(byId)
    ensures Withdrawal(pools', failed) == WithdrawAll(pools, cells, accountName, byId)
  {
    pools' := pools;
    for i := 0 to |cells|
      invariant WithdrawAll(pools, cells[..i], accountName, byId) == Withdrawal(pools', false)
    {
      assert cells[..i + 1][..i] == cells[..i];
      var cell := cells[i];
      var step := WithdrawStep(pools', cell, accountName, byId);
      if step.failed {
        WithdrawAllStops(pools, cells, i + 1, accountName, byId);
        return step.pools, true;
      }
      pools' := step.pools;
    }
    assert cells[..|cells|] == cells;
    failed := false;
  }

  /** Once an iteration throws, the rest of the loop does nothing more. */
  lemma {:induction false} WithdrawAllStops(pools: Pools, cells: seq<string>, i: int, accountName: string,
                                            byId: map<int, Creature>)
    requires WellFormedCatalog(byId) && 0 <= i <= |cells|
    requires WithdrawAll(pools, cells[..i], accountName, byId).failed
    ensures WithdrawAll(pools, cells, accountName, byId) == WithdrawAll(pools, cells[..i], accountName, byId)
    decreases |cells| - i
  {
    if i < |cells| {
      assert cells[..i + 1][..i] == cells[..i];
      WithdrawAllStops(pools, cells, i + 1, accountName, byId);
    } else {
      assert cells[..i] == cells;
    }
  }
}

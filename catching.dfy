// Walking into a cell and using a vortex token (CreatureController.cs): the
// coin grant for entering a Cell10, and catching the wild creatures nearby.
// A player's recently caught list holds creature uids and keeps the same
// creature from being caught twice.

module Catching {
  import opened Common
  import opened Creatures
  import opened Progression
  import opened Records
  import opened Spawning

  /** A grant blocks the same cell for 22 hours. */
  const GrantBlockTicks: int := 22 * TicksPerHour

  /** `graduateGrantsCount`: the grant count past which a player may graduate. */
  const GraduateGrantsCount: int := 10000

  /** The longest recently caught list a catch leaves behind. */
  const RecentLimit: int := 500

  // ---------------------------------------------------------------------
  // Coin grants
  // ---------------------------------------------------------------------

  /** The outcome of the coin grant: the account and blocks to store, and the coins given (0 when none). */
  datatype GrantResult = GrantResult(account: Account, grantBlocks: map<string, int>, coins: int, granted: bool)

  /**
   * The grant for entering `plusCode`: given when the two-second lock is off
   * and the cell has no block or an expired one.  A new cell gets a block for
   * 22 hours; an expired block is not renewed (the new time only goes to a
   * local), and then every block not in the future is dropped, so the cell
   * is left unblocked.  The account gains the coins and one grant, and
   * becomes eligible to graduate past `GraduateGrantsCount` grants.
   */
  function CoinGrant(account: Account, blocks: map<string, int>, plusCode: string, now: int, locked: bool, coins: int): (g: GrantResult)
    requires 3 <= coins < 7
    ensures !g.granted ==> g == GrantResult(account, blocks, 0, false)
    ensures g.granted <==> !locked && (plusCode !in blocks || blocks[plusCode] < now)
    ensures g.granted ==> (g.coins == coins &&
      g.account == account.(currencies := account.currencies.(baseCurrency := account.currencies.baseCurrency + coins),
                            totalGrants := account.totalGrants + 1,
                            graduationEligible := account.graduationEligible || account.totalGrants + 1 > GraduateGrantsCount))
    ensures g.granted ==> forall k :: k in g.grantBlocks ==> g.grantBlocks[k] > now
  {
    if locked || (plusCode in blocks && !(blocks[plusCode] < now)) then GrantResult(account, blocks, 0, false)
    else
      var added := if plusCode !in blocks then blocks[plusCode := now + GrantBlockTicks] else blocks;
      var pruned := map k | k in added && added[k] > now :: added[k];
      var paid := account.(currencies := account.currencies.(baseCurrency := account.currencies.baseCurrency + coins),
                           totalGrants := account.totalGrants + 1);
      var account' := if !paid.graduationEligible && paid.totalGrants > GraduateGrantsCount then paid.(graduationEligible := true) else paid;
      GrantResult(account', pruned, coins, true)
  }

  /**
   * A grant on a new cell blocks that cell for 22 hours, and keeps every
   * other block still in the future.
   */
  lemma GrantBlocksNewCell(account: Account, blocks: map<string, int>, plusCode: string, now: int, coins: int)
    requires 3 <= coins < 7 && plusCode !in blocks
    ensures var g := CoinGrant(account, blocks, plusCode, now, false, coins);
      g.granted && plusCode in g.grantBlocks && g.grantBlocks[plusCode] == now + GrantBlockTicks &&
      (forall k :: k in blocks && blocks[k] > now ==> k in g.grantBlocks && g.grantBlocks[k] == blocks[k]) &&
      !CoinGrant(g.account, g.grantBlocks, plusCode, now, false, coins).granted
  {
  }

  /**
   * A cell whose block has expired pays out and is left without a block, so
   * entering it again at once (with the lock off) pays out again.
   */
  lemma ExpiredBlockNotRenewed(account: Account, blocks: map<string, int>, plusCode: string, now: int, c1: int, c2: int)
    requires 3 <= c1 < 7 && 3 <= c2 < 7 && plusCode in blocks && blocks[plusCode] < now
    ensures var g := CoinGrant(account, blocks, plusCode, now, false, c1);
      g.granted && plusCode !in g.grantBlocks &&
      CoinGrant(g.account, g.grantBlocks, plusCode, now, false, c2).granted
  {
  }

  /** Graduation eligibility, once reached, is never lost, and grants only ever add coins. */
  lemma GrantMonotone(account: Account, blocks: map<string, int>, plusCode: string, now: int, locked: bool, coins: int)
    requires 3 <= coins < 7
    ensures var g := CoinGrant(account, blocks, plusCode, now, locked, coins);
      (account.graduationEligible ==> g.account.graduationEligible) &&
      account.currencies.baseCurrency <= g.account.currencies.baseCurrency <= account.currencies.baseCurrency + 6 &&
      g.account.totalGrants - account.totalGrants == (if g.granted then 1 else 0)
  {
  }

  // ---------------------------------------------------------------------
  // Catching
  // ---------------------------------------------------------------------

  /** A run of the catch loop: the recent list, the collection and the spawns caught, in order. */
  datatype CatchRun = CatchRun(recent: seq<int>, creatures: CreatureData, caught: seq<Spawned>)

  /** The bookkeeping of a run apart from the collection: the recent list and the spawns caught. */
  datatype Ledger = Ledger(recent: seq<int>, caught: seq<Spawned>)

  /** Before each spawn is looked at, a list longer than 499 loses its oldest uid. */
  function Trimmed(recent: seq<int>): (r: seq<int>)
    ensures |recent| > 499 ==> r == recent[1..]
    ensures |recent| <= 499 ==> r == recent
  {
    if |recent| > 499 then recent[1..] else recent
  }

  /** One spawn of the catch loop: caught unless its uid is on the (trimmed) recent list. */
  function LedgerStep(l: Ledger, s: Spawned): Ledger {
    var recent := Trimmed(l.recent);
    if s.creature.uid in recent then l.(recent := recent)
    else Ledger(recent + [s.creature.uid], l.caught + [s])
  }

  /** The catch loop's bookkeeping over the spawns in order. */
  function LedgerOf(recent: seq<int>, spawns: seq<Spawned>): (l: Ledger)
    ensures |l.caught| <= |spawns|
    ensures forall s :: s in l.caught ==> s in spawns
    decreases |spawns|
  {
    if spawns == [] then Ledger(recent, [])
    else
      var init := spawns[..|spawns| - 1];
      assert forall s :: s in init ==> s in spawns;
      LedgerStep(LedgerOf(recent, init), spawns[|spawns| - 1])
  }

  /** The collection after catching one more of `id`: its record, new if need be, is boosted. */
  function CaughtOne(creatures: CreatureData, id: int, byId: map<int, Creature>): CreatureData {
    var r := if id in creatures then creatures[id] else FreshRecord(id);
    creatures[id := Boosted(r, StatsFor(byId, r.id))]
  }

  /** A catch keeps the collection's records on catalog creatures. */
  lemma CaughtOneCoherent(byId: map<int, Creature>, creatures: CreatureData, id: int)
    requires Coherent(byId, creatures) && id in byId
    ensures Coherent(byId, CaughtOne(creatures, id, byId))
  {
  }

  /** The collection after the catches, in order. */
  function Collected(creatures: CreatureData, caught: seq<Spawned>, byId: map<int, Creature>): CreatureData
    decreases |caught|
  {
    if caught == [] then creatures
    else CaughtOne(Collected(creatures, caught[..|caught| - 1], byId), caught[|caught| - 1].creature.id, byId)
  }

  /** The catch loop over the spawns in order, from a recent list and a collection. */
  function CatchAll(recent: seq<int>, creatures: CreatureData, spawns: seq<Spawned>, byId: map<int, Creature>): (r: CatchRun)
    ensures forall s :: s in r.caught ==> s in spawns
  {
    var l := LedgerOf(recent, spawns);
    CatchRun(l.recent, Collected(creatures, l.caught, byId), l.caught)
  }

  /** The uids of a run of spawns. */
  function Uids(spawns: seq<Spawned>): (r: seq<int>)
    ensures |r| == |spawns| && forall i :: 0 <= i < |spawns| ==> r[i] == spawns[i].creature.uid
    decreases |spawns|
  {
    if spawns == [] then [] else Uids(spawns[..|spawns| - 1]) + [spawns[|spawns| - 1].creature.uid]
  }

  /** How many spawns in the run are of creature `id`. */
  function CountId(spawns: seq<Spawned>, id: int): (n: nat)
    ensures n <= |spawns|
    ensures n == 0 <==> forall s :: s in spawns ==> s.creature.id != id
    decreases |spawns|
  {
    if spawns == [] then 0
    else
      var init := spawns[..|spawns| - 1];
      assert forall s :: s in spawns <==> s in init || s == spawns[|spawns| - 1];
      CountId(init, id) + (if spawns[|spawns| - 1].creature.id == id then 1 else 0)
  }

  /** The collection's totals before a run: 0 for a creature the player has no record of. */
  function TotalOf(creatures: CreatureData, id: int): int {
    if id in creatures then creatures[id].totalCaught else 0
  }

  /** The recent list never grows past 500 uids. */
  lemma {:induction false} RecentBounded(recent: seq<int>, spawns: seq<Spawned>)
    requires |recent| <= RecentLimit
    ensures |LedgerOf(recent, spawns).recent| <= RecentLimit
    decreases |spawns|
  {
    if spawns != [] {
      RecentBounded(recent, spawns[..|spawns| - 1]);
    }
  }

  /**
   * Catching raises each creature's total by the number of its spawns
   * caught, and adds records only for creatures caught.
   */
  lemma {:induction false} CollectedTotals(creatures: CreatureData, caught: seq<Spawned>, byId: map<int, Creature>)
    ensures var c := Collected(creatures, caught, byId);
      (forall id :: id in c <==> id in creatures || exists s :: s in caught && s.creature.id == id) &&
      (forall id :: id in c ==> c[id].totalCaught == TotalOf(creatures, id) + CountId(caught, id))
    decreases |caught|
  {
    if caught != [] {
      var init := caught[..|caught| - 1];
      CollectedTotals(creatures, init, byId);
      assert forall s :: s in caught <==> s in init || s == caught[|caught| - 1];
    }
  }

  /** The recent list of `l` is a suffix of `recent` followed by the uids `l` caught. */
  ghost predicate SuffixOfCatches(recent: seq<int>, l: Ledger) {
    var all := recent + Uids(l.caught);
    |l.recent| <= |all| && l.recent == all[|all| - |l.recent|..]
  }

  lemma SuffixStep(recent: seq<int>, l: Ledger, s: Spawned)
    requires SuffixOfCatches(recent, l)
    ensures SuffixOfCatches(recent, LedgerStep(l, s))
  {
    var all := recent + Uids(l.caught);
    assert Trimmed(l.recent) == all[|all| - |Trimmed(l.recent)|..];
    var l' := LedgerStep(l, s);
    if s.creature.uid !in Trimmed(l.recent) {
      assert Uids(l'.caught) == Uids(l.caught) + [s.creature.uid];
      var all' := all + [s.creature.uid];
      assert recent + Uids(l'.caught) == all';
      assert l'.recent == all'[|all'| - |l'.recent|..];
    }
  }

  /**
   * The recent list only ever loses its oldest uids: after a run it is a
   * suffix of the old list followed by the uids caught.
   */
  lemma {:induction false} RecentIsSuffix(recent: seq<int>, spawns: seq<Spawned>)
    ensures SuffixOfCatches(recent, LedgerOf(recent, spawns))
    decreases |spawns|
  {
    if spawns == [] {
      assert recent + Uids([]) == recent;
    } else {
      RecentIsSuffix(recent, spawns[..|spawns| - 1]);
      SuffixStep(recent, LedgerOf(recent, spawns[..|spawns| - 1]), spawns[|spawns| - 1]);
    }
  }

  /** Without trimming, the list is exactly the old one followed by the uids caught, with no repeats. */
  ghost predicate Untrimmed(recent: seq<int>, l: Ledger) {
    l.recent == recent + Uids(l.caught) && (Distinct(recent) ==> Distinct(l.recent))
  }

  lemma UntrimmedStep(recent: seq<int>, l: Ledger, s: Spawned)
    requires Untrimmed(recent, l) && |l.recent| <= 499
    ensures Untrimmed(recent, LedgerStep(l, s)) && s.creature.uid in LedgerStep(l, s).recent
  {
    var l' := LedgerStep(l, s);
    if s.creature.uid !in l.recent {
      assert Uids(l'.caught) == Uids(l.caught) + [s.creature.uid];
      assert l'.recent == l.recent + [s.creature.uid];
      assert forall i :: 0 <= i < |l.recent| ==> l.recent[i] != s.creature.uid;
    }
  }

  /** A step only adds to the recent list while it has room. */
  lemma KeepsUids(l: Ledger, s: Spawned, u: int)
    requires |l.recent| <= 499 && u in l.recent
    ensures u in LedgerStep(l, s).recent
  {
  }

  /**
   * While the list has room for every spawn looked at, nothing is trimmed:
   * the list grows by exactly the uids caught, none of which was on it
   * before or is caught twice, and every spawn's uid ends up on it.
   */
  lemma {:induction false} NoRecatchWithinWindow(recent: seq<int>, spawns: seq<Spawned>)
    requires |recent| + |spawns| <= RecentLimit
    ensures Untrimmed(recent, LedgerOf(recent, spawns))
    ensures forall s :: s in spawns ==> s.creature.uid in LedgerOf(recent, spawns).recent
    decreases |spawns|
  {
    if spawns == [] {
      assert recent + Uids([]) == recent;
    } else {
      var init, last := spawns[..|spawns| - 1], spawns[|spawns| - 1];
      assert spawns == init + [last];
      NoRecatchWithinWindow(recent, init);
      var run := LedgerOf(recent, init);
      assert |run.recent| == |recent| + |Uids(run.caught)| <= |recent| + |init| <= 499;
      UntrimmedStep(recent, run, last);
      KeepsAll(run, init, last);
    }
  }

  lemma KeepsAll(l: Ledger, seen: seq<Spawned>, s: Spawned)
    requires |l.recent| <= 499 && forall t :: t in seen ==> t.creature.uid in l.recent
    requires s.creature.uid in LedgerStep(l, s).recent
    ensures forall t :: t in seen + [s] ==> t.creature.uid in LedgerStep(l, s).recent
  {
    forall t | t in seen + [s]
      ensures t.creature.uid in LedgerStep(l, s).recent
    {
      if t != s {
        KeepsUids(l, s, t.creature.uid);
      }
    }
  }

  /** `results.plusCode`, `activeGame` and `difficulty` of the last catch. */
  datatype CatchInfo = CatchInfo(creatureId: int, uid: int, plusCode8: string, activeGame: string, difficulty: int)

  /** `EnterAreaResults`: the coins granted and what the last catch was. */
  datatype EnterAreaResults = EnterAreaResults(coinsGranted: int, lastCatch: Option<CatchInfo>)

  /** The loop of catches shared by entering a cell and the vortex. */
  method CatchLoop(recent: seq<int>, creatures: CreatureData, spawns: seq<Spawned>, byId: map<int, Creature>)
    returns (run: CatchRun)
    requires Coherent(byId, creatures)
    requires forall s :: s in spawns ==> s.creature.id in byId
    ensures run == CatchAll(recent, creatures, spawns, byId)
    ensures Coherent(byId, run.creatures)
  {
    run := CatchRun(recent, creatures, []);
    var i := 0;
    while i < |spawns|
      invariant 0 <= i <= |spawns|
      invariant run == CatchAll(recent, creatures, spawns[..i], byId)
      invariant Coherent(byId, run.creatures)
    {
      assert spawns[..i + 1] == spawns[..i] + [spawns[i]];
      run := CatchNext(recent, creatures, spawns[..i], spawns[i], byId, run);
      i := i + 1;
    }
    assert spawns[..i] == spawns;
  }

  /** The catch loop with one more spawn: the recent list is trimmed, then the spawn is caught unless its uid is on it. */
  lemma CatchAllSnoc(recent: seq<int>, creatures: CreatureData, seen: seq<Spawned>, s: Spawned, byId: map<int, Creature>)
    ensures var run := CatchAll(recent, creatures, seen, byId);
      var t := Trimmed(run.recent);
      CatchAll(recent, creatures, seen + [s], byId) ==
        if s.creature.uid in t then run.(recent := t)
        else CatchRun(t + [s.creature.uid], CaughtOne(run.creatures, s.creature.id, byId), run.caught + [s])
  {
    assert (seen + [s])[..|seen|] == seen;
    var l := LedgerOf(recent, seen);
    assert (l.caught + [s])[..|l.caught|] == l.caught;
  }

  /** One iteration of the catch loop: trim the recent list, then catch the spawn unless its uid is on it. */
  method CatchNext(recent: seq<int>, creatures: CreatureData, seen: seq<Spawned>, s: Spawned, byId: map<int, Creature>,
                   run: CatchRun)
    returns (run': CatchRun)
    requires run == CatchAll(recent, creatures, seen, byId) && Coherent(byId, run.creatures) && s.creature.id in byId
    ensures run' == CatchAll(recent, creatures, seen + [s], byId)
    ensures Coherent(byId, run'.creatures)
  {
    var recentlyCaught := run.recent;
    if |recentlyCaught| > 499 {
      recentlyCaught := recentlyCaught[1..];
    }
    CatchAllSnoc(recent, creatures, seen, s, byId);
    if s.creature.uid !in recentlyCaught {
      var record := if s.creature.id in run.creatures then run.creatures[s.creature.id] else FreshRecord(s.creature.id);
      var creature := new PlayerCreatureInfo.Load(record);
      creature.BoostCreature(byId);
      CaughtOneCoherent(byId, run.creatures, s.creature.id);
      run' := CatchRun(recentlyCaught + [s.creature.uid], run.creatures[s.creature.id := creature.Record()], run.caught + [s]);
    } else {
      run' := run.(recent := recentlyCaught);
    }
  }

  /** What entering a cell stores, and what it answers. */
  datatype StepOutcome = StepOutcome(
    account: Account,
    grantBlocks: map<string, int>,
    creatures: CreatureData,
    recent: seq<int>,
    results: EnterAreaResults)

  /** The answer's record of a catch. */
  function InfoOf(s: Spawned, byId: map<int, Creature>): CatchInfo
    requires |s.plusCode| >= 8 && s.creature.id in byId
  {
    CatchInfo(s.creature.id, s.creature.uid, s.plusCode[..8], s.creature.activeGame, byId[s.creature.id].activeCatchDifficulty)
  }

  /**
   * `ProcessStepIntoArea`: an out-of-bounds code answers nothing.  Otherwise
   * the coin grant is settled, then every creature spawn in and around the
   * cell (`spawns`) goes through the catch loop; the collection and recent
   * list are stored only if something was caught, and the answer describes
   * the last catch.  `coins` is the random grant in [3, 7).
   */
  method ProcessStepIntoArea(plusCode: string, inBounds: bool, account: Account, blocks: map<string, int>, locked: bool,
                             coins: int, now: int, spawns: seq<Spawned>, recent: seq<int>, creatures: CreatureData,
                             byId: map<int, Creature>)
    returns (r: Option<StepOutcome>)
    requires 3 <= coins < 7
    requires Coherent(byId, creatures)
    requires forall s :: s in spawns ==> s.creature.id in byId && |s.plusCode| >= 8
    ensures !inBounds ==> r.None?
    ensures inBounds ==> (r.Some? &&
      var g := CoinGrant(account, blocks, plusCode, now, locked, coins);
      var run := CatchAll(recent, creatures, spawns, byId);
      r.value.account == g.account && r.value.grantBlocks == g.grantBlocks &&
      r.value.results.coinsGranted == g.coins &&
      (run.caught == [] ==> r.value.creatures == creatures && r.value.recent == recent && r.value.results.lastCatch.None?) &&
      (run.caught != [] ==> (r.value.creatures == run.creatures && r.value.recent == run.recent &&
        r.value.results.lastCatch == Some(InfoOf(run.caught[|run.caught| - 1], byId)))))
  {
    if !inBounds {
      return None;
    }
    var g := CoinGrant(account, blocks, plusCode, now, locked, coins);
    var run := CatchLoop(recent, creatures, spawns, byId);
    var results := EnterAreaResults(g.coins, None);
    if run.caught == [] {
      return Some(StepOutcome(g.account, g.grantBlocks, creatures, recent, results));
    }
    assert run.caught[|run.caught| - 1] in run.caught;
    results := results.(lastCatch := Some(InfoOf(run.caught[|run.caught| - 1], byId)));
    r := Some(StepOutcome(g.account, g.grantBlocks, run.creatures, run.recent, results));
  }

  /**
   * Walking into a cell never loses a record or a caught copy: every record
   * is kept, no total goes down, and each total rises by the copies caught.
   */
  lemma StepKeepsCollection(recent: seq<int>, creatures: CreatureData, spawns: seq<Spawned>, byId: map<int, Creature>)
    requires |recent| <= RecentLimit
    ensures var run := CatchAll(recent, creatures, spawns, byId);
      |run.recent| <= RecentLimit &&
      (forall id :: id in creatures ==> (id in run.creatures && run.creatures[id].totalCaught >= creatures[id].totalCaught))
  {
    RecentBounded(recent, spawns);
    CollectedTotals(creatures, LedgerOf(recent, spawns).caught, byId);
  }

  // ---------------------------------------------------------------------
  // Vortex
  // ---------------------------------------------------------------------

  /** The counts of each creature caught, as `results` collects them. */
  function Tally(caught: seq<Spawned>): (t: map<int, int>)
    ensures forall id :: id in t <==> CountId(caught, id) > 0
    ensures forall id :: id in t ==> t[id] == CountId(caught, id)
    decreases |caught|
  {
    if caught == [] then map[]
    else
      var init, last := caught[..|caught| - 1], caught[|caught| - 1];
      var t := Tally(init);
      t[last.creature.id := (if last.creature.id in t then t[last.creature.id] else 0) + 1]
  }

  /** What the vortex stores: the account (one token spent), the collection and the recent list. */
  datatype VortexSave = VortexSave(account: Account, creatures: CreatureData, recent: seq<int>)

  /** The vortex's answer (counts caught per creature) and what it stores, if anything. */
  datatype VortexOutcome = VortexOutcome(results: map<int, int>, saved: Option<VortexSave>)

  /** The account with one vortex token spent. */
  function SpendToken(account: Account): (a: Account)
    ensures a.currencies.vortexTokens == account.currencies.vortexTokens - 1
    ensures a == account.(currencies := a.currencies) && a.currencies == account.currencies.(vortexTokens := a.currencies.vortexTokens)
  {
    account.(currencies := account.currencies.(vortexTokens := account.currencies.vortexTokens - 1))
  }

  /**
   * `Vortex` as written: refused for a code that is not a Cell8 or without a
   * token.  With more spawns in the 3x3 area than `vortexMin`, a token is
   * spent and the loop catches; the result is stored when at least
   * `vortexMin` were caught.  Otherwise the collection and recent list start
   * out empty, and they are stored anyway when `vortexMin` is 0 or less.
   */
  function VortexAsWritten(plusCode8: string, account: Account, creatures: CreatureData, recent: seq<int>,
                           spawns: seq<Spawned>, vortexMin: int, byId: map<int, Creature>): Option<VortexOutcome>
  {
    if |plusCode8| != 8 || account.currencies.vortexTokens <= 0 then None
    else if |spawns| > vortexMin then
      var run := CatchAll(recent, creatures, spawns, byId);
      Some(VortexOutcome(Tally(run.caught),
        if |run.caught| >= vortexMin then Some(VortexSave(SpendToken(account), run.creatures, run.recent)) else None))
    else Some(VortexOutcome(map[], if 0 >= vortexMin then Some(VortexSave(account, map[], [])) else None))
  }

  /**
   * With `CreatureCountToRespawn` at 0, a vortex in an area with no spawns
   * stores an empty collection over the player's creatures.
   */
  lemma VortexAsWrittenWipes(plusCode8: string, account: Account, creatures: CreatureData, recent: seq<int>, byId: map<int, Creature>)
    requires |plusCode8| == 8 && account.currencies.vortexTokens > 0 && creatures != map[]
    ensures var r := VortexAsWritten(plusCode8, account, creatures, recent, [], 0, byId);
      r.Some? && r.value.saved.Some? && r.value.saved.value.creatures == map[] && r.value.saved.value.creatures != creatures
  {
  }

  /**
   * `Vortex`, corrected to store only when the token was spent: with too
   * few spawns in the area nothing is stored, whatever `vortexMin` is.
   */
  function VortexOutcomeOf(plusCode8: string, account: Account, creatures: CreatureData, recent: seq<int>,
                           spawns: seq<Spawned>, vortexMin: int, byId: map<int, Creature>): Option<VortexOutcome>
  {
    if |plusCode8| != 8 || account.currencies.vortexTokens <= 0 then None
    else if |spawns| > vortexMin then
      var run := CatchAll(recent, creatures, spawns, byId);
      Some(VortexOutcome(Tally(run.caught),
        if |run.caught| >= vortexMin then Some(VortexSave(SpendToken(account), run.creatures, run.recent)) else None))
    else Some(VortexOutcome(map[], None))
  }

  /** The two agree except where the source stores without spending a token. */
  lemma VortexCorrectionOnlyThere(plusCode8: string, account: Account, creatures: CreatureData, recent: seq<int>,
                                  spawns: seq<Spawned>, vortexMin: int, byId: map<int, Creature>)
    ensures var w := VortexAsWritten(plusCode8, account, creatures, recent, spawns, vortexMin, byId);
      var c := VortexOutcomeOf(plusCode8, account, creatures, recent, spawns, vortexMin, byId);
      w != c <==> (|plusCode8| == 8 && account.currencies.vortexTokens > 0 && |spawns| <= vortexMin && vortexMin <= 0)
  {
  }

  /**
   * `Vortex`: the catch loop over the spawns of the 3x3 Cell8 area, with the
   * counts per creature.
   */
  method Vortex(plusCode8: string, account: Account, creatures: CreatureData, recent: seq<int>,
                spawns: seq<Spawned>, vortexMin: int, byId: map<int, Creature>)
    returns (r: Option<VortexOutcome>)
    requires Coherent(byId, creatures)
    requires forall s :: s in spawns ==> s.creature.id in byId
    ensures r == VortexOutcomeOf(plusCode8, account, creatures, recent, spawns, vortexMin, byId)
  {
    if |plusCode8| != 8 || account.currencies.vortexTokens <= 0 {
      return None;
    }
    if |spawns| <= vortexMin {
      return Some(VortexOutcome(map[], None));
    }
    var run := CatchLoop(recent, creatures, spawns, byId);
    var saved := None;
    if |run.caught| >= vortexMin {
      saved := Some(VortexSave(SpendToken(account), run.creatures, run.recent));
    }
    r := Some(VortexOutcome(Tally(run.caught), saved));
  }

  /**
   * The corrected vortex never loses a record: whatever it stores keeps every
   * record of the player with no lower total, spends exactly one token, and
   * its counts are the totals gained.
   */
  lemma VortexKeepsCollection(plusCode8: string, account: Account, creatures: CreatureData, recent: seq<int>,
                              spawns: seq<Spawned>, vortexMin: int, byId: map<int, Creature>)
    requires |recent| <= RecentLimit
    ensures var r := VortexOutcomeOf(plusCode8, account, creatures, recent, spawns, vortexMin, byId);
      r.Some? && r.value.saved.Some? ==>
        var sv := r.value.saved.value;
        sv.account.currencies.vortexTokens == account.currencies.vortexTokens - 1 &&
        |sv.recent| <= RecentLimit &&
        (forall id :: id in creatures ==> (id in sv.creatures && sv.creatures[id].totalCaught >= creatures[id].totalCaught)) &&
        (forall id :: id in r.value.results ==> (id in sv.creatures && sv.creatures[id].totalCaught == TotalOf(creatures, id) + r.value.results[id]))
  {
    RecentBounded(recent, spawns);
    CollectedTotals(creatures, LedgerOf(recent, spawns).caught, byId);
  }
}

// Account endpoints of TiboController.cs: the creature audit, the team swap
// (with CommonHelpers.ResetCreatureData and the two placement clean-ups it
// calls), the tutorial list, the proxy-play point, the audit gate of the
// login call, and account creation.

module Accounts {
  import opened Common
  import opened Creatures
  import opened Progression
  import opened Records
  import opened Commands
  import opened Control
  import opened Compete

  // ---------------------------------------------------------------------
  // The creature audit
  // ---------------------------------------------------------------------

  /** The tasks a creature can work on now; a record on one of them is left alone. */
  predicate OnImprovementTask(assignedTo: string) {
    assignedTo in {"clone", "ppt", "hint", "tst", "vortex"}
  }

  /** Tasks that no longer exist; a record still on one is released. */
  predicate OnRetiredTask(assignedTo: string) {
    assignedTo in {"iwt", "rpt"}
  }

  /** The place holds a claim of creature `id` owned by `owner`. */
  predicate ClaimedBy(cs: seq<ClaimData>, id: int, owner: string) {
    exists i :: 0 <= i < |cs| && cs[i].creatureId == id && cs[i].owner == owner
  }

  /** Both availability counters cut down to the total caught. */
  function Clamped(r: CreatureRecord): (r': CreatureRecord)
    ensures r'.currentAvailable <= r'.totalCaught && r'.currentAvailableCompete <= r'.totalCaught
    ensures r'.currentAvailable == Min(r.currentAvailable, r.totalCaught)
    ensures r'.currentAvailableCompete == Min(r.currentAvailableCompete, r.totalCaught)
    ensures r' == r.(currentAvailable := r'.currentAvailable, currentAvailableCompete := r'.currentAvailableCompete)
  {
    var r1 := if r.currentAvailableCompete > r.totalCaught then r.(currentAvailableCompete := r.totalCaught) else r;
    if r1.currentAvailable > r1.totalCaught then r1.(currentAvailable := r1.totalCaught) else r1
  }

  /** The audit looks the record up on the map: it is assigned, and to neither a current nor a retired task. */
  predicate LooksUpPlace(r: CreatureRecord) {
    !r.available && !OnImprovementTask(r.assignedTo) && !OnRetiredTask(r.assignedTo)
  }

  /** Looking the record up throws: its code lies in no gameplay place. */
  predicate AuditThrowsAt(places: Places, r: CreatureRecord) {
    LooksUpPlace(r) && places.gameplay(r.assignedTo).None?
  }

  /** Some record makes the audit throw. */
  predicate AuditThrows(places: Places, d: CreatureData) {
    exists k :: k in d && AuditThrowsAt(places, d[k])
  }

  /**
   * One iteration of the audit: clamp the counters; then an assigned record
   * that is on neither a current task nor a place that still lists it under
   * this account is released.  A record whose code lies in no place makes
   * the audit throw (`AuditThrows`); it is left as clamped here.
   */
  function Audited(s: ControlState, places: Places, accountId: string, k: int, r: CreatureRecord): CreatureRecord {
    var r' := Clamped(r);
    if r'.available || OnImprovementTask(r'.assignedTo) then r'
    else if OnRetiredTask(r'.assignedTo) then Returned(r')
    else match places.gameplay(r'.assignedTo)
      case None => r'
      case Some(place) => if !ClaimedBy(Occupants(s, place), k, accountId) then Returned(r') else r'
  }

  /** The whole collection after the audit. */
  function AuditAll(s: ControlState, places: Places, accountId: string, d: CreatureData): CreatureData {
    map k | k in d :: Audited(s, places, accountId, k, d[k])
  }

  /** After the audit no record claims more available copies, in either mode, than it ever caught. */
  lemma AuditBoundsCounters(s: ControlState, places: Places, accountId: string, d: CreatureData, k: int)
    requires k in d
    ensures var r := AuditAll(s, places, accountId, d)[k];
      r.currentAvailable <= r.totalCaught && r.currentAvailableCompete <= r.totalCaught &&
      r.totalCaught == d[k].totalCaught && r.id == d[k].id && r.level == d[k].level
  {
  }

  /**
   * The audit releases a record exactly when it is assigned, not to a
   * current task, and either on a retired task or missing from the list of
   * its code's place under this account; otherwise the assignment stands.
   */
  lemma AuditReleases(s: ControlState, places: Places, accountId: string, d: CreatureData, k: int)
    requires k in d && !AuditThrows(places, d)
    ensures var r, r' := d[k], AuditAll(s, places, accountId, d)[k];
      var released := !r.available && !OnImprovementTask(r.assignedTo) &&
        (OnRetiredTask(r.assignedTo) || !ClaimedBy(CreaturesInArea(s, places, r.assignedTo).value, k, accountId));
      (released ==> r'.available && r'.assignedTo == "") &&
      (!released ==> r'.available == r.available && r'.assignedTo == r.assignedTo)
  {
  }

  /** A second audit finds nothing more to fix, and does not throw where the first did not. */
  lemma AuditIdempotent(s: ControlState, places: Places, accountId: string, d: CreatureData)
    ensures AuditAll(s, places, accountId, AuditAll(s, places, accountId, d)) == AuditAll(s, places, accountId, d)
    ensures !AuditThrows(places, d) ==> !AuditThrows(places, AuditAll(s, places, accountId, d))
  {
    var a := AuditAll(s, places, accountId, d);
    forall k | k in a ensures Audited(s, places, accountId, k, a[k]) == a[k] {
    }
  }

  /**
   * `AuditCreaturePlacement`: the audit loop over the collection; the flag
   * says whether any record was changed and so must be saved.  A record
   * whose code lies in no place throws, and the caller saves nothing.
   */
  method AuditCreaturePlacement(accountId: string, creatures: CreatureData, s: ControlState, places: Places)
    returns (creatures': CreatureData, needsSaved: bool, failed: bool)
    ensures failed <==> AuditThrows(places, creatures)
    ensures failed ==> creatures' == creatures && !needsSaved
    ensures !failed ==> creatures' == AuditAll(s, places, accountId, creatures)
    ensures !failed ==> (needsSaved <==> creatures' != creatures)
  {
    creatures' := creatures;
    needsSaved := false;
    var keys := creatures.Keys;
    while keys != {}
      invariant keys <= creatures.Keys && creatures'.Keys == creatures.Keys
      invariant forall k :: k in creatures' ==>
        creatures'[k] == if k in keys then creatures[k] else Audited(s, places, accountId, k, creatures[k])
      invariant forall k :: k in creatures && k !in keys ==> !AuditThrowsAt(places, creatures[k])
      invariant needsSaved <==>
        exists k :: k in creatures && k !in keys && Audited(s, places, accountId, k, creatures[k]) != creatures[k]
      decreases keys
    {
      var k := Pick(keys);
      var thisCreature := creatures'[k];
      var audited, throws := AuditOne(s, places, accountId, k, thisCreature);
      if throws {
        return creatures, false, true;
      }
      needsSaved := needsSaved || audited != thisCreature;
      creatures' := creatures'[k := audited];
      keys := keys - {k};
    }
    failed := false;
    AuditFinished(s, places, accountId, creatures, creatures', needsSaved);
  }

  lemma AuditFinished(s: ControlState, places: Places, accountId: string, creatures: CreatureData,
                      creatures': CreatureData, needsSaved: bool)
    requires creatures'.Keys == creatures.Keys
    requires forall k :: k in creatures' ==> creatures'[k] == Audited(s, places, accountId, k, creatures[k])
    requires needsSaved <==> exists k :: k in creatures && Audited(s, places, accountId, k, creatures[k]) != creatures[k]
    ensures creatures' == AuditAll(s, places, accountId, creatures)
    ensures needsSaved <==> creatures' != creatures
  {
    if creatures' != creatures {
      var k :| k in creatures && creatures'[k] != creatures[k];
    }
  }

  /** The body of the audit loop, on one record: its audited value, or the throw of its place lookup. */
  method AuditOne(s: ControlState, places: Places, accountId: string, k: int, r: CreatureRecord)
    returns (r': CreatureRecord, throws: bool)
    ensures throws <==> AuditThrowsAt(places, r)
    ensures r' == Audited(s, places, accountId, k, r)
  {
    r' := Clamped(r);
    throws := false;
    if !r'.available && !OnImprovementTask(r'.assignedTo) {
      if OnRetiredTask(r'.assignedTo) {
        r' := Returned(r');
      } else {
        var placeAt := CreaturesInArea(s, places, r'.assignedTo);
        if placeAt.None? {
          throws := true;
        } else if !ClaimedBy(placeAt.value, k, accountId) {
          r' := Returned(r');
        }
      }
    }
  }

  /** The login call audits only when the last audit is more than a day old. */
  predicate AuditDue(account: Account, now: int) {
    account.lastAudit < now - TicksPerDay
  }

  /**
   * The audit gate of `GetAccount`: a due audit runs, its records are saved
   * if it changed any, and the audit time becomes now.  An audit that
   * throws saves neither.  Otherwise nothing changes.
   */
  method AuditOnLogin(accountId: string, account: Account, creatures: CreatureData, s: ControlState, places: Places, now: int)
    returns (account': Account, creatures': CreatureData, failed: bool)
    ensures failed <==> AuditDue(account, now) && AuditThrows(places, creatures)
    ensures !AuditDue(account, now) || failed ==> account' == account && creatures' == creatures
    ensures AuditDue(account, now) && !failed ==>
      account' == account.(lastAudit := now) && creatures' == AuditAll(s, places, accountId, creatures)
    ensures !failed ==> !AuditDue(account', now)
  {
    account', creatures', failed := account, creatures, false;
    if AuditDue(account, now) {
      var audited, changed;
      audited, changed, failed := AuditCreaturePlacement(accountId, creatures, s, places);
      if failed {
        return;
      }
      if changed {
        creatures' := audited;
      }
      account' := account.(lastAudit := now);
    }
  }

  // ---------------------------------------------------------------------
  // The team swap
  // ---------------------------------------------------------------------

  /** `ResetCreatureData` on one record: released, with every caught copy back in Compete; Cover counts are kept. */
  function TeamSwapReset(r: CreatureRecord): (r': CreatureRecord)
    ensures r'.available && r'.assignedTo == "" && r'.currentAvailableCompete == r.totalCaught
    ensures r' == r.(available := true, assignedTo := "", currentAvailableCompete := r.totalCaught)
  {
    r.(assignedTo := "", available := true, currentAvailableCompete := r.totalCaught)
  }

  function TeamSwapResetAll(d: CreatureData): CreatureData {
    map k | k in d :: TeamSwapReset(d[k])
  }

  /** `ResetCreatureData`: the loop over the collection. */
  method ResetCreatureData(creatures: CreatureData) returns (creatures': CreatureData)
    ensures creatures' == TeamSwapResetAll(creatures)
    ensures forall k :: k in creatures' ==>
      creatures'[k].available && creatures'[k].currentAvailableCompete == creatures[k].totalCaught &&
      creatures'[k].currentAvailable == creatures[k].currentAvailable
  {
    creatures' := creatures;
    var keys := creatures.Keys;
    while keys != {}
      invariant keys <= creatures.Keys && creatures'.Keys == creatures.Keys
      invariant forall k :: k in creatures' ==>
        creatures'[k] == if k in keys then creatures[k] else TeamSwapReset(creatures[k])
      decreases keys
    {
      var k := Pick(keys);
      creatures' := creatures'[k := TeamSwapReset(creatures'[k])];
      keys := keys - {k};
    }
    assert forall k :: k in creatures' ==> creatures'[k] == TeamSwapResetAll(creatures)[k];
  }

  /** Some record is assigned to a code the location-code validator accepts. */
  predicate OnValidCode(creatures: CreatureData, isValidCode: string -> bool) {
    exists k :: k in creatures && isValidCode(creatures[k].assignedTo)
  }

  /**
   * `DeleteAllPlayerControlEntries`: for each record whose assignment is a
   * code the location-code validator accepts (a full or a short code), the
   * place list is saved through `SaveClaimForArea`
   * with no added claim, and sorting that missing claim throws before
   * anything is written.  So the clean-up throws when any record is on such
   * a code and otherwise does nothing.
   */
  method DeleteAllPlayerControlEntries(creatures: CreatureData, isValidCode: string -> bool) returns (failed: bool)
    ensures failed <==> OnValidCode(creatures, isValidCode)
  {
    failed := false;
    var keys := creatures.Keys;
    while keys != {}
      invariant keys <= creatures.Keys
      invariant !failed <==> forall k :: k in creatures && k !in keys ==> !isValidCode(creatures[k].assignedTo)
      decreases keys
    {
      var k := Pick(keys);
      if isValidCode(creatures[k].assignedTo) {
        failed := true;
      }
      keys := keys - {k};
    }
  }

  /** What a team choice saves; `compete` is None when no Compete notes are stored. */
  datatype PlayerState = PlayerState(
    account: Account,
    creatures: CreatureData,
    compete: Option<map<string, PlayerCompeteEntry>>,
    pools: Pools)

  /** The outcome of a team choice: what is stored afterwards, and whether the call threw. */
  datatype Swap = Swap(state: PlayerState, failed: bool)

  /**
   * The team choice as the source makes it.  The Compete clean-up walks the
   * stored notes without a null check, so a player with none stored throws
   * there, after the Control clean-up and before anything is saved.  A
   * completed swap stores the notes already expired, so none are stored
   * afterwards.
   */
  function TeamSwapped(accountId: string, st: PlayerState, cells: seq<string>, teamId: int,
                       isValidCode: string -> bool, byId: map<int, Creature>): Swap
    requires WellFormedCatalog(byId)
  {
    var cur := st.account.currencies;
    if st.account.team == 0 then Swap(st.(account := st.account.(team := teamId)), false)
    else if cur.teamSwapTokens <= 0 then Swap(st, false)
    else if OnValidCode(st.creatures, isValidCode) || st.compete.None? then Swap(st, true)
    else
      var w := WithdrawAll(st.pools, cells, accountId, byId);
      if w.failed then Swap(st.(pools := w.pools), true)
      else Swap(PlayerState(st.account.(team := teamId, currencies := cur.(teamSwapTokens := cur.teamSwapTokens - 1)),
                            TeamSwapResetAll(st.creatures), None, w.pools), false)
  }

  /**
   * `SetPlayerTeam`: the first choice, from team 0, is free.  A later change
   * spends one team-swap token and withdraws the player from Control and
   * Compete before resetting the collection; with no token nothing changes.
   * `cells` is the player's Compete notes in dictionary order.  A throw in a
   * clean-up keeps the Compete pools already written and saves nothing else;
   * a player with no Compete notes stored always throws.
   */
  method SetPlayerTeam(accountId: string, st: PlayerState, cells: seq<string>, teamId: int, isValidCode: string -> bool,
                       byId: map<int, Creature>)
    returns (st': PlayerState, failed: bool)
    requires WellFormedCatalog(byId)
    requires st.compete.Some? ==> forall c :: c in st.compete.value <==> c in cells
    ensures Swap(st', failed) == TeamSwapped(accountId, st, cells, teamId, isValidCode, byId)
    ensures st.account.team == 0 ==> !failed && st' == st.(account := st.account.(team := teamId))
    ensures st.account.team != 0 && st.account.currencies.teamSwapTokens <= 0 ==> !failed && st' == st
    ensures st.account.team != 0 && st.account.currencies.teamSwapTokens > 0 ==>
      var w := WithdrawAll(st.pools, cells, accountId, byId);
      var cur := st.account.currencies;
      (failed <==> OnValidCode(st.creatures, isValidCode) || st.compete.None? || w.failed) &&
      (OnValidCode(st.creatures, isValidCode) || st.compete.None? ==> st' == st) &&
      (!OnValidCode(st.creatures, isValidCode) && st.compete.Some? && w.failed ==> st' == st.(pools := w.pools)) &&
      (!failed ==> st' == PlayerState(
        st.account.(team := teamId, currencies := cur.(teamSwapTokens := cur.teamSwapTokens - 1)),
        TeamSwapResetAll(st.creatures), None, w.pools))
  {
    var account := st.account;
    if account.team == 0 {
      return st.(account := account.(team := teamId)), false;
    }
    if account.currencies.teamSwapTokens <= 0 {
      return st, false;
    }
    account := account.(currencies := account.currencies.(teamSwapTokens := account.currencies.teamSwapTokens - 1),
                        team := teamId);
    failed := DeleteAllPlayerControlEntries(st.creatures, isValidCode);
    if failed {
      return st, true;
    }
    if st.compete.None? {
      return st, true;
    }
    var pools;
    pools, failed := DeleteAllPlayerCompeteEntries(st.pools, cells, accountId, byId);
    if failed {
      return st.(pools := pools), true;
    }
    var creatures := ResetCreatureData(st.creatures);
    st' := PlayerState(account, creatures, None, pools);
  }

  /**
   * As written, a paid swap leaves no Compete notes stored, so the player's
   * next paid swap throws and changes nothing, whatever tokens are left.
   */
  lemma SecondSwapRefused(accountId: string, st: PlayerState, cells: seq<string>, teamId: int, nextTeam: int,
                          isValidCode: string -> bool, byId: map<int, Creature>)
    requires WellFormedCatalog(byId)
    requires st.account.team != 0 && st.account.currencies.teamSwapTokens >= 2 && teamId != 0
    requires !TeamSwapped(accountId, st, cells, teamId, isValidCode, byId).failed
    ensures var first := TeamSwapped(accountId, st, cells, teamId, isValidCode, byId).state;
      first.account.currencies.teamSwapTokens > 0 &&
      TeamSwapped(accountId, first, [], nextTeam, isValidCode, byId) == Swap(first, true)
  {
  }

  /** The stored Compete notes, with none stored read as an empty dictionary. */
  function NotesOrEmpty(compete: Option<map<string, PlayerCompeteEntry>>): map<string, PlayerCompeteEntry> {
    if compete.Some? then compete.value else map[]
  }

  /**
   * The team choice with the missing Compete notes read as empty, as
   * `UpdatePlacedCreature` reads them.
   */
  function TeamSwappedNullSafe(accountId: string, st: PlayerState, cells: seq<string>, teamId: int,
                               isValidCode: string -> bool, byId: map<int, Creature>): (r: Swap)
    requires WellFormedCatalog(byId)
    ensures st.compete.Some? ==> r == TeamSwapped(accountId, st, cells, teamId, isValidCode, byId)
  {
    TeamSwapped(accountId, st.(compete := Some(NotesOrEmpty(st.compete))), cells, teamId, isValidCode, byId)
  }

  /**
   * With the missing notes read as empty, a player who holds no creature on
   * a place and has no notes can always swap: one token is spent, the team
   * changes and the collection is reset.  In particular a second paid swap
   * goes through.
   */
  lemma NullSafeSwapSucceeds(accountId: string, st: PlayerState, teamId: int,
                               isValidCode: string -> bool, byId: map<int, Creature>)
    requires WellFormedCatalog(byId)
    requires st.account.team != 0 && st.account.currencies.teamSwapTokens > 0
    requires st.compete.None? && !OnValidCode(st.creatures, isValidCode)
    ensures var r := TeamSwappedNullSafe(accountId, st, [], teamId, isValidCode, byId);
      !r.failed && r.state.account.team == teamId &&
      r.state.account.currencies.teamSwapTokens == st.account.currencies.teamSwapTokens - 1 &&
      r.state.creatures == TeamSwapResetAll(st.creatures) && r.state.pools == st.pools
  {
  }

  // ---------------------------------------------------------------------
  // Small account endpoints
  // ---------------------------------------------------------------------

  /**
   * `SetTutorialViewed`: appends a tutorial not yet seen and saves the list;
   * a tutorial already in it saves nothing.  A missing list starts empty.
   */
  method SetTutorialViewed(stored: Option<seq<string>>, tutorial: string) returns (saved: Option<seq<string>>)
    ensures var tutorials := if stored.Some? then stored.value else [];
      (tutorial in tutorials ==> saved.None?) &&
      (tutorial !in tutorials ==> saved == Some(tutorials + [tutorial]))
    ensures stored.Some? && Distinct(stored.value) && saved.Some? ==> Distinct(saved.value)
  {
    var tutorials := if stored.Some? then stored.value else [];
    if tutorial !in tutorials {
      saved := Some(tutorials + [tutorial]);
      assert forall i :: 0 <= i < |tutorials| ==> saved.value[i] == tutorials[i];
    } else {
      saved := None;
    }
  }

  /** Characters `string.IsNullOrWhiteSpace` treats as blank (the ASCII ones). */
  predicate Blank(code: string) {
    forall i :: 0 <= i < |code| ==> code[i] in {' ', '\t', '\n', '\r', '\U{000B}', '\U{000C}'}
  }

  /** The answer of `SetProxyPlayPoint`: "" when nothing happened, "{}" when cleared, or the new point. */
  datatype ProxyAnswer = Unchanged | Cleared | MovedTo(point: ProxyPoint)

  /**
   * `SetProxyPlayPoint`: a non-blank code out of bounds is refused.
   * Otherwise one token, if there is one, moves the point to the code's
   * centre (`center` stands for the location-code decoder), or clears it for
   * a blank code.  Without a token nothing changes.
   */
  method SetProxyPlayPoint(account: Account, code: string, inBounds: bool, center: string -> ProxyPoint)
    returns (account': Account, answer: ProxyAnswer)
    ensures !Blank(code) && !inBounds ==> account' == account && answer == Unchanged
    ensures (Blank(code) || inBounds) && account.currencies.proxyPlayTokens <= 0 ==>
      account' == account && answer == Unchanged
    ensures (Blank(code) || inBounds) && account.currencies.proxyPlayTokens > 0 ==>
      account'.currencies == account.currencies.(proxyPlayTokens := account.currencies.proxyPlayTokens - 1) &&
      account'.currencies.proxyPlayTokens >= 0 &&
      (Blank(code) ==> account' == account.(currencies := account'.currencies, proxyPlayPoint := None) && answer == Cleared) &&
      (!Blank(code) ==> account' == account.(currencies := account'.currencies, proxyPlayPoint := Some(center(code))) &&
                        answer == MovedTo(center(code)))
  {
    if !Blank(code) && !inBounds {
      return account, Unchanged;
    }
    account' := account;
    answer := Unchanged;
    if account.currencies.proxyPlayTokens > 0 {
      account' := account'.(currencies := account'.currencies.(proxyPlayTokens := account'.currencies.proxyPlayTokens - 1));
      if Blank(code) {
        account' := account'.(proxyPlayPoint := None);
        answer := Cleared;
      } else {
        var point := center(code);
        account' := account'.(proxyPlayPoint := Some(point));
        answer := MovedTo(point);
      }
    }
  }

  /** Everything `CreateAccount` saves for a new player. */
  datatype NewPlayer = NewPlayer(
    account: Account,
    creatures: CreatureData,
    tasks: seq<Entry<string, ImprovementTask>>,
    grantBlocks: map<string, int>,
    tutorials: seq<string>)

  /**
   * `CreateAccount`: refused when account data already exists; otherwise a
   * new account named after the login, the starter collection, the default
   * tasks, and empty coin-grant blocks and tutorial list.
   */
  method CreateAccount(exists_: bool, accountId: string, now: int, byId: map<int, Creature>)
    returns (created: Option<NewPlayer>)
    requires StarterId in byId
    ensures exists_ ==> created.None?
    ensures !exists_ ==> (created.Some? &&
      created.value.account == NewAccount(accountId, now) &&
      created.value.account.currencies.proxyPlayTokens == 1 && created.value.account.team == 0 &&
      created.value.creatures.Keys == {StarterId} && created.value.creatures[StarterId].level == 1 &&
      created.value.tasks == DefaultTasks && created.value.grantBlocks == map[] && created.value.tutorials == [])
  {
    if exists_ {
      return None;
    }
    var data := NewAccount(accountId, now);
    var creatureInfo := MakeStarterCreatureInfo(byId);
    created := Some(NewPlayer(data, creatureInfo, DefaultTasks, map[], []));
  }
}

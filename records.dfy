// The stored per-player and per-cell records of the game (Account.cs), the
// shape of a player's creature collection, and the starter collection every
// new or graduated account receives.

module Records {
  import opened Common
  import opened Creatures
  import opened Progression

  /** `CurrencyList`. */
  datatype Currencies = Currencies(
    baseCurrency: int,
    instantWinTokens: int,
    proxyPlayTokens: int,
    teamSwapTokens: int,
    vortexTokens: int)

  /** A new currency list: everything zero except one free proxy-play token. */
  const NewCurrencies: Currencies := Currencies(0, 0, 1, 0, 0)

  datatype ProxyPoint = ProxyPoint(lat: real, lon: real)

  /** `Account`; `dateCreated` and `lastAudit` are instants in ticks. */
  datatype Account = Account(
    name: string,
    team: int,
    proxyPlayPoint: Option<ProxyPoint>,
    controlInfo: string,
    currencies: Currencies,
    totalGrants: int,
    dateCreated: int,
    graduationEligible: bool,
    lastAudit: int)

  /** `new DateTime(2000, 1, 1)` in ticks, the audit date of an account never audited. */
  const Jan2000: int := 630822816000000000

  /** `new Account() { name = name }`, created at `now`. */
  function NewAccount(name: string, now: int): Account {
    Account(name, 0, None, "", NewCurrencies, 0, now, false, Jan2000)
  }

  /** A command queued for a player who may be offline. */
  datatype UpdateCommand = UpdateCommand(verb: string, target: string)

  /** A player's own note of what they placed in a Compete-mode cell. */
  datatype PlayerCompeteEntry = PlayerCompeteEntry(creatureId: int, fragmentCount: int)

  /**
   * The shared Compete-mode entry of a Cell8: the contributions of every
   * account, their running total and the stack's scouting.
   */
  datatype CompeteModeEntry = CompeteModeEntry(
    creatureId: int,
    teamId: int,
    creatureFragmentCounts: seq<Entry<string, int>>,
    locationCell8: string,
    totalFragments: int,
    scouting: int)

  /** A player's Cover-mode placement in a Cell10. */
  datatype CoverModeEntry = CoverModeEntry(
    creatureId: int,
    creatureFragmentCount: int,
    locationCell10: string,
    scouting: int)

  /** A player's collection: creature id to record. */
  type CreatureData = map<int, CreatureRecord>

  /**
   * What the stored data guarantees about a collection: the catalog is well
   * formed and holds creature 0, and every key and every record id of the
   * collection names a catalog creature.  (Records created by a purchase or a
   * bat transform carry id 0, which is why creature 0 matters.)
   */
  ghost predicate Coherent(byId: map<int, Creature>, data: CreatureData) {
    WellFormedCatalog(byId) && 0 in byId &&
    forall k :: k in data ==> k in byId && data[k].id in byId
  }

  /** The starter creature, Gliterrati. */
  const StarterId: int := 27

  /**
   * `MakeStarterCreatureInfo`: a collection holding one boosted record of the
   * starter creature, which its first boost takes to level 1.
   */
  method MakeStarterCreatureInfo(byId: map<int, Creature>) returns (info: CreatureData)
    requires StarterId in byId
    ensures info.Keys == {StarterId}
    ensures info[StarterId] == Boosted(FreshRecord(StarterId), StatsFor(byId, StarterId))
    ensures info[StarterId].level == 1 && info[StarterId].totalCaught == 1
    ensures info[StarterId].currentAvailable == 1 && info[StarterId].currentAvailableCompete == 1
    ensures info[StarterId].available && info[StarterId].assignedTo == ""
  {
    var starter := new PlayerCreatureInfo(StarterId);
    starter.BoostCreature(byId);
    info := map[starter.id := starter.Record()];
  }
}

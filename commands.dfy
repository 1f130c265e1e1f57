// Commands queued for a player while they are away (a creature returned from a
// flipped Control-mode place, fragments returned from a Compete-mode cell, an
// administrator's grant), and the interpreter that applies them the next time
// the player loads their account.

module Commands {
  import opened Common
  import opened Creatures
  import opened Progression
  import opened Records

  /** Every account's queue of pending commands. */
  type Queues = map<string, seq<UpdateCommand>>

  /** The queue of one account; an account with no stored queue has none pending. */
  function Pending(q: Queues, account: string): seq<UpdateCommand> {
    if account in q then q[account] else []
  }

  /** The queues with `cmd` appended to the queue of `account`. */
  function Enqueued(q: Queues, account: string, cmd: UpdateCommand): Queues {
    q[account := Pending(q, account) + [cmd]]
  }

  /** `UpdateAccountPendingCommand`: appends one command to the account's queue. */
  method UpdateAccountPendingCommand(q: Queues, accountName: string, verb: string, target: string)
    returns (q': Queues)
    ensures q' == Enqueued(q, accountName, UpdateCommand(verb, target))
    ensures Pending(q', accountName) == Pending(q, accountName) + [UpdateCommand(verb, target)]
    ensures forall a :: a != accountName ==> Pending(q', a) == Pending(q, a)
    ensures q'.Keys == q.Keys + {accountName}
  {
    var commands := if accountName in q then q[accountName] else [];
    commands := commands + [UpdateCommand(verb, target)];
    q' := q[accountName := commands];
  }

  /** The stored files of one player that queued commands change. */
  datatype PlayerFiles = PlayerFiles(
    account: Account,
    creatures: CreatureData,
    compete: map<string, PlayerCompeteEntry>)

  /** The interpreter's state: the files as changed so far, and which of them must be written back. */
  datatype Progress = Progress(files: PlayerFiles, saveCreatures: bool, saveCompete: bool)

  /**
   * A decimal parser standing for `ToLong`, `ToInt` and `int.Parse`;
   * `None` is the format error the parse throws.
   */
  type Parser = string -> Option<int>

  /** A parser that reads back every integer written in decimal. */
  ghost predicate ParsesDecimal(parse: Parser) {
    forall n :: parse(IntToString(n)) == Some(n)
  }

  /** Every creature of the catalog list is in the catalog map. */
  ghost predicate Listed(creatureList: seq<Creature>, byId: map<int, Creature>) {
    forall i :: 0 <= i < |creatureList| ==> creatureList[i].id in byId
  }

  // ---------------------------------------------------------------------
  // The effect of each verb
  // ---------------------------------------------------------------------

  /** RETURN: the creature is back from a Control-mode place. */
  function Returned(r: CreatureRecord): CreatureRecord {
    r.(available := true, assignedTo := "")
  }

  /** RESET: every copy ever caught is available again in both modes. */
  function ResetRecord(r: CreatureRecord): CreatureRecord {
    r.(currentAvailable := r.totalCaught, currentAvailableCompete := r.totalCaught, available := true)
  }

  function ResetAll(d: CreatureData): CreatureData {
    map k | k in d :: ResetRecord(d[k])
  }

  /** The record DEVHELPER creates for a creature the player lacks. */
  function DevRecord(id: int): CreatureRecord {
    FreshRecord(id).(level := 1, totalCaught := 1, currentAvailable := 1, currentAvailableCompete := 1)
  }

  const DevBonus: int := 50

  /** DEVHELPER for one catalog creature: create it if missing, then add the bonus to its counters. */
  function DevHelped(d: CreatureData, id: int): CreatureData {
    var r := if id in d then d[id] else DevRecord(id);
    d[id := r.(totalCaught := r.totalCaught + DevBonus,
               currentAvailable := r.currentAvailable + DevBonus,
               currentAvailableCompete := r.currentAvailableCompete + DevBonus)]
  }

  function DevHelpedAll(d: CreatureData, cs: seq<Creature>): CreatureData
    decreases |cs|
  {
    if cs == [] then d else DevHelpedAll(DevHelped(d, cs[0].id), cs[1..])
  }

  /** RETURN with a target naming a creature id. */
  function ReturnStep(p: Progress, target: string, parse: Parser): Option<Progress> {
    var f := p.files;
    match parse(target)
    case None => None
    case Some(k) =>
      if k !in f.creatures then None
      else Some(p.(files := f.(creatures := f.creatures[k := Returned(f.creatures[k])]),
                   saveCreatures := true))
  }

  /** RETURNCOMPETE "id|count|cell". */
  function ReturnCompeteStep(p: Progress, target: string, parse: Parser): Option<Progress> {
    var f := p.files;
    var values := Split(target, '|');
    match parse(values[0])
    case None => None
    case Some(k) =>
      if k !in f.creatures || |values| < 2 then None
      else match parse(values[1])
      case None => None
      case Some(n) =>
        if |values| < 3 then None
        else
          var r := f.creatures[k];
          Some(Progress(f.(creatures := f.creatures[k := r.(currentAvailableCompete := r.currentAvailableCompete + n)],
                           compete := f.compete - {values[2]}),
                        true, true))
  }

  /** The amount an ADMINGRANT names in its second piece. */
  function GrantAmount(pieces: seq<string>, parse: Parser): Option<int> {
    if |pieces| < 2 then None else parse(pieces[1])
  }

  /** ADMINGRANT "catch|id|amount", "coins|n", "proxytokens|n" or "swaptokens|n". */
  function AdminGrantStep(p: Progress, target: string, byId: map<int, Creature>, parse: Parser): Option<Progress>
    requires Coherent(byId, p.files.creatures)
  {
    var f := p.files;
    var cur := f.account.currencies;
    var pieces := Split(target, '|');
    if pieces[0] == "catch" then
      match GrantAmount(pieces, parse)
      case None => None
      case Some(id) =>
        if |pieces| < 3 then None
        else match parse(pieces[2])
        case None => None
        case Some(amount) =>
          if id !in f.creatures then None
          else
            var r := f.creatures[id];
            Some(p.(files := f.(creatures := f.creatures[id := FastBoosted(r, amount, StatsFor(byId, r.id))]),
                    saveCreatures := true))
    else if pieces[0] == "coins" || pieces[0] == "proxytokens" || pieces[0] == "swaptokens" then
      match GrantAmount(pieces, parse)
      case None => None
      case Some(n) =>
        var cur' :=
          if pieces[0] == "coins" then cur.(baseCurrency := cur.baseCurrency + n)
          else if pieces[0] == "proxytokens" then cur.(proxyPlayTokens := cur.proxyPlayTokens + n)
          else cur.(teamSwapTokens := cur.teamSwapTokens + n);
        Some(p.(files := f.(account := f.account.(currencies := cur'))))
    else
      Some(p)
  }

  /** The verbs the interpreter acts on; any other verb, GRANT among them, is skipped. */
  predicate KnownVerb(verb: string) {
    verb in {"RETURN", "RETURNCOMPETE", "GRADUATE", "ADMINDUMP", "RESET", "ADMINGRANT", "DEVHELPER"}
  }

  /** One command of `ProcessPendingCommand`'s switch; `None` is an exception that abandons the run. */
  function ApplyCommand(p: Progress, cmd: UpdateCommand, creatureList: seq<Creature>,
                        byId: map<int, Creature>, parse: Parser): Option<Progress>
    requires Coherent(byId, p.files.creatures)
  {
    var f := p.files;
    if cmd.verb == "RETURN" then ReturnStep(p, cmd.target, parse)
    else if cmd.verb == "RETURNCOMPETE" then ReturnCompeteStep(p, cmd.target, parse)
    else if cmd.verb == "GRADUATE" then
      Some(p.(files := f.(account := f.account.(graduationEligible := true))))
    else if cmd.verb == "RESET" then
      Some(p.(files := f.(creatures := ResetAll(f.creatures)), saveCreatures := true))
    else if cmd.verb == "ADMINGRANT" then AdminGrantStep(p, cmd.target, byId, parse)
    else if cmd.verb == "DEVHELPER" then
      var cur := f.account.currencies;
      var cur' := cur.(proxyPlayTokens := cur.proxyPlayTokens + 20, vortexTokens := cur.vortexTokens + 20);
      Some(Progress(f.(account := f.account.(currencies := cur'),
                       creatures := DevHelpedAll(f.creatures, creatureList)),
                    true, p.saveCompete))
    else
      Some(p)
  }

  lemma {:induction false} DevHelpedAllCoherent(d: CreatureData, cs: seq<Creature>, byId: map<int, Creature>)
    requires Coherent(byId, d) && Listed(cs, byId)
    ensures Coherent(byId, DevHelpedAll(d, cs))
    decreases |cs|
  {
    if cs != [] {
      assert cs[0].id in byId;
      DevHelpedAllCoherent(DevHelped(d, cs[0].id), cs[1..], byId);
    }
  }

  lemma AdminGrantCoherent(p: Progress, target: string, byId: map<int, Creature>, parse: Parser)
    requires Coherent(byId, p.files.creatures)
    ensures var r := AdminGrantStep(p, target, byId, parse);
      r.Some? ==> Coherent(byId, r.value.files.creatures)
  {
  }

  /** Every command keeps every record naming a catalog creature. */
  lemma ApplyCommandCoherent(p: Progress, cmd: UpdateCommand, creatureList: seq<Creature>,
                             byId: map<int, Creature>, parse: Parser)
    requires Coherent(byId, p.files.creatures) && Listed(creatureList, byId)
    ensures var r := ApplyCommand(p, cmd, creatureList, byId, parse);
      r.Some? ==> Coherent(byId, r.value.files.creatures)
  {
    if cmd.verb == "DEVHELPER" {
      DevHelpedAllCoherent(p.files.creatures, creatureList, byId);
    } else if cmd.verb == "ADMINGRANT" {
      AdminGrantCoherent(p, cmd.target, byId, parse);
    }
  }

  /** The commands of a queue in order, stopping at the first exception. */
  function RunCommands(p: Progress, cmds: seq<UpdateCommand>, creatureList: seq<Creature>,
                       byId: map<int, Creature>, parse: Parser): Option<Progress>
    requires Coherent(byId, p.files.creatures) && Listed(creatureList, byId)
    decreases |cmds|
  {
    if cmds == [] then Some(p)
    else match ApplyCommand(p, cmds[0], creatureList, byId, parse)
      case None => None
      case Some(p1) =>
        ApplyCommandCoherent(p, cmds[0], creatureList, byId, parse);
        RunCommands(p1, cmds[1..], creatureList, byId, parse)
  }

  // ---------------------------------------------------------------------
  // What the interpreter promises
  // ---------------------------------------------------------------------

  /** RETURN makes the named creature available and unassigned and touches nothing else. */
  lemma ReturnMakesAvailable(p: Progress, k: int, creatureList: seq<Creature>,
                             byId: map<int, Creature>, parse: Parser)
    requires Coherent(byId, p.files.creatures) && ParsesDecimal(parse)
    requires k in p.files.creatures
    ensures var r := ApplyCommand(p, UpdateCommand("RETURN", IntToString(k)), creatureList, byId, parse);
      r.Some? && r.value.files.creatures.Keys == p.files.creatures.Keys &&
      r.value.files.creatures[k].available && r.value.files.creatures[k].assignedTo == "" &&
      r.value.files.creatures[k].totalCaught == p.files.creatures[k].totalCaught &&
      r.value.files.creatures[k].level == p.files.creatures[k].level &&
      (forall j :: j in p.files.creatures && j != k ==> r.value.files.creatures[j] == p.files.creatures[j]) &&
      r.value.files.account == p.files.account && r.value.files.compete == p.files.compete
  {
  }

  /** A RETURN whose target is not the id of a held creature throws, which abandons the whole run. */
  lemma ReturnOfUnknownTargetAborts(p: Progress, target: string, creatureList: seq<Creature>,
                                    byId: map<int, Creature>, parse: Parser)
    requires Coherent(byId, p.files.creatures)
    requires parse(target).None? || parse(target).value !in p.files.creatures
    ensures ApplyCommand(p, UpdateCommand("RETURN", target), creatureList, byId, parse).None?
  {
  }

  /**
   * RETURNCOMPETE "id|count|cell", as a Compete-mode attack queues it, gives
   * `count` fragments back to the creature and forgets the cell.
   */
  lemma ReturnCompeteRestores(p: Progress, k: int, n: int, cell: string, creatureList: seq<Creature>,
                              byId: map<int, Creature>, parse: Parser)
    requires Coherent(byId, p.files.creatures) && ParsesDecimal(parse)
    requires k in p.files.creatures && '|' !in cell
    ensures var r := ApplyCommand(p, UpdateCommand("RETURNCOMPETE", IntToString(k) + "|" + IntToString(n) + "|" + cell),
                                  creatureList, byId, parse);
      r.Some? &&
      r.value.files.creatures[k].currentAvailableCompete == p.files.creatures[k].currentAvailableCompete + n &&
      r.value.files.creatures[k].totalCaught == p.files.creatures[k].totalCaught &&
      r.value.files.compete == p.files.compete - {cell} &&
      (forall j :: j in p.files.creatures && j != k ==> r.value.files.creatures[j] == p.files.creatures[j]) &&
      r.value.saveCreatures && r.value.saveCompete
  {
    var a, b := IntToString(k), IntToString(n);
    assert '|' !in a && '|' !in b;
    SplitThree(a, b, cell, '|');
    assert a + "|" + b + "|" + cell == a + ['|'] + b + ['|'] + cell;
  }

  /** RESET puts every record's counters back to its total caught and makes it available. */
  lemma ResetRestoresCounters(p: Progress, creatureList: seq<Creature>, byId: map<int, Creature>, parse: Parser)
    requires Coherent(byId, p.files.creatures)
    ensures var r := ApplyCommand(p, UpdateCommand("RESET", ""), creatureList, byId, parse);
      r.Some? && r.value.files.creatures.Keys == p.files.creatures.Keys &&
      forall k :: k in r.value.files.creatures ==>
        var c, c0 := r.value.files.creatures[k], p.files.creatures[k];
        c.currentAvailable == c0.totalCaught && c.currentAvailableCompete == c0.totalCaught &&
        c.available && c.totalCaught == c0.totalCaught && c.assignedTo == c0.assignedTo
  {
  }

  /** A verb the interpreter does not know, such as GRANT, changes nothing. */
  lemma UnknownVerbIgnored(p: Progress, cmd: UpdateCommand, creatureList: seq<Creature>,
                           byId: map<int, Creature>, parse: Parser)
    requires Coherent(byId, p.files.creatures) && !KnownVerb(cmd.verb)
    ensures ApplyCommand(p, cmd, creatureList, byId, parse) == Some(p)
  {
  }

  /** DEVHELPER leaves the player holding exactly the creatures they held plus every catalog creature. */
  lemma {:induction false} DevHelpedAllKeys(d: CreatureData, cs: seq<Creature>)
    ensures DevHelpedAll(d, cs).Keys == d.Keys + set i | 0 <= i < |cs| :: cs[i].id
    decreases |cs|
  {
    if cs != [] {
      DevHelpedAllKeys(DevHelped(d, cs[0].id), cs[1..]);
      assert (set i | 0 <= i < |cs| :: cs[i].id) == {cs[0].id} + set i | 0 <= i < |cs[1..]| :: cs[1..][i].id by {
        forall i | 1 <= i < |cs| ensures cs[i].id == cs[1..][i - 1].id { }
      }
    }
  }

  /** DEVHELPER never lowers a record's total caught. */
  lemma {:induction false} DevHelpedAllGrows(d: CreatureData, cs: seq<Creature>, k: int)
    requires k in d
    ensures k in DevHelpedAll(d, cs) && DevHelpedAll(d, cs)[k].totalCaught >= d[k].totalCaught
    decreases |cs|
  {
    if cs != [] {
      DevHelpedAllGrows(DevHelped(d, cs[0].id), cs[1..], k);
    }
  }

  /** After DEVHELPER every catalog creature has at least the bonus caught. */
  lemma {:induction false} DevHelpedAllBonus(d: CreatureData, cs: seq<Creature>, i: int)
    requires 0 <= i < |cs| && forall k :: k in d ==> d[k].totalCaught >= 0
    ensures cs[i].id in DevHelpedAll(d, cs) && DevHelpedAll(d, cs)[cs[i].id].totalCaught >= DevBonus
    decreases |cs|
  {
    var d1 := DevHelped(d, cs[0].id);
    if i == 0 {
      assert d1[cs[0].id].totalCaught >= DevBonus;
      DevHelpedAllGrows(d1, cs[1..], cs[0].id);
    } else {
      DevHelpedAllBonus(d1, cs[1..], i - 1);
    }
  }

  lemma AdminGrantFlags(p: Progress, target: string, byId: map<int, Creature>, parse: Parser)
    requires Coherent(byId, p.files.creatures)
    ensures var r := AdminGrantStep(p, target, byId, parse);
      r.Some? ==>
        (r.value.saveCreatures || r.value.files.creatures == p.files.creatures) &&
        r.value.saveCompete == p.saveCompete && r.value.files.compete == p.files.compete &&
        (p.saveCreatures ==> r.value.saveCreatures)
  {
    var pieces := Split(target, '|');
    var r := AdminGrantStep(p, target, byId, parse);
    if pieces[0] == "catch" {
      assert r.Some? ==> r.value.saveCreatures && r.value.saveCompete == p.saveCompete &&
                         r.value.files.compete == p.files.compete;
    } else if pieces[0] == "coins" || pieces[0] == "proxytokens" || pieces[0] == "swaptokens" {
      assert r.Some? ==> r.value.files.creatures == p.files.creatures && r.value.files.compete == p.files.compete &&
                         r.value.saveCreatures == p.saveCreatures && r.value.saveCompete == p.saveCompete;
    } else {
      assert r == Some(p);
    }
  }

  /** One command sets a save flag for every file it changes, and never clears one. */
  lemma ApplyCommandFlags(p: Progress, cmd: UpdateCommand, creatureList: seq<Creature>,
                          byId: map<int, Creature>, parse: Parser)
    requires Coherent(byId, p.files.creatures)
    ensures var r := ApplyCommand(p, cmd, creatureList, byId, parse);
      r.Some? ==>
        (r.value.saveCreatures || r.value.files.creatures == p.files.creatures) &&
        (r.value.saveCompete || r.value.files.compete == p.files.compete) &&
        (p.saveCreatures ==> r.value.saveCreatures) && (p.saveCompete ==> r.value.saveCompete)
  {
    if cmd.verb == "ADMINGRANT" {
      AdminGrantFlags(p, cmd.target, byId, parse);
    }
  }

  /** So a whole run writes back every file it changed: nothing changed in memory is lost. */
  lemma {:induction false} RunCommandsFlags(p: Progress, cmds: seq<UpdateCommand>, creatureList: seq<Creature>,
                                            byId: map<int, Creature>, parse: Parser)
    requires Coherent(byId, p.files.creatures) && Listed(creatureList, byId)
    ensures var r := RunCommands(p, cmds, creatureList, byId, parse);
      r.Some? ==>
        (r.value.saveCreatures || r.value.files.creatures == p.files.creatures) &&
        (r.value.saveCompete || r.value.files.compete == p.files.compete)
    decreases |cmds|
  {
    if cmds != [] {
      var r1 := ApplyCommand(p, cmds[0], creatureList, byId, parse);
      ApplyCommandFlags(p, cmds[0], creatureList, byId, parse);
      if r1.Some? {
        ApplyCommandCoherent(p, cmds[0], creatureList, byId, parse);
        RunCommandsFlags(r1.value, cmds[1..], creatureList, byId, parse);
        RunCommandsKeepsFlags(r1.value, cmds[1..], creatureList, byId, parse);
      }
    }
  }

  lemma {:induction false} RunCommandsKeepsFlags(p: Progress, cmds: seq<UpdateCommand>, creatureList: seq<Creature>,
                                                 byId: map<int, Creature>, parse: Parser)
    requires Coherent(byId, p.files.creatures) && Listed(creatureList, byId)
    ensures var r := RunCommands(p, cmds, creatureList, byId, parse);
      r.Some? ==> (p.saveCreatures ==> r.value.saveCreatures) && (p.saveCompete ==> r.value.saveCompete)
    decreases |cmds|
  {
    if cmds != [] {
      var r1 := ApplyCommand(p, cmds[0], creatureList, byId, parse);
      ApplyCommandFlags(p, cmds[0], creatureList, byId, parse);
      if r1.Some? {
        ApplyCommandCoherent(p, cmds[0], creatureList, byId, parse);
        RunCommandsKeepsFlags(r1.value, cmds[1..], creatureList, byId, parse);
      }
    }
  }

  // ---------------------------------------------------------------------
  // The interpreter
  // ---------------------------------------------------------------------

  /** The RESET loop over the collection. */
  method ResetCreatures(d: CreatureData) returns (r: CreatureData)
    ensures r == ResetAll(d)
  {
    r := d;
    var keys := d.Keys;
    while keys != {}
      invariant keys <= d.Keys && r.Keys == d.Keys
      invariant forall k :: k in r ==> r[k] == if k in keys then d[k] else ResetRecord(d[k])
      decreases keys
    {
      var k := Pick(keys);
      r := r[k := ResetRecord(r[k])];
      keys := keys - {k};
    }
    assert forall k :: k in r ==> r[k] == ResetAll(d)[k];
  }

  /** The DEVHELPER loop over the catalog list. */
  method DevHelpCreatures(d: CreatureData, creatureList: seq<Creature>) returns (r: CreatureData)
    ensures r == DevHelpedAll(d, creatureList)
  {
    r := d;
    for i := 0 to |creatureList|
      invariant DevHelpedAll(r, creatureList[i..]) == DevHelpedAll(d, creatureList)
    {
      assert creatureList[i..][1..] == creatureList[i + 1..];
      ghost var r0 := r;
      var c := creatureList[i];
      if c.id !in r {
        r := r[c.id := DevRecord(c.id)];
      }
      var x := r[c.id];
      r := r[c.id := x.(totalCaught := x.totalCaught + DevBonus,
                        currentAvailable := x.currentAvailable + DevBonus,
                        currentAvailableCompete := x.currentAvailableCompete + DevBonus)];
      assert r == DevHelped(r0, c.id);
    }
    assert creatureList[|creatureList|..] == [];
  }

  /** One pass of the switch. */
  method ExecuteCommand(p: Progress, cmd: UpdateCommand, creatureList: seq<Creature>,
                        byId: map<int, Creature>, parse: Parser) returns (r: Option<Progress>)
    requires Coherent(byId, p.files.creatures)
    ensures r == ApplyCommand(p, cmd, creatureList, byId, parse)
  {
    var f := p.files;
    if cmd.verb == "RESET" {
      var c := ResetCreatures(f.creatures);
      r := Some(p.(files := f.(creatures := c), saveCreatures := true));
    } else if cmd.verb == "DEVHELPER" {
      var cur := f.account.currencies;
      cur := cur.(proxyPlayTokens := cur.proxyPlayTokens + 20, vortexTokens := cur.vortexTokens + 20);
      var c := DevHelpCreatures(f.creatures, creatureList);
      r := Some(Progress(f.(account := f.account.(currencies := cur), creatures := c), true, p.saveCompete));
    } else {
      r := ApplyCommand(p, cmd, creatureList, byId, parse);
    }
  }

  /**
   * `ProcessPendingCommand`: runs the account's queue in order against its
   * files; if a command throws, nothing is written and the queue stays;
   * otherwise the changed files are written back and the queue is cleared.
   */
  method ProcessPendingCommand(queues: Queues, accountId: string, files: PlayerFiles,
                               creatureList: seq<Creature>, byId: map<int, Creature>, parse: Parser)
    returns (queues': Queues, files': PlayerFiles, failed: bool)
    requires Coherent(byId, files.creatures) && Listed(creatureList, byId)
    ensures accountId !in queues ==> !failed && queues' == queues && files' == files
    ensures accountId in queues ==>
      failed == RunCommands(Progress(files, false, false), queues[accountId], creatureList, byId, parse).None?
    ensures failed ==> queues' == queues && files' == files
    ensures accountId in queues && !failed ==>
      files' == RunCommands(Progress(files, false, false), queues[accountId], creatureList, byId, parse).value.files &&
      queues' == queues - {accountId} && Pending(queues', accountId) == []
  {
    if accountId !in queues {
      return queues, files, false;
    }
    var data := queues[accountId];
    var cur := Progress(files, false, false);
    ghost var start := cur;
    for i := 0 to |data|
      invariant Coherent(byId, cur.files.creatures)
      invariant RunCommands(start, data, creatureList, byId, parse) ==
                RunCommands(cur, data[i..], creatureList, byId, parse)
      invariant RunCommands(cur, data[i..], creatureList, byId, parse).Some? ==>
                RunCommands(start, data, creatureList, byId, parse).Some?
    {
      assert data[i..][1..] == data[i + 1..];
      var r := ExecuteCommand(cur, data[i], creatureList, byId, parse);
      if r.None? {
        return queues, files, true;
      }
      ApplyCommandCoherent(cur, data[i], creatureList, byId, parse);
      cur := r.value;
    }
    assert data[|data|..] == [];
    RunCommandsFlags(start, data, creatureList, byId, parse);
    var creatures := if cur.saveCreatures then cur.files.creatures else files.creatures;
    var compete := if cur.saveCompete then cur.files.compete else files.compete;
    files' := PlayerFiles(cur.files.account, creatures, compete);
    queues' := queues - {accountId};
    failed := false;
  }
}

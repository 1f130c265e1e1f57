// Improvement tasks: a creature assigned to a task earns one result per
// `timePerResult` seconds (CommonHelpers.CheckImprovementTasks), and the two
// endpoints that assign and cancel (ImproveController.cs).

module Tasks {
  import opened Common
  import opened Creatures
  import opened Progression
  import opened Records
  import opened Commands

  /** A player's `taskInfo`, keyed by task id in insertion order. */
  type TaskData = seq<Entry<string, ImprovementTask>>

  /** `(long)(now - lastCheck).TotalSeconds`: whole seconds between two instants, truncated. */
  function ElapsedSeconds(lastCheck: int, now: int): int {
    TruncDiv(now - lastCheck, TicksPerSecond)
  }

  // ---------------------------------------------------------------------
  // Accrual
  // ---------------------------------------------------------------------

  /** Seconds the task has banked once the time since its last check is added. */
  function Banked(t: ImprovementTask, now: int): int {
    t.accrued + ElapsedSeconds(t.lastCheck, now)
  }

  /** The whole results the banked seconds pay for. */
  function Rewards(t: ImprovementTask, now: int): int
    requires t.timePerResult != 0
  {
    CsDiv(Banked(t, now), t.timePerResult)
  }

  /** The task after a check: the paid seconds are spent and the check time is now. */
  function Checked(t: ImprovementTask, now: int): ImprovementTask
    requires t.timePerResult != 0
  {
    t.(accrued := Banked(t, now) - t.timePerResult * Rewards(t, now), lastCheck := now)
  }

  /**
   * With a positive period and a non-negative balance, a check pays out the
   * whole periods and keeps less than one period: no second is lost or
   * counted twice.
   */
  lemma CheckSplitsBalance(t: ImprovementTask, now: int)
    requires t.timePerResult > 0 && Banked(t, now) >= 0
    ensures Rewards(t, now) == Banked(t, now) / t.timePerResult
    ensures Rewards(t, now) >= 0
    ensures 0 <= Checked(t, now).accrued < t.timePerResult
    ensures Rewards(t, now) * t.timePerResult + Checked(t, now).accrued == Banked(t, now)
  {
    var b, n := Banked(t, now), t.timePerResult;
    assert Rewards(t, now) == b / n;
    DivSplit(b, n);
  }

  lemma DivSplit(b: int, n: int)
    requires n > 0 && b >= 0
    ensures b / n >= 0 && b - n * (b / n) == b % n && 0 <= b % n < n
    ensures (b / n) * n + (b - n * (b / n)) == b
  {
  }

  // ---------------------------------------------------------------------
  // One task
  // ---------------------------------------------------------------------

  /** What a task check works on, and whether the account or the collection must be saved. */
  datatype TaskProgress = TaskProgress(account: Account, creatures: CreatureData, saveAccount: bool, saveCreatures: bool)

  /** The first catalog creature, in list order, that is not hidden and not yet in the collection. */
  function FirstUnfound(creatureList: seq<Creature>, data: CreatureData): (r: Option<int>)
    ensures r.Some? ==> r.value !in data
    ensures r.None? ==> forall i :: 0 <= i < |creatureList| && !creatureList[i].isHidden ==> creatureList[i].id in data
    decreases |creatureList|
  {
    if creatureList == [] then None
    else if !creatureList[0].isHidden && creatureList[0].id !in data then Some(creatureList[0].id)
    else FirstUnfound(creatureList[1..], data)
  }

  /** The record a hint creates: a fresh record with its hint unlocked. */
  function HintRecord(id: int): CreatureRecord {
    FreshRecord(id).(hintUnlocked := true)
  }

  /**
   * The reward of one checked task.  A clone task whose creature is missing
   * throws; a hint adds a record without asking for the collection to be saved.
   */
  function Rewarded(p: TaskProgress, t: ImprovementTask, rewards: int, creatureList: seq<Creature>,
                    byId: map<int, Creature>): Option<TaskProgress>
  {
    if rewards <= 0 then Some(p)
    else if t.id == "clone" then
      if t.assignedCreature !in p.creatures then None
      else
        var r := p.creatures[t.assignedCreature];
        Some(p.(creatures := p.creatures[t.assignedCreature := BoostedTimes(r, rewards, StatsFor(byId, r.id))],
                saveCreatures := true))
    else if t.id == "ppt" then
      Some(p.(account := p.account.(currencies := p.account.currencies.(
                proxyPlayTokens := p.account.currencies.proxyPlayTokens + rewards)),
              saveAccount := true))
    else if t.id == "hint" then
      match FirstUnfound(creatureList, p.creatures)
      case None => Some(p)
      case Some(id) => Some(p.(creatures := p.creatures[id := HintRecord(id)]))
    else if t.id == "tst" then
      Some(p.(account := p.account.(currencies := p.account.currencies.(
                teamSwapTokens := p.account.currencies.teamSwapTokens + rewards)),
              saveAccount := true))
    else if t.id == "vortex" then
      Some(p.(account := p.account.(currencies := p.account.currencies.(
                vortexTokens := p.account.currencies.vortexTokens + rewards)),
              saveAccount := true))
    else Some(p)
  }

  /**
   * One iteration of the task loop: an unassigned task (`assigned` not
   * positive) is left alone; an assigned one is checked and rewarded.  A zero
   * period divides by zero and throws.
   */
  function CheckTask(p: TaskProgress, t: ImprovementTask, now: int, creatureList: seq<Creature>,
                     byId: map<int, Creature>): Option<(ImprovementTask, TaskProgress)>
  {
    if t.assignedCreature <= 0 then Some((t, p))
    else if t.timePerResult == 0 then None
    else
      match Rewarded(p, Checked(t, now), Rewards(t, now), creatureList, byId)
      case None => None
      case Some(p') => Some((Checked(t, now), p'))
  }

  /** An unassigned task, and everything else, is untouched by a check. */
  lemma UnassignedTaskUntouched(p: TaskProgress, t: ImprovementTask, now: int, creatureList: seq<Creature>,
                                byId: map<int, Creature>)
    requires t.assignedCreature <= 0
    ensures CheckTask(p, t, now, creatureList, byId) == Some((t, p))
  {
  }

  /**
   * A clone task boosts its creature once per result, through the ordinary
   * catch boost, and changes no other record.
   */
  lemma CloneBoostsOncePerReward(p: TaskProgress, t: ImprovementTask, now: int, creatureList: seq<Creature>,
                                 byId: map<int, Creature>)
    requires t.assignedCreature > 0 && t.timePerResult > 0 && t.id == "clone"
    requires Rewards(t, now) > 0 && t.assignedCreature in p.creatures
    ensures var r := CheckTask(p, t, now, creatureList, byId);
      var c := p.creatures[t.assignedCreature];
      r.Some? && r.value.1.creatures.Keys == p.creatures.Keys &&
      r.value.1.creatures[t.assignedCreature] == BoostedTimes(c, Rewards(t, now), StatsFor(byId, c.id)) &&
      r.value.1.creatures[t.assignedCreature].totalCaught == c.totalCaught + Rewards(t, now) &&
      (forall k :: k in p.creatures && k != t.assignedCreature ==> r.value.1.creatures[k] == p.creatures[k]) &&
      r.value.1.account == p.account && r.value.1.saveCreatures
  {
  }

  /** A clone task whose creature is not in the collection throws. */
  lemma CloneOfMissingCreatureThrows(p: TaskProgress, t: ImprovementTask, now: int, creatureList: seq<Creature>,
                                     byId: map<int, Creature>)
    requires t.assignedCreature > 0 && t.timePerResult > 0 && t.id == "clone"
    requires Rewards(t, now) > 0 && t.assignedCreature !in p.creatures
    ensures CheckTask(p, t, now, creatureList, byId).None?
  {
  }

  /** The token tasks add exactly the rewards to their own currency and touch nothing else. */
  lemma TokenTasksPay(p: TaskProgress, t: ImprovementTask, now: int, creatureList: seq<Creature>,
                      byId: map<int, Creature>)
    requires t.assignedCreature > 0 && t.timePerResult > 0 && Rewards(t, now) > 0
    requires t.id in {"ppt", "tst", "vortex"}
    ensures var r := CheckTask(p, t, now, creatureList, byId);
      var n := Rewards(t, now);
      var c, c' := p.account.currencies, r.value.1.account.currencies;
      r.Some? && r.value.1.creatures == p.creatures && r.value.1.saveAccount &&
      r.value.1.saveCreatures == p.saveCreatures &&
      r.value.1.account == p.account.(currencies := c') &&
      c' == (if t.id == "ppt" then c.(proxyPlayTokens := c.proxyPlayTokens + n)
             else if t.id == "tst" then c.(teamSwapTokens := c.teamSwapTokens + n)
             else c.(vortexTokens := c.vortexTokens + n))
  {
  }

  /**
   * A hint adds a record for the first unfound creature but never asks for
   * the collection to be saved: only a clone task does.
   */
  lemma OnlyCloneSavesCreatures(p: TaskProgress, t: ImprovementTask, now: int, creatureList: seq<Creature>,
                                byId: map<int, Creature>)
    requires t.id != "clone" && t.timePerResult != 0
    ensures var r := CheckTask(p, t, now, creatureList, byId);
      r.Some? && r.value.1.saveCreatures == p.saveCreatures
  {
  }

  lemma HintAddsRecord(p: TaskProgress, t: ImprovementTask, now: int, creatureList: seq<Creature>,
                       byId: map<int, Creature>)
    requires t.assignedCreature > 0 && t.timePerResult > 0 && Rewards(t, now) > 0 && t.id == "hint"
    requires FirstUnfound(creatureList, p.creatures).Some?
    ensures var id := FirstUnfound(creatureList, p.creatures).value;
      var r := CheckTask(p, t, now, creatureList, byId);
      r.Some? && id !in p.creatures &&
      r.value.1.creatures == p.creatures[id := HintRecord(id)] && r.value.1.creatures[id].hintUnlocked
  {
  }

  // ---------------------------------------------------------------------
  // All tasks
  // ---------------------------------------------------------------------

  /** The tasks checked so far, and the progress after them. */
  datatype TaskRun = TaskRun(tasks: TaskData, progress: TaskProgress)

  /** The task loop over `tasks` in dictionary order; `None` if an iteration throws. */
  function RunTasks(p: TaskProgress, tasks: TaskData, now: int, creatureList: seq<Creature>,
                    byId: map<int, Creature>): Option<TaskRun>
    decreases |tasks|
  {
    if tasks == [] then Some(TaskRun([], p))
    else
      match RunTasks(p, tasks[..|tasks| - 1], now, creatureList, byId)
      case None => None
      case Some(run) =>
        var e := tasks[|tasks| - 1];
        match CheckTask(run.progress, e.value, now, creatureList, byId)
        case None => None
        case Some(checked) => Some(TaskRun(run.tasks + [Entry(e.key, checked.0)], checked.1))
  }

  /**
   * The loop keeps every task in its place under its key; a task changes only
   * in its balance and check time, and only if it is assigned.
   */
  lemma {:induction false} RunTasksKeepsTasks(p: TaskProgress, tasks: TaskData, now: int, creatureList: seq<Creature>,
                                              byId: map<int, Creature>)
    ensures var r := RunTasks(p, tasks, now, creatureList, byId);
      r.Some? ==> (|r.value.tasks| == |tasks| &&
        forall i :: 0 <= i < |tasks| ==>
          r.value.tasks[i].key == tasks[i].key &&
          r.value.tasks[i].value.(accrued := tasks[i].value.accrued, lastCheck := tasks[i].value.lastCheck) == tasks[i].value &&
          (tasks[i].value.assignedCreature <= 0 ==> r.value.tasks[i].value == tasks[i].value))
    decreases |tasks|
  {
    if tasks != [] {
      RunTasksKeepsTasks(p, tasks[..|tasks| - 1], now, creatureList, byId);
    }
  }

  /** Without a clone task in the list, the collection is never saved, whatever the hints add. */
  lemma {:induction false} NoCloneNoCreatureSave(p: TaskProgress, tasks: TaskData, now: int, creatureList: seq<Creature>,
                                                 byId: map<int, Creature>)
    requires forall i :: 0 <= i < |tasks| ==> tasks[i].value.id != "clone" && tasks[i].value.timePerResult != 0
    ensures var r := RunTasks(p, tasks, now, creatureList, byId);
      r.Some? && r.value.progress.saveCreatures == p.saveCreatures
    decreases |tasks|
  {
    if tasks != [] {
      var init := tasks[..|tasks| - 1];
      NoCloneNoCreatureSave(p, init, now, creatureList, byId);
      var run := RunTasks(p, init, now, creatureList, byId).value;
      OnlyCloneSavesCreatures(run.progress, tasks[|tasks| - 1].value, now, creatureList, byId);
    }
  }

  /** Tokens earned by tasks that are due, never lost: no currency count goes down. */
  ghost predicate Due(tasks: TaskData, now: int) {
    forall i :: 0 <= i < |tasks| ==>
      tasks[i].value.timePerResult > 0 && Banked(tasks[i].value, now) >= 0
  }

  lemma {:induction false} RunTasksNeverLowersTokens(p: TaskProgress, tasks: TaskData, now: int,
                                                     creatureList: seq<Creature>, byId: map<int, Creature>)
    requires Due(tasks, now)
    ensures var r := RunTasks(p, tasks, now, creatureList, byId);
      var c := p.account.currencies;
      r.Some? ==>
        var c' := r.value.progress.account.currencies;
        c'.baseCurrency == c.baseCurrency && c'.instantWinTokens == c.instantWinTokens &&
        c'.proxyPlayTokens >= c.proxyPlayTokens && c'.teamSwapTokens >= c.teamSwapTokens &&
        c'.vortexTokens >= c.vortexTokens
    decreases |tasks|
  {
    if tasks != [] {
      var init := tasks[..|tasks| - 1];
      assert Due(init, now) by {
        forall i | 0 <= i < |init| ensures init[i] == tasks[i] { }
      }
      RunTasksNeverLowersTokens(p, init, now, creatureList, byId);
      var run := RunTasks(p, init, now, creatureList, byId);
      if run.Some? {
        CheckTaskNeverLowersTokens(run.value.progress, tasks[|tasks| - 1].value, now, creatureList, byId);
      }
    }
  }

  /** One due task only ever adds to the token counts. */
  lemma CheckTaskNeverLowersTokens(p: TaskProgress, t: ImprovementTask, now: int, creatureList: seq<Creature>,
                                   byId: map<int, Creature>)
    requires t.timePerResult > 0 && Banked(t, now) >= 0
    ensures var r := CheckTask(p, t, now, creatureList, byId);
      var c := p.account.currencies;
      r.Some? ==>
        var c' := r.value.1.account.currencies;
        c'.baseCurrency == c.baseCurrency && c'.instantWinTokens == c.instantWinTokens &&
        c'.proxyPlayTokens >= c.proxyPlayTokens && c'.teamSwapTokens >= c.teamSwapTokens &&
        c'.vortexTokens >= c.vortexTokens
  {
    if t.assignedCreature > 0 {
      CheckSplitsBalance(t, now);
    }
  }

  // ---------------------------------------------------------------------
  // CheckImprovementTasks
  // ---------------------------------------------------------------------

  /**
   * `CheckImprovementTasks`: loads the tasks (the defaults when none are
   * stored), runs the loop, and saves the tasks always, the account and the
   * collection only when a reward asked for it.  A throw saves nothing.
   */
  method CheckImprovementTasks(account: Account, creatures: CreatureData, stored: Option<TaskData>, now: int,
                               creatureList: seq<Creature>, byId: map<int, Creature>)
    returns (tasks': TaskData, account': Account, creatures': CreatureData, failed: bool)
    ensures var tasks := if stored.Some? then stored.value else DefaultTasks;
      var run := RunTasks(TaskProgress(account, creatures, false, false), tasks, now, creatureList, byId);
      failed <==> run.None?
    ensures var tasks := if stored.Some? then stored.value else DefaultTasks;
      var run := RunTasks(TaskProgress(account, creatures, false, false), tasks, now, creatureList, byId);
      !failed ==> (tasks' == run.value.tasks &&
        account' == (if run.value.progress.saveAccount then run.value.progress.account else account) &&
        creatures' == (if run.value.progress.saveCreatures then run.value.progress.creatures else creatures))
    ensures failed ==> account' == account && creatures' == creatures
  {
    var tasks := if stored.Some? then stored.value else DefaultTasks;
    var p := TaskProgress(account, creatures, false, false);
    ghost var start := p;
    var done: TaskData := [];
    var i := 0;
    while i < |tasks|
      invariant 0 <= i <= |tasks|
      invariant RunTasks(start, tasks[..i], now, creatureList, byId) == Some(TaskRun(done, p))
    {
      assert tasks[..i + 1][..i] == tasks[..i];
      var step := CheckNextTask(p, tasks[i].value, now, creatureList, byId);
      if step.None? {
        assert RunTasks(start, tasks[..i + 1], now, creatureList, byId).None?;
        RunTasksStopsAtFailure(start, tasks, i + 1, now, creatureList, byId);
        return tasks, account, creatures, true;
      }
      done := done + [Entry(tasks[i].key, step.value.0)];
      p := step.value.1;
      i := i + 1;
    }
    assert tasks[..i] == tasks;
    tasks' := done;
    account' := if p.saveAccount then p.account else account;
    creatures' := if p.saveCreatures then p.creatures else creatures;
    failed := false;
  }

  /** The body of the task loop, on one task. */
  method CheckNextTask(p: TaskProgress, t: ImprovementTask, now: int, creatureList: seq<Creature>,
                       byId: map<int, Creature>)
    returns (step: Option<(ImprovementTask, TaskProgress)>)
    ensures step == CheckTask(p, t, now, creatureList, byId)
  {
    if t.assignedCreature <= 0 {
      return Some((t, p));
    }
    if t.timePerResult == 0 {
      return None;
    }
    var rewards := Rewards(t, now);
    var checked := Checked(t, now);
    var next := Rewarded(p, checked, rewards, creatureList, byId);
    if next.None? {
      return None;
    }
    step := Some((checked, next.value));
  }

  /** Once an iteration throws, the whole loop has thrown. */
  lemma {:induction false} RunTasksStopsAtFailure(p: TaskProgress, tasks: TaskData, i: int, now: int,
                                                  creatureList: seq<Creature>, byId: map<int, Creature>)
    requires 0 <= i <= |tasks|
    requires RunTasks(p, tasks[..i], now, creatureList, byId).None?
    ensures RunTasks(p, tasks, now, creatureList, byId).None?
    decreases |tasks| - i
  {
    if i < |tasks| {
      assert tasks[..i + 1][..i] == tasks[..i];
      RunTasksStopsAtFailure(p, tasks, i + 1, now, creatureList, byId);
    } else {
      assert tasks[..i] == tasks;
    }
  }

  // ---------------------------------------------------------------------
  // Assigning and cancelling
  // ---------------------------------------------------------------------

  /** The task after `AssignCreature`: the new creature, checked from now; the balance is kept as it was. */
  function Assigned(t: ImprovementTask, creatureId: int, now: int): (t': ImprovementTask)
    ensures t'.accrued == t.accrued && t'.assignedCreature == creatureId && t'.lastCheck == now
    ensures t'.id == t.id && t'.timePerResult == t.timePerResult
  {
    t.(lastCheck := now, assignedCreature := creatureId)
  }

  /** The task after `CancelTask`: the seconds since the last check are banked, and no creature is on it. */
  function Cancelled(t: ImprovementTask, now: int): (t': ImprovementTask)
    ensures t'.accrued == Banked(t, now) && t'.assignedCreature == 0 && t'.lastCheck == now
    ensures t'.id == t.id && t'.timePerResult == t.timePerResult
  {
    t.(accrued := Banked(t, now), assignedCreature := 0, lastCheck := now)
  }

  /**
   * Cancelling banks the time a creature worked, but re-assigning does not
   * bank the idle time in between: a cancel at `t1`, an assignment at `t2`
   * and a check at `t3` pay for the balance plus the two working spans only.
   */
  lemma IdleTimeNotBanked(t: ImprovementTask, creatureId: int, t1: int, t2: int, t3: int)
    requires creatureId > 0
    ensures Banked(Assigned(Cancelled(t, t1), creatureId, t2), t3) ==
      t.accrued + ElapsedSeconds(t.lastCheck, t1) + ElapsedSeconds(t2, t3)
  {
  }

  /**
   * `AssignCreature`: puts `creatureId` on `taskName` and releases the
   * creature the task held before, in that order, so re-assigning a task's
   * own creature leaves it released.  A missing creature, task or previous
   * creature throws before anything is saved.
   */
  method AssignCreature(creatures: CreatureData, tasks: TaskData, creatureId: int, taskName: string, now: int)
    returns (creatures': CreatureData, tasks': TaskData, failed: bool)
    ensures failed <==> (creatureId !in creatures || Find(tasks, taskName).None? ||
      (Find(tasks, taskName).value.assignedCreature != 0 && Find(tasks, taskName).value.assignedCreature !in creatures))
    ensures failed ==> creatures' == creatures && tasks' == tasks
    ensures !failed ==>
      var t := Find(tasks, taskName).value;
      var prev := t.assignedCreature;
      tasks' == Put(tasks, taskName, Assigned(t, creatureId, now)) &&
      creatures'.Keys == creatures.Keys &&
      creatures'[creatureId] == (if prev != 0 && prev == creatureId then Returned(creatures[creatureId])
                                 else creatures[creatureId].(assignedTo := taskName, available := false)) &&
      (prev != 0 ==> creatures'[prev] == Returned(creatures[prev])) &&
      forall k :: k in creatures && k != creatureId && k != prev ==> creatures'[k] == creatures[k]
  {
    if creatureId !in creatures {
      return creatures, tasks, true;
    }
    creatures' := creatures[creatureId := creatures[creatureId].(assignedTo := taskName, available := false)];
    var found := Find(tasks, taskName);
    if found.None? {
      return creatures, tasks, true;
    }
    var t := found.value;
    if t.assignedCreature != 0 {
      if t.assignedCreature !in creatures' {
        return creatures, tasks, true;
      }
      creatures' := creatures'[t.assignedCreature := Returned(creatures'[t.assignedCreature])];
      assert Returned(creatures[creatureId].(assignedTo := taskName, available := false)) == Returned(creatures[creatureId]);
    }
    tasks' := Put(tasks, taskName, Assigned(t, creatureId, now));
    failed := false;
  }

  /**
   * `CancelTask`: releases the task's creature, banks the elapsed seconds and
   * clears the assignment.  A missing task or creature throws.
   */
  method CancelTask(creatures: CreatureData, tasks: TaskData, taskName: string, now: int)
    returns (creatures': CreatureData, tasks': TaskData, failed: bool)
    ensures failed <==> (Find(tasks, taskName).None? ||
      (Find(tasks, taskName).value.assignedCreature != 0 && Find(tasks, taskName).value.assignedCreature !in creatures))
    ensures failed ==> creatures' == creatures && tasks' == tasks
    ensures !failed ==>
      var t := Find(tasks, taskName).value;
      tasks' == Put(tasks, taskName, Cancelled(t, now)) &&
      creatures' == (if t.assignedCreature != 0
                     then creatures[t.assignedCreature := Returned(creatures[t.assignedCreature])]
                     else creatures)
  {
    var found := Find(tasks, taskName);
    if found.None? {
      return creatures, tasks, true;
    }
    var t := found.value;
    creatures' := creatures;
    if t.assignedCreature != 0 {
      if t.assignedCreature !in creatures {
        return creatures, tasks, true;
      }
      creatures' := creatures[t.assignedCreature := Returned(creatures[t.assignedCreature])];
    }
    tasks' := Put(tasks, taskName, Cancelled(t, now));
    failed := false;
  }

  /** Only the named task changes: every other task reads back as before. */
  lemma OnlyNamedTaskChanges(tasks: TaskData, taskName: string, t': ImprovementTask, other: string)
    requires other != taskName
    ensures Find(Put(tasks, taskName, t'), other) == Find(tasks, other)
    ensures Find(Put(tasks, taskName, t'), taskName) == Some(t')
  {
    FindPut(tasks, taskName, t', other);
    FindPut(tasks, taskName, t', taskName);
  }
}

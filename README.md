# Creature collector game logic, in Dafny

This project models the game logic of PraxisCreatureCollectorPlugin. That plugin is a
location-based creature collector: players walk through Plus Code cells and catch
creatures that spawn there. They level their collection by catching copies
("fragments"), and they spend those copies in three modes:

- Control: a pyramid of up to 15 creatures per place, scored per team. A player names
  the place by any Plus Code inside it.
- Compete: a pooled fragment total per Cell8, attacked by other teams.
- Cover: per-player placements on Cell10s.

Accounts hold coins and tokens, and improvement tasks pay out over time. Other
players' actions reach an account through a queue of pending commands.

The model replaces the key-value store with values. Each endpoint takes the records it
would load and returns the records it would save, or a failure when the source throws
before saving. The stores are:

- an account record;
- the account's collection, as a map from creature id to record;
- per-place claim lists;
- Compete entries per cell, twice: the in-memory dictionary that an update reads, and the stored data that an attack and a withdrawal read (`Compete.Pools`);
- Cover placements;
- pending command queues;
- the five team totals.

`PlayerCreatureInfo` is a class, because the source updates its fields in place. Its
methods are proved against value functions on a record (`Boosted`, `FastBoosted`,
`LeveledUp`, `AtLevel`). Loops in the source are `while` loops proved against a fold
function of the inputs, and the lemmas about those folds carry the properties.

Several behaviours of the code as written are modelled faithfully and pinned by lemmas:

- A changed built-in creature only bumps the catalog version; the stored entry is kept
  (`Startup.StoredEntriesKept`).
- A completed passport set keeps growing and never pays again
  (`Passport.CompletedSetKeepsGrowing`).
- An expired coin-grant block is not renewed (`Catching.ExpiredBlockNotRenewed`).
- The Control collapse test uses the occupant count before the knock-out
  (`Control.CombatArea`).
- Control reads and saves a place's list through one map lookup, while a flip or a
  knock-out writes the place that a second lookup finds (`Control.Places`).
- A completed zodiac queues a GRANT command that no command case handles
  (`Control.ZodiacGrantIgnored`).
- The passport reward is named after the id stored inside the boosted record
  (`Passport.RewardNamedByStoredId`).
- The spawn walk's early stop reads the walkable style list, not the walkable picks
  (`Spawning.EarlyStopSkipsWalkable`).
- A Compete attack builds both stacks from the attacker's creature
  (`Compete.AttackIgnoresDefenderCreature`).
- A Compete update that throws on an empty cell leaves the new pool in memory but not
  stored, so withdrawing from that cell still throws (`Compete.OpenedPoolNotStored`).

The model also covers how the source uses numbers:

- Per-level stats are fixed-point hundredths, and C#'s truncating `(long)` cast becomes
  truncating division (`Common.TruncDiv`).
- The 32-bit seed arithmetic of `SpawnWander` wraps explicitly (`Creatures.Wrap32`).
- Time is in .NET ticks.

Randomness, the clock, ISO week numbers, string hashing and location geometry are
parameters: draw values, `now`, `week`, `codeHash`, `inBounds`, the facts about a
cell, and the lookups from a Plus Code to the place that contains it.

Modules, one per file:

- `common`: integer helpers and insertion-ordered dictionaries.
- `creature`: the catalog entry and its spawn rules.
- `progression`: `PlayerCreatureInfo`.
- `records`: accounts, claims and tasks.
- `startup`: catalog reconciliation and spawn tables.
- `scoring`: Control scores and sorting.
- `commands`: the pending-command interpreter.
- `control`, `compete`, `cover`: the three modes.
- `tasks`: improvement tasks.
- `accounts`: audit, team swap and account endpoints.
- `coin_shop`, `passport`.
- `spawning`: cell spawning.
- `catching`: walking into cells, and the vortex.
- `graduate`.
- `spawn_table`: per-cell spawn tables.

## Model

| member | source | states |
|---|---|---|
| Progression.FreshRecord | PraxisCreatureCollectorPlugin/TransferClasses.cs:17-31 | A new record of a creature has its id, level 0, no threshold, is available and is assigned nowhere |
| Progression.AtLevel | PraxisCreatureCollectorPlugin/TransferClasses.cs:64-72 | Setting a level fixes the level exactly; strength, defense, scouting and the next threshold come from the catalog stats at that level; no other field changes |
| Progression.SameLevelSameStats | PraxisCreatureCollectorPlugin/TransferClasses.cs:64-72 | Two records of the same creature set to the same level get equal strength, defense, scouting and threshold, whatever they held before |
| Progression.LeveledUp | PraxisCreatureCollectorPlugin/TransferClasses.cs:58-62 | A level-up raises the level by exactly one and leaves the id and all three counters alone |
| Progression.Boosted | PraxisCreatureCollectorPlugin/TransferClasses.cs:34-44 | One catch adds exactly one to total caught and to both availability counters; it levels up once exactly when the threshold drops below 1, and otherwise only lowers the threshold by one |
| Progression.BoostedTimes | PraxisCreatureCollectorPlugin/CommonHelpers.cs:281-283 | n catches in a row add n to each counter and never lower the level |
| Progression.LevelLoop | PraxisCreatureCollectorPlugin/TransferClasses.cs:50-55 | The fragment loop ends with a threshold of at least 1 and never lowers the level; it levels up at least once exactly when the fragments reach the threshold, and otherwise only lowers the threshold |
| Progression.FastBoosted | PraxisCreatureCollectorPlugin/TransferClasses.cs:46-56 | n fragments at once add n to both availability counters, leave total caught unchanged, never lower the level, and leave a threshold of at least 1 |
| Progression.FreshRecordLevelsUp | PraxisCreatureCollectorPlugin/TransferClasses.cs:50-54 | A fresh record reaches level 1 or more under a fast boost, even with zero fragments |
| Progression.FreeFirstLevelBoost | PraxisCreatureCollectorPlugin/TransferClasses.cs:46-56 | When level 1 is free and level 2 costs one, a fresh record boosted with nothing ends at level 2 with threshold 1 |
| Progression.WeshipeshuFreshBoost | PraxisCreatureCollectorPlugin/Creature.cs:1177-1188 | Creature 65 is such a creature: a fast boost of nothing takes a fresh record to level 2 |
| Progression.PlayerCreatureInfo.constructor | PraxisCreatureCollectorPlugin/TransferClasses.cs:17-31 | A new object holds the fresh record of its creature |
| Progression.PlayerCreatureInfo.Load | PraxisCreatureCollectorPlugin/TransferClasses.cs:17-31 | An object loaded from storage holds exactly the stored record |
| Progression.PlayerCreatureInfo.SetToLevel | PraxisCreatureCollectorPlugin/TransferClasses.cs:64-72 | The fields after the call are the old record set to the new level with its catalog stats |
| Progression.PlayerCreatureInfo.LevelUp | PraxisCreatureCollectorPlugin/TransferClasses.cs:58-62 | The fields after the call are the old record one level up |
| Progression.PlayerCreatureInfo.BoostCreature | PraxisCreatureCollectorPlugin/TransferClasses.cs:34-44 | The fields after the call are the old record with one more catch |
| Progression.PlayerCreatureInfo.FastBoost | PraxisCreatureCollectorPlugin/TransferClasses.cs:46-56 | The fields after the call are the old record with the fragments added and the level-up loop run |
| Progression.PlayerCreatureInfo.SpendFragments | PraxisCreatureCollectorPlugin/TransferClasses.cs:50-55 | The while loop leaves the record that the fragment loop describes |
| Progression.DefaultTasksShape | PraxisCreatureCollectorPlugin/TransferClasses.cs:85-93 | A new player gets five tasks with distinct ids, each filed under its own id, none assigned, every period positive |
| Creatures.TimeOfDay | PraxisCreatureCollectorPlugin/Creature.cs:86 | The time of day of an instant lies within one day |
| Creatures.InstantDayOfYear | PraxisCreatureCollectorPlugin/Creature.cs:90 | The day of year of an instant is between 1 and 366 |
| Creatures.LevelCostPositive | PraxisCreatureCollectorPlugin/TransferClasses.cs:71 | Under valid catalog stats every level from 2 on costs at least one fragment, so the fragment loop ends |
| Creatures.UnrestrictedAlwaysSpawns | PraxisCreatureCollectorPlugin/Creature.cs:84-92 | A creature with no time windows and no date windows may spawn at every instant |
| Creatures.TimeWindowBounds | PraxisCreatureCollectorPlugin/Creature.cs:54 | A time window includes both of its ends, and one starting after its end matches nothing, which is why a window across midnight is split in two |
| Creatures.CanSpawnNowCharacterised | PraxisCreatureCollectorPlugin/Creature.cs:84-92 | A creature may spawn exactly when (it has no time windows or one matches the time of day) and (it has no date windows or one matches the day of year) |
| Creatures.DateWindowIgnoresYear | PraxisCreatureCollectorPlugin/Creature.cs:90 | A date window compares days of year only, so moving its ends to another year of the same leap status changes nothing |
| Creatures.LeapYearShiftsWindows | PraxisCreatureCollectorPlugin/Creature.cs:766 | Through leap days the written year still matters: 21 March is day 81 in 2000 and day 80 in 2001 |
| Creatures.Wrap32 | PraxisCreatureCollectorPlugin/Creature.cs:1207 | The unchecked 32-bit sum lies in the int range and agrees with the true sum modulo 2^32 |
| Creatures.WanderStableWithinPeriod | PraxisCreatureCollectorPlugin/Creature.cs:1202-1211 | For a fixed cell and creature, two instants in the same wander period give the same answer |
| Creatures.SmallOddsAlwaysWander | PraxisCreatureCollectorPlugin/Creature.cs:1208-1209 | With wander odds of at most 2 the draw is always 0 or 1, so the creature wanders into every cell in every period |
| Creatures.WeshipeshuCosts | PraxisCreatureCollectorPlugin/Creature.cs:1181 | Creature 65 has valid stats, a free first level and a second level costing one fragment |
| Records.MakeStarterCreatureInfo | PraxisCreatureCollectorPlugin/CommonHelpers.cs:244-252 | A new collection holds only the starter creature, caught once and so at level 1, available and unassigned |
| Accounts.Clamped | PraxisCreatureCollectorPlugin/Controllers/TiboController.cs:205-213 | Both availability counters are cut down to the total caught, and nothing else changes |
| Accounts.AuditBoundsCounters | PraxisCreatureCollectorPlugin/Controllers/TiboController.cs:205-213 | After the audit no record has more available copies than it ever caught, in either mode; total caught, id and level are kept |
| Accounts.AuditReleases | PraxisCreatureCollectorPlugin/Controllers/TiboController.cs:215-236 | When no record's code lies outside every place, a record is released exactly when it is assigned, not to a current task, and either on a retired task or absent from the list of its code's place under this account; otherwise its assignment stands |
| Accounts.AuditIdempotent | PraxisCreatureCollectorPlugin/Controllers/TiboController.cs:202-237 | Auditing an audited collection changes nothing, and does not throw where the first audit did not |
| Accounts.AuditCreaturePlacement | PraxisCreatureCollectorPlugin/Controllers/TiboController.cs:196-239 | The loop throws exactly when some assigned record's code lies in no place; otherwise it yields the audited collection, and the save flag is set exactly when some record changed |
| Accounts.AuditOne | PraxisCreatureCollectorPlugin/Controllers/TiboController.cs:202-237 | One loop iteration yields that record's audited value, and throws exactly when the record's place lookup fails |
| Accounts.AuditOnLogin | PraxisCreatureCollectorPlugin/Controllers/TiboController.cs:146-157 | A login audits only when the last audit is more than a day old, then records the audit time; an audit that throws saves nothing; otherwise nothing changes, and after a completed audit none is due |
| Accounts.TeamSwapReset | PraxisCreatureCollectorPlugin/CommonHelpers.cs:568-579 | A reset record is available, unassigned, and has every caught copy back in Compete; Cover counts are kept |
| Accounts.ResetCreatureData | PraxisCreatureCollectorPlugin/CommonHelpers.cs:568-579 | The loop resets every record: all available, Compete counters equal to total caught, Cover counters unchanged |
| Accounts.DeleteAllPlayerControlEntries | PraxisCreatureCollectorPlugin/CommonHelpers.cs:549-566 | The clean-up throws exactly when some record is assigned to a code the location-code validator accepts, full or short, and otherwise writes nothing |
| Accounts.SetPlayerTeam | PraxisCreatureCollectorPlugin/Controllers/TiboController.cs:83-102 | The first team choice is free; a later one spends exactly one swap token, withdraws from Compete and resets the collection, and leaves no Compete notes stored; without a token nothing changes; a player with no Compete notes stored, or a record on a place, throws with nothing changed; a throw in the Compete clean-up keeps only the pools already written |
| Accounts.SecondSwapRefused | PraxisCreatureCollectorPlugin/CommonHelpers.cs:517-546 | As written, a paid swap expires the Compete notes, so the next paid swap throws and changes nothing, whatever tokens are left |
| Accounts.TeamSwappedNullSafe | PraxisCreatureCollectorPlugin/Controllers/CompeteController.cs:134-135 | Reading missing Compete notes as empty changes nothing for a player who has notes stored |
| Accounts.NullSafeSwapSucceeds | PraxisCreatureCollectorPlugin/Controllers/TiboController.cs:89-96 | With missing notes read as empty, a player with a token and no creature on a place always swaps: one token is spent, the team changes, the collection is reset and the pools are kept |
| Accounts.SetTutorialViewed | PraxisCreatureCollectorPlugin/Controllers/TiboController.cs:68-79 | A tutorial not yet seen is appended and saved, and a seen one saves nothing, so the list never gains a duplicate |
| Accounts.SetProxyPlayPoint | PraxisCreatureCollectorPlugin/Controllers/TiboController.cs:107-132 | A token is spent only when one is available and the code is blank or in bounds; a blank code clears the point, any other moves it; without a token nothing changes |
| Accounts.CreateAccount | PraxisCreatureCollectorPlugin/Controllers/TiboController.cs:32-56 | An existing account is refused; otherwise the player gets a new account with one proxy token and team 0, the level-1 starter alone, the default tasks and empty grant blocks and tutorials |
| Catching.CoinGrant | PraxisCreatureCollectorPlugin/Controllers/CreatureController.cs:244-273 | A grant is paid exactly when the lock is off and the cell has no block or an expired one; it adds the drawn coins and one grant and sets eligibility past the graduation count; a refused grant changes nothing |
| Catching.GrantBlocksNewCell | PraxisCreatureCollectorPlugin/Controllers/CreatureController.cs:247-256 | A grant on a new cell blocks it for 22 hours, keeps every other live block, and a second visit at once is refused |
| Catching.ExpiredBlockNotRenewed | PraxisCreatureCollectorPlugin/Controllers/CreatureController.cs:252-256 | A cell whose block has expired pays and is left with no block, so an immediate second visit pays again |
| Catching.GrantMonotone | PraxisCreatureCollectorPlugin/Controllers/CreatureController.cs:258-266 | Graduation eligibility is never lost, coins rise by at most 6, and the grant count rises by one exactly when a grant is paid |
| Catching.Trimmed | PraxisCreatureCollectorPlugin/Controllers/CreatureController.cs:297-298 | A recent list longer than 499 loses exactly its oldest uid, and a shorter one is kept |
| Catching.LedgerOf | PraxisCreatureCollectorPlugin/Controllers/CreatureController.cs:294-319 | The spawns caught in a run are among the spawns looked at, and there are no more of them |
| Catching.CatchAll | PraxisCreatureCollectorPlugin/Controllers/CreatureController.cs:294-319 | Every spawn caught in a run is one of the spawns looked at |
| Catching.CatchLoop | PraxisCreatureCollectorPlugin/Controllers/CreatureController.cs:294-319 | The catch loop yields the run over the spawns in order, and every record still names a catalog creature |
| Catching.CatchNext | PraxisCreatureCollectorPlugin/Controllers/CreatureController.cs:296-318 | One iteration trims the recent list and catches the spawn unless its uid is on it |
| Catching.CatchAllSnoc | PraxisCreatureCollectorPlugin/Controllers/CreatureController.cs:296-318 | The run with one more spawn is the run so far, trimmed, plus that spawn caught when its uid is not on the trimmed list |
| Catching.RecentBounded | PraxisCreatureCollectorPlugin/Controllers/CreatureController.cs:297-302 | The recent-catch list never grows past 500 uids |
| Catching.RecentIsSuffix | PraxisCreatureCollectorPlugin/Controllers/CreatureController.cs:297-302 | The recent list only loses its oldest uids: after a run it is a suffix of the old list followed by the uids caught |
| Catching.NoRecatchWithinWindow | PraxisCreatureCollectorPlugin/Controllers/CreatureController.cs:297-302 | While the list has room, nothing is trimmed, no uid already on it or caught earlier in the run is caught again, and every spawn's uid ends up on it |
| Catching.CollectedTotals | PraxisCreatureCollectorPlugin/Controllers/CreatureController.cs:304-311 | Catching adds records only for creatures caught, and raises each creature's total by exactly the number of its spawns caught |
| Catching.CaughtOneCoherent | PraxisCreatureCollectorPlugin/Controllers/CreatureController.cs:304-311 | A catch of a catalog creature keeps every record naming a catalog creature |
| Catching.ProcessStepIntoArea | PraxisCreatureCollectorPlugin/Controllers/CreatureController.cs:229-328 | Out of bounds answers nothing; otherwise the coin grant is settled, the spawns go through the catch loop, and the collection and recent list are stored only when something was caught; the answer describes the last catch |
| Catching.StepKeepsCollection | PraxisCreatureCollectorPlugin/Controllers/CreatureController.cs:294-325 | Walking into a cell keeps every record, lowers no total caught, and keeps the recent list within 500 |
| Catching.Tally | PraxisCreatureCollectorPlugin/Controllers/CreatureController.cs:550-553 | The vortex counts hold exactly the creatures caught, each with the number of its spawns caught |
| Catching.SpendToken | PraxisCreatureCollectorPlugin/Controllers/CreatureController.cs:535 | Exactly one vortex token is spent and nothing else in the account changes |
| Catching.VortexAsWrittenWipes | PraxisCreatureCollectorPlugin/Controllers/CreatureController.cs:531-532 | As written, with a respawn minimum of 0, a vortex over an area with no spawns stores an empty collection over the player's creatures |
| Catching.VortexCorrectionOnlyThere | PraxisCreatureCollectorPlugin/Controllers/CreatureController.cs:570-575 | The corrected vortex differs from the source only for an 8-character code, a player with tokens, no more spawns than the minimum, and a minimum of at most 0 |
| Catching.Vortex | PraxisCreatureCollectorPlugin/Controllers/CreatureController.cs:506-579 | The vortex method yields the corrected outcome: a bad code or no token answers nothing; otherwise the catch loop runs over the area's spawns with counts per creature |
| Catching.VortexKeepsCollection | PraxisCreatureCollectorPlugin/Controllers/CreatureController.cs:533-575 | Whatever the corrected vortex stores spends exactly one token, keeps every record with no lower total, keeps the recent list within 500, and its counts are exactly the totals gained |
| CoinShop.CoinCostAtLeastBase | PraxisCreatureCollectorPlugin/CommonHelpers.cs:355-380 | With at most five place spawns and fewer than ten wander entries, no multiplier is below 1, so a creature costs at least its base price |
| CoinShop.SixPlacesCostNothing | PraxisCreatureCollectorPlugin/CommonHelpers.cs:368-369 | The place-spawn factor is Min(2, 6 minus the count), so it is 0 for a creature tied to six places, which then costs nothing |
| CoinShop.TenWanderEntriesCostNothing | PraxisCreatureCollectorPlugin/CommonHelpers.cs:377-378 | The wander factor is Min(3, 10 minus the entries), so it is 0 for a wanderer with ten entries, which then costs nothing |
| CoinShop.EliteCostsTriple | PraxisCreatureCollectorPlugin/CommonHelpers.cs:359-360 | An elite creature costs exactly three times what it would cost as a wild one |
| CoinShop.PurchasedRecord | PraxisCreatureCollectorPlugin/Controllers/CoinShopController.cs:79 | The record a first purchase creates has level 0, threshold 1, and its id left at 0 |
| CoinShop.BuyFragment | PraxisCreatureCollectorPlugin/Controllers/CoinShopController.cs:56-89 | An id not in today's shop answers the empty entry and changes nothing; a listed id missing from the catalog throws; otherwise a player with enough coins pays exactly the cost, never going negative, and gets one boost, while a player without enough changes nothing |
| CoinShop.PurchaseAddsOneFragment | PraxisCreatureCollectorPlugin/Controllers/CoinShopController.cs:75-81 | A purchase adds exactly one to each counter of the bought record; a first purchase yields a level-1 record of creature 0 filed under the bought key |
| CoinShop.PickOne | PraxisCreatureCollectorPlugin/Controllers/CoinShopController.cs:39-45 | A draw picks a member of the list, and nothing exactly when the list is empty |
| CoinShop.ShopExpiresAtDayEnd | PraxisCreatureCollectorPlugin/Controllers/CoinShopController.cs:48 | A shop expires at 23:59:59 of the day it was made, never before it was made |
| CoinShop.MakeShopEntries | PraxisCreatureCollectorPlugin/Controllers/CoinShopController.cs:36-51 | A new shop throws exactly when there is no wild or no elite candidate; otherwise it offers one wild creature spawnable now, one elite, and a third exactly when some creature is out of season, until the day's end |
| Commands.UpdateAccountPendingCommand | PraxisCreatureCollectorPlugin/CommonHelpers.cs:34-47 | The command is appended to that account's queue only; every other queue is unchanged |
| Commands.ApplyCommandCoherent | PraxisCreatureCollectorPlugin/CommonHelpers.cs:60-146 | Every command keeps every record naming a catalog creature |
| Commands.DevHelpedAllCoherent | PraxisCreatureCollectorPlugin/CommonHelpers.cs:128-145 | The developer grant keeps every record naming a catalog creature |
| Commands.AdminGrantCoherent | PraxisCreatureCollectorPlugin/CommonHelpers.cs:95-127 | The admin grant keeps every record naming a catalog creature |
| Commands.ReturnMakesAvailable | PraxisCreatureCollectorPlugin/CommonHelpers.cs:64-69 | RETURN makes the named creature available and unassigned, keeps its counts and level, and changes no other record, the account or the Compete notes |
| Commands.ReturnOfUnknownTargetAborts | PraxisCreatureCollectorPlugin/CommonHelpers.cs:65 | A RETURN whose target is not the id of a held creature throws, which abandons the whole run |
| Commands.ReturnCompeteRestores | PraxisCreatureCollectorPlugin/CommonHelpers.cs:70-77 | RETURNCOMPETE "id\|n\|cell" gives n fragments back to Compete for that creature, forgets the cell, changes no other record, and asks for both files to be saved |
| Commands.ResetRestoresCounters | PraxisCreatureCollectorPlugin/CommonHelpers.cs:85-94 | RESET sets both counters of every record to its total caught and makes it available |
| Commands.UnknownVerbIgnored | PraxisCreatureCollectorPlugin/CommonHelpers.cs:62-146 | A verb the interpreter does not know, such as GRANT, changes nothing |
| Commands.DevHelpedAllKeys | PraxisCreatureCollectorPlugin/CommonHelpers.cs:128-145 | After the developer grant the player holds exactly the creatures held before plus every catalog creature |
| Commands.DevHelpedAllGrows | PraxisCreatureCollectorPlugin/CommonHelpers.cs:128-145 | The developer grant never lowers a total caught |
| Commands.DevHelpedAllBonus | PraxisCreatureCollectorPlugin/CommonHelpers.cs:128-145 | After the developer grant every catalog creature has at least the bonus caught |
| Commands.AdminGrantFlags | PraxisCreatureCollectorPlugin/CommonHelpers.cs:95-127 | The admin grant asks to save the collection whenever it changes it, leaves the Compete notes alone, and clears no flag |
| Commands.ApplyCommandFlags | PraxisCreatureCollectorPlugin/CommonHelpers.cs:58-153 | Every command sets the save flag of each file it changes and never clears a flag |
| Commands.RunCommandsFlags | PraxisCreatureCollectorPlugin/CommonHelpers.cs:58-153 | A whole queue writes back every file it changed, so nothing changed in memory is lost |
| Commands.RunCommandsKeepsFlags | PraxisCreatureCollectorPlugin/CommonHelpers.cs:58-153 | A flag set before a run of commands is still set after it |
| Commands.ResetCreatures | PraxisCreatureCollectorPlugin/CommonHelpers.cs:87-92 | The RESET loop yields every record reset |
| Commands.DevHelpCreatures | PraxisCreatureCollectorPlugin/CommonHelpers.cs:131-143 | The developer-grant loop over the catalog yields the granted collection |
| Commands.ExecuteCommand | PraxisCreatureCollectorPlugin/CommonHelpers.cs:62-146 | One pass of the command switch yields the interpreted command |
| Commands.ProcessPendingCommand | PraxisCreatureCollectorPlugin/CommonHelpers.cs:49-157 | An account with no queue changes nothing; a command that throws leaves the files and queue as they were; otherwise the queue runs in order, the files become its result, and the queue is cleared |
| Compete.NewEntry | PraxisCreatureCollectorPlugin/Controllers/CompeteController.cs:101 | An empty cell's new entry has nothing contributed and is balanced |
| Compete.Opened | PraxisCreatureCollectorPlugin/Controllers/CompeteController.cs:98-103 | Afterwards the cell has a live entry; an existing entry and every other cell are kept |
| Compete.ClampedRequest | PraxisCreatureCollectorPlugin/Controllers/CompeteController.cs:111-112 | The requested total is cut down to the creature's total caught: it is the request or the total, whichever is lower |
| Compete.ContributionBalanced | PraxisCreatureCollectorPlugin/Controllers/CompeteController.cs:117-129 | A contribution sets the caller's share to the new total, moves the pool total by exactly the change, keeps the pool equal to the sum of shares, and leaves every other share alone |
| Compete.Settled | PraxisCreatureCollectorPlugin/Controllers/CompeteController.cs:158-166 | A changed entry is kept exactly when its total is not zero, in the live dictionary and the stored data alike; other cells are kept |
| Compete.Noted | PraxisCreatureCollectorPlugin/Controllers/CompeteController.cs:133-149 | The caller's own note of the cell moves by exactly the change, and a new note names the creature sent |
| Compete.UpdatePlacedCreature | PraxisCreatureCollectorPlugin/Controllers/CompeteController.cs:83-181 | The pool is read from the live dictionary. Out of bounds or another team's cell answers 0 and changes nothing; a missing record throws after the empty cell is opened in the live dictionary only, with nothing stored; otherwise the answer is the clamped total minus the old share, the new pool goes to both places, the Compete counter and the note move by the answer, and every pool stays balanced |
| Compete.OpenedPoolNotStored | PraxisCreatureCollectorPlugin/Controllers/CompeteController.cs:98-108 | After an update that throws on an empty cell, the pool is live but not stored, and withdrawing from that cell throws |
| Compete.PlacedEntry | PraxisCreatureCollectorPlugin/Controllers/CompeteController.cs:72-79 | The stored pool of the cell, or an empty balanced pool with nothing contributed when none is stored |
| Compete.QueueReturnsPending | PraxisCreatureCollectorPlugin/Controllers/CompeteController.cs:302-305 | Each contributor gets exactly one RETURNCOMPETE for its own share, and no one else gets anything |
| Compete.Attack | PraxisCreatureCollectorPlugin/Controllers/CompeteController.cs:277-310 | The attack wins exactly when the attacker's stack beats the stored pool's stack, both built from the attacker's creature; a win removes the cell from the live dictionary and the stored data and refunds every contributor of the stored pool; otherwise nothing changes; a missing record throws with nothing changed |
| Compete.AttackIgnoresDefenderCreature | PraxisCreatureCollectorPlugin/Controllers/CompeteController.cs:289-295 | The outcome does not depend on which creature the pool holds |
| Compete.AttackRefundsContributor | PraxisCreatureCollectorPlugin/Controllers/CompeteController.cs:304 | The command an attack queues, once run, gives the contributor back exactly its share and forgets the cell |
| Compete.WithdrawnBalanced | PraxisCreatureCollectorPlugin/CommonHelpers.cs:526-527 | A withdrawal removes exactly the account's share, keeps the pool balanced, and leaves other shares alone |
| Compete.WithdrawStepClears | PraxisCreatureCollectorPlugin/CommonHelpers.cs:524-542 | A withdrawal from one cell that completes read a stored pool, and wrote the pool without the account's share back to the stored data and the live dictionary, changing no other cell |
| Compete.WithdrawAllFrame | PraxisCreatureCollectorPlugin/CommonHelpers.cs:516-547 | Withdrawing from every noted cell keeps the set of stored cells, drops no live cell, and touches no cell outside the notes in either place |
| Compete.WithdrawAllBalanced | PraxisCreatureCollectorPlugin/CommonHelpers.cs:516-547 | Every pool, live or stored, stays balanced through the withdrawals |
| Compete.WithdrawAllClears | PraxisCreatureCollectorPlugin/CommonHelpers.cs:516-547 | A withdrawal that completes found a stored pool for every noted cell, and leaves the account no share in it, with the live pool equal to the stored one |
| Compete.DeleteAllPlayerCompeteEntries | PraxisCreatureCollectorPlugin/CommonHelpers.cs:516-547 | The loop yields the pools after withdrawing the account from each noted cell in order, reading the stored pool, and fails exactly when the withdrawal does: at the first noted cell with no stored pool, even one that is live |
| Compete.WithdrawAllStops | PraxisCreatureCollectorPlugin/CommonHelpers.cs:519-545 | Once a withdrawal throws, the rest of the loop does nothing more |
| Control.NoticesCover | PraxisCreatureCollectorPlugin/Controllers/ControlController.cs:154-156 | Every occupant's owner is sent a notice about that occupant |
| Control.NoticesOnlyOwners | PraxisCreatureCollectorPlugin/Controllers/ControlController.cs:154-156 | An account that owns no occupant is sent nothing |
| Control.NotifyAllPending | PraxisCreatureCollectorPlugin/Controllers/ControlController.cs:154-156 | Each queue grows by exactly the notices about its own occupants, and only owners gain a queue |
| Control.NotifyOccupants | PraxisCreatureCollectorPlugin/Controllers/ControlController.cs:154-156 | The notification loop appends to each account exactly the notices about its own occupants |
| Control.CreaturesInArea | PraxisCreatureCollectorPlugin/CommonHelpers.cs:164-172 | A code in no gameplay place throws; otherwise the answer is the stored list of the code's place, empty when nothing is stored |
| Control.FlipArea | PraxisCreatureCollectorPlugin/Controllers/ControlController.cs:153-168 | Every occupant is sent home; when the code lies in a place of the second lookup, that place's scores are taken off teams 1 to 4 and it is left empty and owned by team 0; otherwise only the notices change |
| Control.SpecialCheck | PraxisCreatureCollectorPlugin/Controllers/ControlController.cs:223-234 | It fires exactly when the occupants already hold all 13 zodiac creatures; then every owner is queued a GRANT of ten fragments of creature 52 per occupant before the returns, and the place flips as above; otherwise nothing changes |
| Control.ZodiacGrantIgnored | PraxisCreatureCollectorPlugin/CommonHelpers.cs:62-146 | The queued zodiac GRANT matches no command case, so processing it changes nothing and creature 52 is never granted |
| Control.BatMovedConserves | PraxisCreatureCollectorPlugin/Controllers/ControlController.cs:49-93 | A bat transform empties the source record, moves each of its three counters onto the target (creating it when missing), and changes no other record |
| Control.ClaimLocksRecord | PraxisCreatureCollectorPlugin/Controllers/ControlController.cs:95-97 | A claim marks exactly one record unavailable and assigned to the place, and leaves every other record as it was |
| Control.BatClaimMarksSource | PraxisCreatureCollectorPlugin/Controllers/ControlController.cs:52-61 | When the player already holds the transformed bat, the claim marks the emptied source record and leaves the target's availability alone |
| Control.LockClaimedCreature | PraxisCreatureCollectorPlugin/Controllers/ControlController.cs:49-97 | The transform and lock yield the claimed records and a claim whose level comes from the player's record |
| Control.PlaceClaim | PraxisCreatureCollectorPlugin/Controllers/ControlController.cs:100-104 | A complete zodiac on the code's gameplay place flips as above; otherwise a valid team's claim is stored in that place's level-sorted list, the place goes to the top team, and the totals move by the score difference; an invalid team throws with nothing changed |
| Control.ClaimPlace | PraxisCreatureCollectorPlugin/Controllers/ControlController.cs:23-112 | Out of bounds, or a place already holding 15 through any of its codes, refuses with nothing changed; a missing record or a code in no place throws with nothing changed; an admitted claim locks the record before the place is updated as above |
| Control.CombatArea | PraxisCreatureCollectorPlugin/Controllers/ControlController.cs:116-151 | A code in no place or an empty place throws with nothing changed; against the code's gameplay place the attack succeeds exactly when it beats the top or the bottom occupant; beating the top, or the bottom at a count of 3, 6 or 10 before removal, flips the place; otherwise the bottom occupant's owner is sent it back and, when the second lookup finds a place, that place is saved without it and the totals move by the score difference, while no place there throws after the return is queued; a loss changes nothing |
| Control.KnockOutKeepsPyramid | PraxisCreatureCollectorPlugin/Controllers/ControlController.cs:139-142 | Removing the bottom occupant shrinks the list by exactly that occupant and keeps it sorted |
| Cover.Covered | PraxisCreatureCollectorPlugin/Controllers/CoverController.cs:106-108 | The record gets the cell's old fragments back and gives up the stored count, never going negative |
| Cover.CoverConserves | PraxisCreatureCollectorPlugin/Controllers/CoverController.cs:106-108 | For non-negative inputs, available plus the cell's count is the same before and after, and the cell never holds more than that sum |
| Cover.ZeroRequestRefunds | PraxisCreatureCollectorPlugin/Controllers/CoverController.cs:103-108 | A request of 0 returns all of the cell's fragments to the record |
| Cover.ReportedChangeIgnoresCut | PraxisCreatureCollectorPlugin/Controllers/CoverController.cs:98-108 | The answer, the request minus the old count, exceeds the change actually stored by exactly the part of the request the record cannot cover, and equals it exactly when the request fits |
| Cover.UpdatePlacedCreature | PraxisCreatureCollectorPlugin/Controllers/CoverController.cs:77-126 | Out of bounds answers 0 and changes nothing; a missing record throws; otherwise the answer is the request minus the old count, only the named record changes, a request of 0 deletes the placement, and any other request stores the cut count |
| Graduation.WithAreaSpawn | PraxisCreatureCollectorPlugin/Controllers/CreatureController.cs:447-451 | The creature's spawn count in the area goes up by one, or starts at 1; other areas and fields are kept |
| Graduation.WithTableEntry | PraxisCreatureCollectorPlugin/Controllers/CreatureController.cs:453-456 | The creature's id joins the end of the area's spawn list; other areas are kept |
| Graduation.Replaced | PraxisCreatureCollectorPlugin/Controllers/CreatureController.cs:441-451 | Only the catalog entries of the chosen creature change |
| Graduation.Graduate | PraxisCreatureCollectorPlugin/Controllers/CreatureController.cs:437-486 | An unknown id throws; otherwise a plus-code area gains the creature, the catalog version is bumped either way, and the player starts over as a new player |
| Graduation.GraduateEffect | PraxisCreatureCollectorPlugin/Controllers/CreatureController.cs:444-484 | Graduating gives exactly one more entry in the area and changes no other area or creature; the player restarts with no grants, not eligible, and the level-1 starter |
| Passport.GetPassportData | PraxisCreatureCollectorPlugin/Controllers/PassportController.cs:20-31 | A missing passport is created blank and saved; an existing one is returned as stored |
| Passport.FirstStampable | PraxisCreatureCollectorPlugin/Controllers/PassportController.cs:48-50 | The place chosen is the first one whose style is a passport terrain, and there is none exactly when no place has such a style |
| Passport.RestampBlocked | PraxisCreatureCollectorPlugin/Controllers/PassportController.cs:56 | A place already stamped cannot be stamped again |
| Passport.UnnamedPlaceBlockedByAnyStamp | PraxisCreatureCollectorPlugin/Controllers/PassportController.cs:52-56 | Once a terrain holds any stamp, no unnamed place of that terrain can be stamped |
| Passport.StampPlace | PraxisCreatureCollectorPlugin/Controllers/PassportController.cs:35-83 | Out of bounds or no passport terrain answers nothing and saves nothing; otherwise only the first such place counts and the passport is saved |
| Passport.VisitRewardsOnlyThirdStamp | PraxisCreatureCollectorPlugin/Controllers/PassportController.cs:56-72 | A visit adds at most one stamp and pays only when the terrain goes from two stamps to three |
| Passport.RewardNamedByStoredId | PraxisCreatureCollectorPlugin/Controllers/PassportController.cs:64-71 | The reward is named after the id stored in the boosted record, so a drawn creature whose record was filed with id 0 is announced as creature 0 |
| Passport.CompletedSetKeepsGrowing | PraxisCreatureCollectorPlugin/Controllers/PassportController.cs:58-60 | A completed set is not cleared: a fourth stamp is stored after the first three, and no reward is paid |
| Scoring.TeamShares | PraxisCreatureCollectorPlugin/CommonHelpers.cs:198-202 | A team's shares are never negative |
| Scoring.Scores | PraxisCreatureCollectorPlugin/CommonHelpers.cs:196-208 | The scores have one entry for each of the five teams |
| Scoring.SharesConserved | PraxisCreatureCollectorPlugin/CommonHelpers.cs:199-202 | With every team in range, the teams' shares add up to the shares of the occupied positions |
| Scoring.LoneShares | PraxisCreatureCollectorPlugin/CommonHelpers.cs:196-208 | A lone occupant's team earns the top spot's shares and every other team earns none |
| Scoring.LoneOccupantScores | PraxisCreatureCollectorPlugin/CommonHelpers.cs:196-208 | A lone team-1 occupant scores [0, 48, 0, 0, 0] |
| Scoring.AbsentTeamNoShares | PraxisCreatureCollectorPlugin/CommonHelpers.cs:199-202 | A team with no occupant gets no share |
| Scoring.AbsentTeamScoresZero | PraxisCreatureCollectorPlugin/CommonHelpers.cs:199-205 | A team with no occupant scores nothing |
| Scoring.ScoresTotal | PraxisCreatureCollectorPlugin/CommonHelpers.cs:204-205 | The teams' scores add up to the occupied shares times the points per share, the total shares divided by 5 |
| Scoring.CalculateScores | PraxisCreatureCollectorPlugin/CommonHelpers.cs:196-208 | The accumulation loop yields the score function, and the total-points argument plays no part |
| Scoring.ScoreShift | PraxisCreatureCollectorPlugin/CommonHelpers.cs:210-216 | Team 0's total never moves |
| Scoring.ScoreShiftComposes | PraxisCreatureCollectorPlugin/CommonHelpers.cs:210-216 | Moving from one score vector to a second and then to a third is the same as one move |
| Scoring.ScoreShiftRoundTrip | PraxisCreatureCollectorPlugin/CommonHelpers.cs:210-216 | Moving there and back leaves the totals as they were |
| Scoring.ApplyScoreChange | PraxisCreatureCollectorPlugin/CommonHelpers.cs:210-216 | Teams 1 to 4 move by exactly new minus old, and team 0 is untouched |
| Scoring.SortByLevelSorted | PraxisCreatureCollectorPlugin/CommonHelpers.cs:183 | The sort yields a permutation of its input in descending level order |
| Scoring.SortByLevelStable | PraxisCreatureCollectorPlugin/CommonHelpers.cs:183 | The sort is stable: each level's occupants keep their order |
| Scoring.SortByLevelKeepsSorted | PraxisCreatureCollectorPlugin/CommonHelpers.cs:183 | A list already in order comes back unchanged |
| Scoring.RemovalKeepsSorted | PraxisCreatureCollectorPlugin/CommonHelpers.cs:224-225 | Removing any one occupant from a sorted list leaves it sorted |
| Scoring.AddCreatureFromControl | PraxisCreatureCollectorPlugin/CommonHelpers.cs:231-242 | The list gains the occupant at its end, and the totals move from the old scores to those of the sorted new list |
| Scoring.RemoveCreatureFromControl | PraxisCreatureCollectorPlugin/CommonHelpers.cs:218-229 | Exactly the occupant at the index leaves, and the totals move by the score difference |
| Scoring.SaveClaimForArea | PraxisCreatureCollectorPlugin/CommonHelpers.cs:175-194 | The stored list is a level-descending permutation of the old list plus the claim; the owner is its top occupant's team, which has the highest level; the totals move by the score difference |
| Scoring.ClaimBeatsCharacterised | PraxisCreatureCollectorPlugin/CommonHelpers.cs:383-402 | The attacker wins exactly when its strength strictly exceeds the defender's defense, so a tie goes to the defender |
| Scoring.StatAtMonotone | PraxisCreatureCollectorPlugin/TransferClasses.cs:66-68 | A stat with a non-negative per-level value never falls as the level rises |
| Scoring.HigherLevelStillBeats | PraxisCreatureCollectorPlugin/CommonHelpers.cs:396-402 | Raising the attacker's level never turns a win into a loss |
| Scoring.CreaturesFight | PraxisCreatureCollectorPlugin/CommonHelpers.cs:383-394 | The fight between two fresh records at the claims' levels is won exactly by the rule above |
| Spawning.MakeRandomCreatureInstance | PraxisCreatureCollectorPlugin/Controllers/CreatureController.cs:50-60 | An empty table throws; otherwise the instance is a creature of the table with the drawn uid, one of the five challenge letters, and the creature's difficulty |
| Spawning.MakeCreatureSpawn | PraxisCreatureCollectorPlugin/Controllers/CreatureController.cs:62-72 | A random spawn sits at its cell, holds that instance, and expires between the shortest and longest lifetime |
| Spawning.RandomSpawnLifetime | PraxisCreatureCollectorPlugin/Controllers/CreatureController.cs:68 | Every random spawn lives at least the shortest and less than the longest configured lifetime, and is a creature of the table |
| Spawning.PermanentSpawn | PraxisCreatureCollectorPlugin/Controllers/CreatureController.cs:139-146 | A permanent spawn sits at its chosen cell, holds its creature, and lives exactly the longest lifetime |
| Spawning.Rest | PraxisCreatureCollectorPlugin/Controllers/CreatureController.cs:114-116 | The top-up takes the first leftovers, as many as the per-Cell8 total still allows and no fewer than 0 |
| Spawning.PickStepSound | PraxisCreatureCollectorPlugin/Controllers/CreatureController.cs:93-111 | One step of the walk keeps the picks sound |
| Spawning.PickedSound | PraxisCreatureCollectorPlugin/Controllers/CreatureController.cs:87-116 | The walk only picks unoccupied cells, keeps the walkable, other and leftover picks disjoint, and respects both quotas |
| Spawning.ChosenCellsSound | PraxisCreatureCollectorPlugin/Controllers/CreatureController.cs:87-116 | The chosen cells are distinct cells of the list, none occupied, and the top-up never takes the total past the per-Cell8 count beyond the quotas |
| Spawning.EarlyStopSkipsWalkable | PraxisCreatureCollectorPlugin/Controllers/CreatureController.cs:110-111 | The early stop compares with the size of the walkable style list, so a walkable cell after an early stop is never reached |
| Spawning.PickedStops | PraxisCreatureCollectorPlugin/Controllers/CreatureController.cs:110-111 | Once the walk stops, the later cells change nothing |
| Spawning.PickCells | PraxisCreatureCollectorPlugin/Controllers/CreatureController.cs:87-112 | The loop over the shuffled cells yields the walk's picks |
| Spawning.FirstAt | PraxisCreatureCollectorPlugin/Controllers/CreatureController.cs:135 | The spawn replaced at a code is an existing spawn at that code, and there is none exactly when no spawn is there |
| Spawning.SpawnCells | PraxisCreatureCollectorPlugin/Controllers/CreatureController.cs:122-129 | Each chosen cell gets exactly one random spawn, in order |
| Spawning.SpawnPermanents | PraxisCreatureCollectorPlugin/Controllers/CreatureController.cs:131-147 | Fails exactly when a permanent creature has no specific cell, and then removes and adds nothing; otherwise each gets one spawn, and the removed spawns are exactly the first existing spawn at each chosen code |
| Spawning.RunSpawnProcess | PraxisCreatureCollectorPlugin/Controllers/CreatureController.cs:74-151 | The chosen cells get random spawns, then each distinct permanent creature gets one; the removed spawns are exactly the first existing spawn at each permanent creature's chosen code; an empty table with cells to fill, or a permanent creature with no cell, saves nothing |
| Spawning.Uncaught | PraxisCreatureCollectorPlugin/Controllers/CreatureController.cs:384 | A player is shown exactly the spawns whose uid is not among their recent catches |
| Spawning.GetWildCreatures | PraxisCreatureCollectorPlugin/Controllers/CreatureController.cs:354-403 | A cell at or below the respawn threshold is refilled before anything is shown; what is shown is the uncaught part of a cell above the threshold |
| Startup.FirstWithId | PraxisCreatureCollectorPlugin/Startup.cs:88 | The lookup finds an entry with the id, the first one when the list starts with it |
| Startup.BumpedVersion | PraxisCreatureCollectorPlugin/Startup.cs:103-112 | A missing version becomes 1, and any other goes up by exactly one |
| Startup.StoredEntriesKept | PraxisCreatureCollectorPlugin/Startup.cs:82-98 | Stored entries come through unchanged and in order, even when a default has drifted, and every default id is present afterwards |
| Startup.MergedAddsOnlyMissing | PraxisCreatureCollectorPlugin/Startup.cs:84-85 | Defaults are appended only for missing ids, so ids stay distinct and every entry is stored or a default |
| Startup.ByIdLookup | PraxisCreatureCollectorPlugin/Startup.cs:118 | The id map has exactly the catalog's ids, each mapped to its own entry |
| Startup.FilterMembers | PraxisCreatureCollectorPlugin/Startup.cs:117-121 | The derived lists (wanderers, passport rewards) hold exactly the entries that pass their test |
| Startup.BuildTableContents | PraxisCreatureCollectorPlugin/Startup.cs:123-148 | Every key's list is what it held before followed by each eligible creature repeated by its weight for that key, in catalog order |
| Startup.BuildTableKeys | PraxisCreatureCollectorPlugin/Startup.cs:123-148 | The built table keeps distinct keys and has a key exactly when it had one or an eligible creature names it |
| Startup.ContributionCount | PraxisCreatureCollectorPlugin/Startup.cs:123-148 | With distinct ids, an eligible creature appears under a key exactly its weight times, and an ineligible one not at all |
| Startup.OnlyEligibleContribute | PraxisCreatureCollectorPlugin/Startup.cs:123 | Hidden or non-wild creatures never enter a spawn table |
| Startup.AbsentIdNotContributed | PraxisCreatureCollectorPlugin/Startup.cs:123-148 | An id no creature carries never appears in a table |
| Startup.AppendSpawns | PraxisCreatureCollectorPlugin/Startup.cs:125-131 | The nested loops append one creature's weighted entries to the table |
| Startup.Reconcile | PraxisCreatureCollectorPlugin/Startup.cs:69-98 | The loop yields the merged catalog, and it asks for a bump exactly when storage was missing, of another size, or a default drifted |
| Startup.BuildSpawnTables | PraxisCreatureCollectorPlugin/Startup.cs:123-148 | The loops build the terrain, area and place tables from the catalog |
| Startup.StartupOutcome | PraxisCreatureCollectorPlugin/Startup.cs:69-148 | The reconciled catalog has distinct ids |
| Startup.CreatureRegistry.constructor | PraxisCreatureCollectorPlugin/Startup.cs:12 | Before start-up the registry holds only the store and is not initialised |
| Startup.CreatureRegistry.Startup | PraxisCreatureCollectorPlugin/Startup.cs:13-16 | Start-up does its work once: a second call changes nothing, and the first leaves the start-up outcome |
| Tasks.CheckSplitsBalance | PraxisCreatureCollectorPlugin/CommonHelpers.cs:270-273 | A check pays the whole periods and keeps less than one period, with no second lost or counted twice |
| Tasks.FirstUnfound | PraxisCreatureCollectorPlugin/CommonHelpers.cs:292 | A hint picks a creature the player lacks, and finds none exactly when every visible catalog creature is held |
| Tasks.UnassignedTaskUntouched | PraxisCreatureCollectorPlugin/CommonHelpers.cs:268 | An unassigned task, and everything else, is untouched by a check |
| Tasks.CloneBoostsOncePerReward | PraxisCreatureCollectorPlugin/CommonHelpers.cs:280-285 | A clone task boosts its creature once per result, changes no other record, and asks for the collection to be saved |
| Tasks.CloneOfMissingCreatureThrows | PraxisCreatureCollectorPlugin/CommonHelpers.cs:281 | A clone task whose creature is not held throws |
| Tasks.TokenTasksPay | PraxisCreatureCollectorPlugin/CommonHelpers.cs:286-303 | The ppt, tst and vortex tasks add exactly the results to their own token count and touch nothing else |
| Tasks.OnlyCloneSavesCreatures | PraxisCreatureCollectorPlugin/CommonHelpers.cs:290-295 | A task other than clone never asks for the collection to be saved |
| Tasks.HintAddsRecord | PraxisCreatureCollectorPlugin/CommonHelpers.cs:290-295 | A hint adds a hint-unlocked record for the first creature the player lacks |
| Tasks.RunTasksKeepsTasks | PraxisCreatureCollectorPlugin/CommonHelpers.cs:266-307 | The loop keeps every task in place under its key; a task changes only in balance and check time, and only when assigned |
| Tasks.NoCloneNoCreatureSave | PraxisCreatureCollectorPlugin/CommonHelpers.cs:266-307 | Without a clone task the collection is never saved, whatever the hints add |
| Tasks.RunTasksNeverLowersTokens | PraxisCreatureCollectorPlugin/CommonHelpers.cs:266-307 | Due tasks never lower a token count and never touch coins |
| Tasks.CheckTaskNeverLowersTokens | PraxisCreatureCollectorPlugin/CommonHelpers.cs:266-305 | One due task never lowers a token count and never touches coins |
| Tasks.CheckImprovementTasks | PraxisCreatureCollectorPlugin/CommonHelpers.cs:254-320 | It fails exactly when a task throws, and then saves nothing; otherwise the tasks are saved, and the account and collection only when a result asked for it |
| Tasks.CheckNextTask | PraxisCreatureCollectorPlugin/CommonHelpers.cs:266-305 | One loop iteration yields that task's check |
| Tasks.RunTasksStopsAtFailure | PraxisCreatureCollectorPlugin/CommonHelpers.cs:266-307 | Once a task throws, the whole loop has thrown |
| Tasks.Assigned | PraxisCreatureCollectorPlugin/Controllers/ImproveController.cs:34-35 | An assignment names the new creature and restarts the check time, keeping the balance |
| Tasks.Cancelled | PraxisCreatureCollectorPlugin/Controllers/ImproveController.cs:71-73 | A cancel banks the seconds since the last check and leaves no creature on the task |
| Tasks.IdleTimeNotBanked | PraxisCreatureCollectorPlugin/Controllers/ImproveController.cs:34-35 | A cancel, an assignment and a check pay for the balance and the two working spans only, never the idle time between |
| Tasks.AssignCreature | PraxisCreatureCollectorPlugin/Controllers/ImproveController.cs:18-40 | A missing creature, task or previous creature throws with nothing saved; otherwise the creature is put on the task and the previous one released, so re-assigning the same creature leaves it released; no other record changes |
| Tasks.CancelTask | PraxisCreatureCollectorPlugin/Controllers/ImproveController.cs:57-78 | A missing task or creature throws; otherwise the task's creature is released, the elapsed time banked and the assignment cleared |
| Tasks.OnlyNamedTaskChanges | PraxisCreatureCollectorPlugin/Controllers/ImproveController.cs:28-38 | Only the named task changes; every other task reads back as before |
| SpawnTables.TimeShift | PraxisCreatureCollectorPlugin/CommonHelpers.cs:409 | The hour shift lies between -10 and 10, and is -10 exactly when the code's second character is not in the alphabet |
| SpawnTables.NoShiftInBandF | PraxisCreatureCollectorPlugin/CommonHelpers.cs:409-410 | Cells whose second character is 'F', index 9 of the alphabet, keep the real time |
| SpawnTables.ShiftedTimeBounds | PraxisCreatureCollectorPlugin/CommonHelpers.cs:409-410 | Other cells are shifted by a whole number of steps, at most 10 either way |
| SpawnTables.Spawnable | PraxisCreatureCollectorPlugin/CommonHelpers.cs:421 | The filtered list holds only creatures that may spawn at the shifted time, and is no longer than the list |
| SpawnTables.TerrainLists | PraxisCreatureCollectorPlugin/CommonHelpers.cs:418-421 | Only terrains present get a list, and each holds only creatures spawnable now |
| SpawnTables.BuildTerrainLists | PraxisCreatureCollectorPlugin/CommonHelpers.cs:418-421 | The loop yields the per-terrain lists |
| SpawnTables.AddTerrainLists | PraxisCreatureCollectorPlugin/CommonHelpers.cs:423-425 | The loop appends each present terrain's list to the table |
| SpawnTables.AddAreaLists | PraxisCreatureCollectorPlugin/CommonHelpers.cs:428-434 | The loop appends the list of every area prefixing the code |
| SpawnTables.AddPlaceLists | PraxisCreatureCollectorPlugin/CommonHelpers.cs:437-441 | The loop appends each place's list |
| SpawnTables.Copies | PraxisCreatureCollectorPlugin/CommonHelpers.cs:451-456 | n copies of a list are n times as long and hold only its members |
| SpawnTables.AddNest | PraxisCreatureCollectorPlugin/CommonHelpers.cs:451-456 | The nest step appends the nest's copies |
| SpawnTables.WanderPart | PraxisCreatureCollectorPlugin/CommonHelpers.cs:459-469 | The wanderer entries are only wanderers |
| SpawnTables.AddWanderers | PraxisCreatureCollectorPlugin/CommonHelpers.cs:459-469 | The loop appends each allowed wanderer's entries |
| SpawnTables.GenerateSpawnTable | PraxisCreatureCollectorPlugin/CommonHelpers.cs:404-472 | The method yields the table: terrains, then areas, places, the nest and the wanderers |
| SpawnTables.SpawnTableSound | PraxisCreatureCollectorPlugin/CommonHelpers.cs:409-441 | Everything in the table may spawn at the shifted time, except wanderers |
| SpawnTables.ExtraCellOfPresentTerrain | PraxisCreatureCollectorPlugin/CommonHelpers.cs:415 | One more Cell10 of a terrain already present leaves the table unchanged |
| SpawnTables.GlobalAreaEverywhere | PraxisCreatureCollectorPlugin/CommonHelpers.cs:428-434 | The global area "" prefixes every code, so its spawnable creatures are in every table |
| SpawnTables.WandererWeight | PraxisCreatureCollectorPlugin/CommonHelpers.cs:461-468 | With distinct wanderers, an allowed wanderer appears exactly its entry count times, and one not allowed not at all |
| SpawnTables.NoNestInWeeks26And52 | PraxisCreatureCollectorPlugin/CommonHelpers.cs:447 | No nest is ever active in weeks 26 and 52 |
| SpawnTables.NestWeight | PraxisCreatureCollectorPlugin/CommonHelpers.cs:449-456 | An active, enabled nest repeats its terrain's list once per Cell10 of the nest; a disabled nest adds nothing |

## Left out

- Geometry: area scores, Cover unions, Compete team areas, map tiles and the play-boundary filter use NetTopologySuite. Bounds checks enter as an `inBounds` flag; location-code decoding enters as a function parameter.
- Floating point: the `LevelStats` doubles are integers in hundredths. `tierRating` (Creature.cs:59) is computed from them: the three per-level stats are summed, the sum is truncated to whole points, and the result is divided by 5 in integers (`Creatures.TierRating`). A double's rounding error in that sum or in the level arithmetic is not modelled.
- Concurrency: lock registries and `PerformWithLock`. Each endpoint is one atomic step.
- Persistence, encryption, caches, authentication and HTTP: the model works on loaded values. Also left out are `DeleteAccount`, `ChangePassword`, the DB queries of `SuggestProxyPlayPoints`, and the shop-list cache and stored-list lookup of `GetShopEntries` (only making a new list is modelled).
- Integer widths: all integers are unbounded here. This covers C# `long` arithmetic and also the 32-bit `int` fields of `CompeteModeEntry` and `PlayerCompeteEntry`. It also covers the `(int)` cast of a pool's scouting in the Compete clean-up. Only the 32-bit seed sum of `SpawnWander` wraps.
- Nondeterminism: `Random`, `Guid`, the clock and `ISOWeek` are parameters (draw values, `now`, `week`). `GetDeterministicHashCode` enters as `codeHash`, and seeded `Random.Next` as a function with its range assumed.
- Catching.CoinGrant: the stored two-second lockout is a `locked` flag, because its config value is absent from the configuration source.
- Spawning.GetWildCreatures: the repeated respawn is bounded by a `fuel` count, so a cell that never rises above the threshold answers nothing rather than looping forever.
- The terrain search and place lookup around a cell (`AreaTypeInfo.SearchArea`, place filtering) are inputs. Spawn tables hold creature ids, resolved through the id map.
- `Random.Next` with a negative bound is not modelled; draws are within range.
- Spawning.ValidSeconds: a configuration whose `CreatureDurationMin` exceeds `CreatureDurationMax` makes `Random.Next` throw in the source; the model draws the minimum there.
- Start-up: two catalog creatures with the same name make the name dictionary throw; the model has no name dictionary.
- Read-only endpoints (`GetTutorialViewed`, `GetPlaceInfo`, leaderboards, `PossibleSpawns`), admin endpoints and their views are not modelled.
- Start-up: the Styles update loop, admin dump logging and the catalog data in `MakeCreatures` are not modelled. Only the catalog reconciliation and the derived tables and lists are.
- Display names and `ToString` in responses are not modelled, apart from the creature name queued by a Control knock-out.
- Scoring.Scores and Scoring.TeamShares: their own contracts state only shape and sign. The meaning is in SharesConserved, ScoresTotal, LoneOccupantScores and AbsentTeamScoresZero.
- Startup.StartupOutcome: its own contract states only distinct ids. The catalog and table contents are in Reconcile, BuildTableContents and the other Startup lemmas.

## Findings

| source | as written | input that shows it | evidently intended | confidence | as-written member | corrected member |
|---|---|---|---|---|---|---|
| PraxisCreatureCollectorPlugin/Controllers/CreatureController.cs:531-533, 570-575 | The collection and recent list start empty and are loaded only when the area has more spawns than `CreatureCountToRespawn`. The save test `actualCaughtTotal >= vortexMin` still passes when the minimum is 0 or less and nothing was loaded, so empty data is saved over the player's collection without spending a token. | `CreatureCountToRespawn` = 0, no spawns in the 3x3 area, vortex tokens > 0, a non-empty collection | Save only when the spawns were processed and a token was spent | not executed | Catching.VortexAsWrittenWipes | Catching.VortexKeepsCollection |
| PraxisCreatureCollectorPlugin/CommonHelpers.cs:517-519, 546 | The team-swap clean-up walks the stored Compete notes with no null check. Account creation never stores notes, and every swap stores them already expired. So a player with no notes stored throws before the account is saved. | A player on team 1 with two swap tokens who has just swapped, or who has never placed in Compete, asks for team 2 | Read missing notes as empty, as `UpdatePlacedCreature` does at CompeteController.cs:134-135 | not executed | Accounts.SecondSwapRefused | Accounts.NullSafeSwapSucceeds |

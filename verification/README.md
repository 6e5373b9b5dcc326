# Verified models of the workflow platform

A Dafny project that models the stateful core of the platform and proves what it keeps. `dafny verify dfyconfig.toml`
checks all of it.

| files | what they model |
|---|---|
| `RewardModel`, `RewardStore`, `RewardEngine`, `RewardRuns`, `RewardLog` | the reward ledger, the settlement log and the per-agent totals, with a crash possible between any two durable writes |
| `ManagedSection`, `ManagedSectionLines` | replacing a managed section of a markdown document |
| `ExtensionAssignments`, `ExtensionDigest`, `ExtensionDisk`, `ExtensionScripts`, `ExtensionInvariant`, `ExtensionReconcile`, `ExtensionReadable`, `ExtensionOutcomes`, `ExtensionDrift`, `ExtensionStages`, `ExtensionCatalog` | the agent-extension catalog: manifest, assignments, runtime copies, receipts, authored documents and launch stages, with every file-system step a possible crash point |
| `PipelineSupervisor`, `PipelineSupervisorLaws`, `PipelineSupervisorAnswers`, `PipelineSupervisorStops` | spawn slots, exits and stops of pipeline children in every interleaving |
| `GuardrailReceipts` | exclusive-link claiming of receipt names, and the policy result cache |
| `AgentWait` | the wait for a child process: timers, abort, signals and output tails |
| `RootScan`, `PorcelainStatus` | the skip-ahead root scan, and reading git's NUL-separated status |
| `WorkspacePreview`, `DeepFocus`, `DeepFocusLaws`, `DeepFocusValues`, `DeepFocusPlaces` | the workspace folder delta, and deep-focus selections with their derived roots |
| `Discovery` | the breadth-first search for repositories and for folders that lack git |
| `PackWriter`, `PackWriterObjects` | the guarded read-modify-write of the repository manifest, over aliased objects |

How it is built. What the platform does by changing state step by step is a method over a class, a loop or a disk, and
its contract ties the new state to a specification function; the lemmas then speak about runs of that function. Durable
operations are lists of disk states (rewards) or of file-system steps (extensions): `Turn` and `Step` say how many of
them landed, so a run of turns is a run with crashes. Concurrent protocols are functions from a world and an event to a
world, one event for each synchronous stretch of the code, and a run is any sequence of events. Automatic induction is
switched off wherever it would apply; inductive proofs are spelled out.

What the proofs turned up about the code:

- Pay is exact only for multipliers of which 500 times is whole (`RewardRuns.ExactPayIffWhole`). Effective rewards are
  multiples of 500, so whole hundredths are always exact.
- Each crash may leave one more pending success than the streak threshold suggests, and some run does
  (`RewardRuns.PendingBound`, `RewardRuns.PendingBoundIsTight`).
- A crash between the first two writes of a settlement leaves tasks rewarded that no settlement logs
  (`RewardLog.MarkedButUnlogged`); that is the only way (`RewardLog.RewardedIsLoggedIff`).
- A completed add can make the manifest unreadable: materialising accepts a subpath such as `a/../b`, which stays
  inside the source, and the manifest reader refuses it; then no catalog operation works until the file is edited by
  hand (`ExtensionReadable.ParentSubpathBreaks`). Over whole runs the manifest stays readable exactly when no such add
  completes, and no plugin whose name the provider reports blank is added or reseeded
  (`ExtensionReadable.RunReadableIff`).
- The digest of a tree is fed path, NUL and bytes without a length, so different trees can share one: every tree of two
  files or more has such a twin, and a reconciliation leaves it in place (`ExtensionDrift.SomeDriftStays`; exactly when
  in `ExtensionDigest.DigestIdentifiesIff`). Edits of text files under their names are always noticed
  (`ExtensionDigest.SameNamesAreToldApart`).
- A file may list an agent twice; both entries are saved and read back, and a launch uses the first one only
  (`ExtensionAssignments.SecondEntryIsIgnored`, `ExtensionAssignments.LaunchesWithAllIff`).
- A git entry whose resolved commit is empty is materialised again by every reconciliation
  (`ExtensionReconcile.EmptyCommitNeverHeals`).
- An 'error' event on a child that is still alive is taken for its exit, and a second live child can be started for the
  same task (`SupervisorRuns.ErrorWhileLiveBreaksIt`). The exact condition is in `SupervisorLaws.OneLivePerTaskIff`.
- A wait on a child that had already exited at entry reports the child's own code even when aborted
  (`AgentWait.AbortedMeans130`), and with an idle timeout may signal after settling (`AgentWait.SilenceAfterSettling`).
- The policy cache, when full, drops its oldest entry even when it only updates a key it already has
  (`GuardrailReceipts.PolicyResultCache.Set`).
- The root scan skips a whole match at a time and is exact only for roots without a boundary overlap
  (`RootScan.ScanExactIff`); roots of path characters have none.
- The parent directory of a selected file is taken of its path normalised once more, so a file whose last name is blank
  opens a wider directory (`DeepFocusPlaces.BlankNameOpensTheRepository`, `DeepFocusPlaces.FileParentIff`).
- Replacing a managed section deletes the next section when its heading line follows directly, and overwrites the text
  of a deeper heading such as `### A` when asked for `## A` (`SectionLines.AdjacentSectionIsDeleted`,
  `SectionLines.DeeperSectionIsOverwritten`). `SectionLines.DocumentedIff` says exactly when it does what is documented.
- Replacing a managed section loses idempotence for a body that starts a heading or a document that ends in the bare
  heading (`ManagedSection.ReplaceTwice`).

Decisions a reader should know:

- Rewards: multipliers are non-negative rationals, fixed in a run; rounding is half to even on exact rationals. Ids
  drawn at random are fresh. A crash ends an operation after any number of its writes; each write is atomic.
- Extensions: the hash itself has no collisions, and paths and file bytes are characters of one alphabet. Removing a
  directory is one step; filling a directory or copying one passes through an arbitrary torn state first. A skill's
  front matter and a provider's summary of a plugin are functions of the tree. Best-effort removals succeed. Which other
  steps throw is a parameter of each operation, as are the process id, the time and what the sources hold; a source may
  change at any time. A receipt that cannot be read is modelled as one filed under another name.
- Supervisor: a fork happens within the synchronous stretch that claims the slot, so the child exists from that event
  on. A stop's own removal of the map entry is one step with the exit handler: the handler was registered on the exit
  promise first, so both run in the same turn, before a spawn started after it can be tracked. A pid is never reused.
- Wait: time is a number that events carry; armed timers fire at or after their deadline. Platforms without process
  groups only.
- Discovery: a tree is a finite value without symbolic links, and an unreadable directory lists as empty. Results are
  compared as sets of paths in scan order.
- Strings are sequences of characters; orders on them compare code points.

## Model

| member | source | states |
|---|---|---|
| RewardModel.RoundHalfEvenIsTheRounding | src/backend/mcp/reinforcement/rewards.py:43-52 | the amount paid is the nearest integer to sum times multiplier, and the even one of two nearest: a number is the rounding if and only if it satisfies that description |
| RewardModel.RoundExact | src/backend/mcp/reinforcement/rewards.py:43-52 | rounding loses nothing exactly when the product is already whole |
| RewardStore.ReinforcementStore.AppendTaskEntryHeld | src/backend/mcp/reinforcement/persistence.py:166-172 | one durable write: the entry goes to the end of the ledger |
| RewardStore.ReinforcementStore.MarkTasksRewardedHeld | src/backend/mcp/reinforcement/persistence.py:174-189 | one durable write: exactly the named tasks become rewarded under the settlement's id |
| RewardStore.ReinforcementStore.AppendSettlement | src/backend/mcp/reinforcement/persistence.py:275-283 | one durable write: the record goes to the end of the log |
| RewardStore.ReinforcementStore.BulkUpdateAgentRewards | src/backend/mcp/reinforcement/persistence.py:237-257 | the in-place loop with its shrinking table of updates is the upsert: replaced in place, the rest appended |
| RewardRuns.UpsertProperties | src/backend/mcp/reinforcement/persistence.py:237-257 | that upsert keeps agent ids distinct, installs every update and keeps every record without one |
| RewardRuns.PayoutAddsShares | src/backend/mcp/reinforcement/engine.py:135-161 | a pay-out adds each agent's share to that agent's lifetime total and changes nobody else's |
| RewardRuns.PayoutRecords | src/backend/mcp/reinforcement/engine.py:135-161 | after a pay-out every agent of the roster has one record with the roster's role and multiplier, its share added, and its counters kept |
| RewardRuns.StrangersKeepRecords | src/backend/mcp/reinforcement/engine.py:135-161 | who is not on the roster keeps the record it had |
| RewardEngine.SettleTasks | src/backend/mcp/reinforcement/rewards.py:55-74 | the loop over the roster builds the settlement of the last ten pending entries, in order, with each agent's share the rounding of its multiplier times their worth |
| RewardEngine.ReinforcementEngine.IsDuplicate | src/backend/mcp/reinforcement/validation.py:30-40 | true exactly when some ledger entry has the task's id |
| RewardEngine.ReinforcementEngine.UpdateAgentRewards | src/backend/mcp/reinforcement/engine.py:135-161 | the loop over the table of shares and the bulk update leave the upsert of the paid records |
| RewardEngine.ReinforcementEngine.ExecuteSettlementHeld | src/backend/mcp/reinforcement/engine.py:121-133 | exactly three durable writes, ledger first, then log, then totals, each leaving the disk its specification says |
| RewardEngine.ReinforcementEngine.MaybeTriggerSettlementHeld | src/backend/mcp/reinforcement/engine.py:105-110 | settles exactly when ten successes are pending, and writes nothing otherwise |
| RewardEngine.ReinforcementEngine.RecordTaskCompletion | src/backend/mcp/reinforcement/engine.py:40-110 | the disks passed through, in order; which input is rejected or a duplicate; the entry recorded: as reported, worth 1000, 2000 or 3000 by its difficulty, and half of that for a child; and that it settles exactly when it is the tenth pending success |
| RewardEngine.ReinforcementEngine.TriggerSettlement | src/backend/mcp/reinforcement/engine.py:112-119 | nothing is written when nothing is pending; otherwise one settlement |
| RewardEngine.ReinforcementEngine.RecordFeedback | src/backend/mcp/reinforcement/engine.py:170-211 | the event is noted first; only five stars settle what is pending |
| RewardRuns.MarkSuffix | src/backend/mcp/reinforcement/persistence.py:174-189 | marking a suffix of the pending tasks leaves exactly the others pending and moves exactly the chosen rewards to the rewarded total |
| RewardRuns.EveryWriteKeepsInv | src/backend/mcp/reinforcement/engine.py:121-133 | every disk an operation passes through keeps ids distinct and every logged task a success rewarded under its settlement: a crash may fall between any two writes |
| RewardRuns.RunKeepsInv | src/backend/mcp/reinforcement/engine.py:121-133 | the same after any run of completions, settlements, feedback and crashes |
| RewardRuns.AtMostOncePerTask | src/backend/mcp/reinforcement/engine.py:121-133 | in every run with crashes no task is in two logged settlements, and it is rewarded in the ledger under the one it is in |
| RewardRuns.Conservation | src/backend/mcp/reinforcement/engine.py:130-161 | lifetime reward plus the pay-outs lost to crashes is the sum of the agent's logged amounts, so it never exceeds that sum |
| RewardRuns.PendingBound | src/backend/mcp/reinforcement/engine.py:65-110 | fewer than ten successes stay pending, plus one for each crash |
| RewardRuns.PendingBoundIsTight | src/backend/mcp/reinforcement/engine.py:65-110 | for every number of crashes some run with exactly that many leaves nine pending successes and one more for each crash |
| RewardRuns.SettlementTakesAllPending | src/backend/mcp/reinforcement/rewards.py:62-72 | without crashes the last-ten cap drops nothing: each settlement takes every pending success, in order, and leaves the rest of the ledger alone |
| RewardRuns.RoundingBound | src/backend/mcp/reinforcement/rewards.py:36-74 | without crashes lifetime reward equals the log and differs from multiplier times rewarded work by at most half a unit per settlement, not at all when 500 times the multiplier is whole |
| RewardRuns.ExactPayIffWhole | src/backend/mcp/reinforcement/rewards.py:36-74 | pay is exact in every crash-free run if and only if 500 times the multiplier is whole |
| RewardLog.RewardedIsLoggedIff | src/backend/mcp/reinforcement/engine.py:121-133 | in every run with crashes a rewarded task is in the settlement log under the id its entry carries, and in no other record, if and only if that settlement was not cut between marking and logging |
| RewardLog.AllLoggedIff | src/backend/mcp/reinforcement/engine.py:121-133 | the log accounts for every rewarded task if and only if no settlement of the run was cut there |
| RewardLog.CrashFreeLogsAll | src/backend/mcp/reinforcement/engine.py:121-133 | a run without crashes has no such settlement |
| RewardLog.MarkedButUnlogged | src/backend/mcp/reinforcement/engine.py:121-133 | a run with one crash that leaves a rewarded task in no record |
| ManagedSection.ReplaceExisting | src/backend/mcp/reinforcement/qmd_writer.py:128-150 | writing keeps the text through the first marker and from the end of the section found, and the section read back is the text written for a clean body; that end is the next heading line for every document but those where a heading line follows the marker at once |
| ManagedSection.EndsBeforeHeadingLine | src/backend/mcp/reinforcement/qmd_writer.py:144-150 | in terms of lines: no heading line lies strictly inside the section found, and the one behind it is the next, if and only if no heading line follows the marker at once |
| SectionLines.DocumentedIff | src/backend/mcp/reinforcement/qmd_writer.py:128-150 | the code does what its documentation says, replace the section from its heading line to the next heading line or append it, for every body if and only if the first marker begins a line, no heading line follows it at once, and without a marker the last line is not the bare heading |
| SectionLines.OtherSectionsKeptIff | src/backend/mcp/reinforcement/qmd_writer.py:128-150 | on such a document the sections before and behind keep their text and place and none is added, if and only if the body starts no heading |
| SectionLines.AdjacentSectionIsDeleted | src/backend/mcp/reinforcement/qmd_writer.py:144-150 | an input on which the next section is deleted, beside what the documentation promises for it |
| SectionLines.DeeperSectionIsOverwritten | src/backend/mcp/reinforcement/qmd_writer.py:138-143 | an input on which the text of a level-three heading is overwritten, beside what the documentation promises for it |
| ManagedSection.ReplaceMissing | src/backend/mcp/reinforcement/qmd_writer.py:128-150 | a missing section is appended, and a reader then finds it |
| ManagedSection.ReplaceUnterminated | src/backend/mcp/reinforcement/qmd_writer.py:128-150 | after a bare heading at the end of a document the append terminates that heading, so the section a reader finds is the empty one in front of the new text |
| ManagedSection.WriteThenRead | src/backend/mcp/reinforcement/qmd_writer.py:128-150 | what was written is read back if and only if the body starts no heading and the document does not end in the bare heading |
| ManagedSection.ReplaceTwice | src/backend/mcp/reinforcement/qmd_writer.py:128-150 | replacing twice equals the second replacement alone, if and only if the same condition holds |
| ExtensionDigest.ComputeSourceDigest | src/backend/platform/agent-extensions/materialize.ts:67-99 | the loop feeds each file's path, a NUL and its bytes, in path order |
| ExtensionDigest.DigestIdentifiesIff | src/backend/platform/agent-extensions/materialize.ts:86-98 | no other tree feeds the digest the same bytes if and only if the tree is empty or is one file whose bytes hold no later path in front of a NUL |
| ExtensionDigest.SameNamesAreToldApart | src/backend/platform/agent-extensions/materialize.ts:86-98 | text files and whatever is written under the same names feed different bytes unless they are equal |
| ExtensionDigest.SecondFileIsSwallowed | src/backend/platform/agent-extensions/materialize.ts:88-93 | two files that feed the same bytes as one |
| ExtensionDigest.RenamedFileIsConfused | src/backend/platform/agent-extensions/materialize.ts:88-93 | two pairs of text files with different names that feed the same bytes |
| ExtensionDrift.DriftIsNoticedIff | src/backend/platform/agent-extensions/reconcile.ts:64-69 | every change of a healthy copy makes its entry unhealthy if and only if its digest belongs to that tree alone |
| ExtensionDrift.TextEditIsRepaired | src/backend/platform/agent-extensions/reconcile.ts:64-75 | an edit of text files under their names is noticed, and one reconciliation whose sources materialise repairs it |
| ExtensionDrift.SomeDriftStays | src/backend/platform/agent-extensions/reconcile.ts:64-90 | in a healthy catalog, for every copy of two files or more some other tree in its place is left there by every reconciliation |
| ExtensionAssignments.SavedIsLoaded | src/backend/platform/agent-extensions/assignment.ts:47-133 | reading the written assignment file back gives what was written |
| ExtensionAssignments.NormalizeAssigns | src/backend/platform/agent-extensions/assignment.ts:69-114 | normalising keeps exactly the ids listed for agents of the roster |
| ExtensionAssignments.NormalizeHolds | src/backend/platform/agent-extensions/assignment.ts:69-127 | written or read back, each agent of the roster has exactly the ids its entries give it, and nobody else any |
| ExtensionAssignments.LaunchesWithAllIff | src/backend/platform/agent-extensions/stage.ts:212-214 | a launch uses the first entry of the agent only: it gets everything it was given if and only if that entry repeats all later ones |
| ExtensionAssignments.SecondEntryIsIgnored | src/backend/platform/agent-extensions/stage.ts:212-214 | a file that is saved and read back as it is, and of which a launch ignores the second entry |
| ExtensionAssignments.SortSorts | src/backend/platform/agent-extensions/assignment.ts:97-114 | ids are written in order |
| ExtensionAssignments.SortPermutes | src/backend/platform/agent-extensions/assignment.ts:97-114 | ordering ids loses and invents none |
| ExtensionAssignments.RemovedIff | src/backend/platform/agent-extensions/assignment.ts:244-254 | after a removal the id is in no agent's list and every other id in the same lists as before |
| ExtensionDisk.RuntimeFrame | src/backend/platform/agent-extensions/materialize.ts:196-209 | steps on one extension's copy, receipt and temporary tree leave manifest, assignments, stages, documents and every other extension's files alone |
| ExtensionDisk.AuthoredDirsAreApart | src/backend/platform/agent-extensions/index.ts:101-137 | removing one extension's authored directory cannot remove another's document |
| ExtensionInvariant.MaterializeEffect | src/backend/platform/agent-extensions/materialize.ts:211-299 | a materialisation that succeeds leaves the new copy, a receipt for it, no temporary tree, and everything else as it was |
| ExtensionInvariant.AddShape | src/backend/platform/agent-extensions/index.ts:220-375 | before its last step an add touches only files of its own id; that last step is the manifest write |
| ExtensionInvariant.AddKeepsInv | src/backend/platform/agent-extensions/index.ts:220-375 | at every cut of an add, assigned ids are enabled manifest entries and attached skills have an inspectable document |
| ExtensionInvariant.ReseedKeepsInv | src/backend/platform/agent-extensions/index.ts:377-470 | the same at every cut of a reseed |
| ExtensionInvariant.DeleteKeepsInv | src/backend/platform/agent-extensions/index.ts:495-531 | the same at every cut of a delete, because assignments are cleared first and the manifest is written last |
| ExtensionInvariant.SaveKeepsInv | src/backend/platform/agent-extensions/assignment.ts:170-226 | the same at every cut of a save, because only enabled entries are accepted |
| ExtensionInvariant.SavedAsAsked | src/backend/platform/agent-extensions/assignment.ts:162-226 | after a save, loading the file gives every agent exactly the extensions it was saved with |
| ExtensionInvariant.OpKeepsInv | src/backend/platform/agent-extensions/index.ts:220-540 | the same at every cut of every operation, staging and reconciliation included |
| ExtensionInvariant.EmptyDiskInv | src/backend/platform/agent-extensions/sourceManifest.ts:148-158 | a platform that has written nothing yet is a good start |
| ExtensionInvariant.RunKeepsInv | src/backend/platform/agent-extensions/index.ts:220-540 | the same after every run of operations and crashes |
| ExtensionInvariant.RunKeepsAssignments | src/backend/platform/agent-extensions/index.ts:495-520 | through any run with crashes in which nobody saves assignments or deletes with consent, each agent keeps exactly what it was assigned, and each of those stays an enabled entry |
| ExtensionInvariant.DeletedIsGone | src/backend/platform/agent-extensions/index.ts:472-540 | after a delete the id is assigned to nobody and has no entry, copy or receipt; every other extension is as it was and stays with exactly the agents that had it |
| ExtensionInvariant.FailedAddIsInert | src/backend/platform/agent-extensions/index.ts:120-137 | a failed add leaves manifest, assignments, stages and all other extensions' files unchanged, and no copy, receipt or document of its own |
| ExtensionReconcile.MaterializedIsHealthyIff | src/backend/platform/agent-extensions/reconcile.ts:41-47 | a successful materialisation makes the entry healthy if and only if it is not a git entry whose commit came back empty |
| ExtensionReconcile.FailedFetchKeepsCopy | src/backend/platform/agent-extensions/materialize.ts:230-298 | a source that cannot be fetched or does not pass inspection leaves the copy and receipt as they were, at every cut |
| ExtensionReconcile.CopyIsNeverTorn | src/backend/platform/agent-extensions/materialize.ts:195-299 | at every cut of a materialisation the copy is the old one, absent, or the whole inspected tree, and a new receipt is never without its copy |
| ExtensionReconcile.CountsAreIndependent | src/backend/platform/agent-extensions/reconcile.ts:130-136 | the counts are what each entry would count alone on the starting disk, whatever the order |
| ExtensionOutcomes.ReconcileCounts | src/backend/platform/agent-extensions/reconcile.ts:41-154 | materialised are the unhealthy entries without a copy that can be had, repaired those with one, unavailable the rest |
| ExtensionOutcomes.HealthyIff | src/backend/platform/agent-extensions/reconcile.ts:41-69 | an entry is healthy if and only if its copy and receipt are, field by field, what some materialisation of it leaves |
| ExtensionOutcomes.MaterializeSucceedsIff | src/backend/platform/agent-extensions/materialize.ts:217-299 | a materialisation succeeds if and only if the provider is the entry's, the source can be had and passes inspection, and nothing throws |
| ExtensionOutcomes.MaterializeLeaves | src/backend/platform/agent-extensions/materialize.ts:217-385 | the obtained tree as the copy and every field of its receipt, import and reseed time included |
| ExtensionOutcomes.InspectSays | src/backend/platform/agent-extensions/metadata.ts:27-76 | the name and description an inspection reports, and when it refuses |
| ExtensionOutcomes.ReadableIff | src/backend/platform/agent-extensions/sourceManifest.ts:15-158 | the manifest reader accepts exactly distinct, well-formed, described entries of the provider whose source paths are neither absolute nor climb up |
| ExtensionOutcomes.AddSucceedsIff | src/backend/platform/agent-extensions/index.ts:220-375 | an add succeeds if and only if the request is acceptable, what it offers passes inspection, and nothing throws |
| ExtensionOutcomes.AddLeaves | src/backend/platform/agent-extensions/index.ts:262-333 | exactly one new entry, enabled and with the fields requested, what was offered as its copy, and a complete receipt |
| ExtensionOutcomes.ReseedSucceedsIff | src/backend/platform/agent-extensions/index.ts:377-470 | when a reseed succeeds |
| ExtensionOutcomes.ReseedLeaves | src/backend/platform/agent-extensions/index.ts:377-470 | a reseed renews that entry's description, copy and receipt, and no other field or entry of the manifest |
| ExtensionOutcomes.DeleteSucceedsIff | src/backend/platform/agent-extensions/index.ts:472-540 | a delete succeeds if and only if the id has an entry, nobody has it assigned unless that may be undone, and nothing throws |
| ExtensionOutcomes.SaveSucceedsIff | src/backend/platform/agent-extensions/assignment.ts:162-205 | a save succeeds if and only if only agents of the roster and enabled entries are named, and nothing throws |
| ExtensionOutcomes.StageSucceedsIff | src/backend/platform/agent-extensions/stage.ts:191-358 | staging succeeds if and only if the launch id is well-formed and nothing is assigned, or every assigned id is an enabled entry with a copy and nothing throws |
| ExtensionOutcomes.CleanupLeaves | src/backend/platform/agent-extensions/stage.ts:360-397 | cleaning up removes that stage and nothing else |
| ExtensionReconcile.SweepHeals | src/backend/platform/agent-extensions/reconcile.ts:28-136 | every entry that was healthy or whose source materialises is healthy after the loop |
| ExtensionReconcile.HealthyIsQuiet | src/backend/platform/agent-extensions/reconcile.ts:28-90 | a healthy catalog is left alone and counts 0/0/0, whatever the sources now hold |
| ExtensionReconcile.EmptyCommitNeverHeals | src/backend/platform/agent-extensions/reconcile.ts:28-90 | a git entry whose commit comes back empty, once unhealthy, is materialised and counted again by every one of any number of reconciliations |
| ExtensionReconcile.ReconcileHeals | src/backend/platform/agent-extensions/reconcile.ts:28-154 | from any disk with a readable manifest: all entries become healthy, the counts are the unhealthy ones, manifest, assignments, documents and stages are untouched, and the next reconciliation does nothing |
| ExtensionReconcile.ReconcileLeavesStrangers | src/backend/platform/agent-extensions/reconcile.ts:92-154 | files of ids that are not in the manifest are untouched |
| ExtensionReconcile.AttachedAlwaysMends | src/backend/platform/agent-extensions/materialize.ts:244-257 | in every reachable state a directly attached skill can be repaired without any outside source |
| ExtensionReadable.CrashesAreRepaired | src/backend/platform/agent-extensions/reconcile.ts:28-154 | after any run with crashes from a good state whose adds ask for sources the reader accepts, one reconciliation whose outside sources materialise leaves every entry, hence every assigned one, healthy, the catalog untouched, and nothing for the next one |
| ExtensionReadable.RepairedUnlessBroken | src/backend/platform/agent-extensions/reconcile.ts:28-154 | the same for every run that completes no add or reseed that makes the manifest unreadable |
| ExtensionReconcile.AddedIsHealthy | src/backend/platform/agent-extensions/index.ts:262-333 | a completed add enters the extension, enabled, with its copy and metadata, and touches no other extension |
| ExtensionReconcile.AddThenDelete | src/backend/platform/agent-extensions/index.ts:220-540 | adding and then deleting restores manifest, assignments and every other extension |
| ExtensionReconcile.ReseededKeepsIdentity | src/backend/platform/agent-extensions/materialize.ts:301-398 | a completed reseed keeps identity, enabled flag and first import time, and renews copy, digest and metadata |
| ExtensionReadable.InspectedSaysSomething | src/backend/platform/agent-extensions/metadata.ts:30-90 | inspection always finds a description, and a name unless the provider reports a plugin without one |
| ExtensionReadable.AddKeepsReadableIff | src/backend/platform/agent-extensions/sourceManifest.ts:15-68 | a completed add keeps the manifest readable if and only if its subpath is relative and has no parent component, and the tree fetched is not a plugin with a blank name |
| ExtensionReadable.ReseedKeepsReadableIff | src/backend/platform/agent-extensions/index.ts:432-445 | a completed reseed keeps the manifest readable if and only if the tree fetched is not a plugin with a blank name |
| ExtensionReadable.TurnReadableIff | src/backend/platform/agent-extensions/sourceManifest.ts:112-158 | one operation, complete or cut, keeps a readable manifest readable if and only if it is not such an add or reseed that completes; an unreadable manifest stays unreadable |
| ExtensionReadable.RunReadableIff | src/backend/platform/agent-extensions/sourceManifest.ts:112-158 | after any run with crashes the manifest is readable if and only if it was at the start and no turn completed such an add or reseed |
| ExtensionReadable.RunKeepsReadable | src/backend/platform/agent-extensions/sourceManifest.ts:112-158 | known before the run: when plugins have names and adds ask for sources the reader accepts, the manifest stays readable |
| ExtensionReadable.ParentSubpathBreaks | src/backend/platform/agent-extensions/materialize.ts:161-185 | the subpath `a/../b` is accepted by an add that completes, and the manifest it writes is not readable |
| ExtensionCatalog.MaterializeExtension | src/backend/platform/agent-extensions/materialize.ts:211-299 | takes exactly the steps of its script, on success and at every failure |
| ExtensionCatalog.AddAgentExtension | src/backend/platform/agent-extensions/index.ts:220-375 | the same, with the cleanup of a failed add |
| ExtensionCatalog.ReseedAgentExtension | src/backend/platform/agent-extensions/index.ts:377-470 | the same; a reseed keeps the existing receipt's import time |
| ExtensionCatalog.DeleteAgentExtension | src/backend/platform/agent-extensions/index.ts:472-540 | the same, in the order assignments, copy, receipt, manifest |
| ExtensionCatalog.CheckAssignments | src/backend/platform/agent-extensions/assignment.ts:183-212 | the loops accept exactly the assignments of known agents to enabled entries |
| ExtensionCatalog.SaveAssignments | src/backend/platform/agent-extensions/assignment.ts:170-226 | the file written; the value returned equals a later load and gives every agent exactly the extensions asked for |
| ExtensionCatalog.ReconcileEntry | src/backend/platform/agent-extensions/reconcile.ts:28-90 | the two branches, missing or invalid and drifted, are one: materialise unless healthy |
| ExtensionCatalog.ReconcileAgentExtensions | src/backend/platform/agent-extensions/reconcile.ts:92-154 | the loop's steps and counts are the sweep's |
| ExtensionCatalog.ResolveAssigned | src/backend/platform/agent-extensions/stage.ts:244-268 | the checking loop returns the entries in id order, or refuses at the first bad one |
| ExtensionCatalog.CreateAgentExtensionStage | src/backend/platform/agent-extensions/stage.ts:191-358 | takes exactly the steps of its script |
| ExtensionCatalog.RecoverStagesOnStartup | src/backend/platform/agent-extensions/stage.ts:399-440 | removes each stale directory of the listing, skips links, files and directories outside the root, and counts both |
| ExtensionStages.ResolveSucceedsIff | src/backend/platform/agent-extensions/stage.ts:246-268 | staging accepts an agent if and only if each assigned id is an enabled entry with a runtime copy |
| ExtensionStages.StagingResolves | src/backend/platform/agent-extensions/stage.ts:246-268 | in a reachable state with all copies in place no agent's staging is refused |
| ExtensionStages.CreatedStageIsSnapshot | src/backend/platform/agent-extensions/stage.ts:280-323 | a completed create leaves a `created` stage holding exactly the runtime copies of every assigned extension, and changes nothing else |
| ExtensionStages.FailedStageIsGone | src/backend/platform/agent-extensions/stage.ts:324-356 | a failed create leaves no stage directory |
| ExtensionStages.CutStage | src/backend/platform/agent-extensions/stage.ts:280-323 | cut anywhere, a create leaves the stage absent, `creating`, or the complete snapshot; no other stage changes |
| ExtensionStages.RecoverRemoves | src/backend/platform/agent-extensions/stage.ts:399-440 | recovery removes exactly the stages whose directories it finds inside the root, and nothing else |
| ExtensionStages.RecoverRemovesAll | src/backend/platform/agent-extensions/stage.ts:399-440 | recovery over a full listing removes every stage and nothing else |
| ExtensionStages.StageIsFrozen | src/backend/platform/agent-extensions/stage.ts:191-440 | no other operation, complete or cut, changes a stage |
| ExtensionStages.SnapshotSurvives | src/backend/platform/agent-extensions/stage.ts:191-440 | after any later run with crashes that does not restage or remove it, the stage still holds the copies taken |
| ExtensionStages.CreatedStagesAreSnapshots | src/backend/platform/agent-extensions/stage.ts:191-440 | in any run with crashes, a stage marked `created` at the end was staged by some turn and holds exactly the runtime copies of its agent's assigned extensions on the disk that turn met |
| ExtensionStages.RunKeepsStagesComplete | src/backend/platform/agent-extensions/stage.ts:191-440 | in every run with crashes a stage marked `created` has a copy of each entry it lists and of nothing else |
| SupervisorMaps.Supervisor.EnterStart | src/backend/platform/agent-runner/pipelineSupervisor.ts:126-182 | the decision, and a claim published before anything can interleave |
| SupervisorMaps.Supervisor.CommitSpawn | src/backend/platform/agent-runner/pipelineSupervisor.ts:152-163 | from now on the task is answered with this pid and nobody has claimed its cleanup; no other task, slot or guard is affected |
| SupervisorMaps.Supervisor.ReleaseSlot | src/backend/platform/agent-runner/pipelineSupervisor.ts:182-186 | the next start of an untracked task claims afresh, a tracked task and every other task are answered as before |
| SupervisorMaps.Supervisor.HandleChildExit | src/backend/platform/agent-runner/pipelineSupervisor.ts:78-119 | untracks first; whether the task goes to error-items |
| SupervisorMaps.Supervisor.ClaimCleanup | src/backend/platform/agent-runner/pipelineSupervisor.ts:218-227 | records the owner, signals only the task's own child |
| SupervisorLaws.Step | src/backend/platform/agent-runner/pipelineSupervisor.ts:78-249 | every event, handled by the supervisor's own methods, changes its maps exactly as the step of the protocol says; what calls and stops are answered is in `SupervisorAnswers` |
| SupervisorLaws.Start | src/backend/platform/agent-runner/pipelineSupervisor.ts:126-186 | the supervisor's own decision is the answer the call gets |
| SupervisorAnswers.StartAnswers | src/backend/platform/agent-runner/pipelineSupervisor.ts:126-186 | in any run a new start is deferred exactly during recovery, else told the pid of the process that runs the task, else waits for the start under way, else starts the task |
| SupervisorAnswers.WaitingStartIsAnswered | src/backend/platform/agent-runner/pipelineSupervisor.ts:142-186 | a waiting start is answered once its spawn settles: started for its owner, already running for the others, and a failure for all when there is no process |
| SupervisorAnswers.StopAnswers | src/backend/platform/agent-runner/pipelineSupervisor.ts:194-227 | in any run a new stop waits for the process that runs the task, else for the start under way, else finds nothing running |
| SupervisorAnswers.StopGoesOn | src/backend/platform/agent-runner/pipelineSupervisor.ts:204-217 | a stop that waited for a start goes on to the process that runs the task by then, or finds none |
| SupervisorAnswers.HandledExitAnswersStops | src/backend/platform/agent-runner/pipelineSupervisor.ts:226-245 | when the exit is handled every stop waiting for it is answered: graceful, forced after its limit ran out, or thrown when the exit promise was rejected |
| SupervisorAnswers.StopTellsTimeouts | src/backend/platform/agent-runner/pipelineSupervisor.ts:226-245 | graceful means that its limit never ran out, forced once, unproven twice |
| SupervisorLaws.Replay | src/backend/platform/agent-runner/pipelineSupervisor.ts:78-249 | a new supervisor driven through any sequence of events has the maps of the run and keeps its invariant |
| SupervisorRuns.RunInv | src/backend/platform/agent-runner/pipelineSupervisor.ts:78-249 | in every interleaving slots, calls, children and tracked entries agree |
| SupervisorRuns.OneUnhandledChild | src/backend/platform/agent-runner/pipelineSupervisor.ts:126-186 | in every interleaving one forked child per task whose exit is not handled |
| SupervisorRuns.OneLiveChild | src/backend/platform/agent-runner/pipelineSupervisor.ts:126-186 | one live child per task in every interleaving that delivers no 'error' to a live child |
| SupervisorRuns.ErrorWhileLiveBreaksIt | src/backend/platform/agent-runner/pipelineSupervisor.ts:166-176 | the restriction is needed: an 'error' on any live tracked child lets the next start fork a second |
| SupervisorLaws.OneLivePerTaskIff | src/backend/platform/agent-runner/pipelineSupervisor.ts:126-186 | after any run, every continuation that delivers no 'error' to a live child keeps one live child per task if and only if no child is now alive with its exit already settled |
| SupervisorRuns.CallersAgree | src/backend/platform/agent-runner/pipelineSupervisor.ts:138-182 | all callers of one spawn see one pid or one failure, and at most one of them is told it started the child |
| SupervisorRuns.OutcomesAreFinal | src/backend/platform/agent-runner/pipelineSupervisor.ts:126-186 | once a call is answered in a run, no continuation answers it differently |
| SupervisorRuns.FailedSpawnFreesSlot | src/backend/platform/agent-runner/pipelineSupervisor.ts:179-186 | after a failed spawn the next start claims afresh |
| SupervisorRuns.OtherTasksUntouched | src/backend/platform/agent-runner/pipelineSupervisor.ts:78-249 | no step on one task changes another task's entry, slot or children |
| SupervisorRuns.MovedIff | src/backend/platform/agent-runner/pipelineSupervisor.ts:78-119 | the handler moves the task if and only if the last claim is not the caller's, the child failed and no closeout was resumed |
| SupervisorStops.StoppedMeansGone | src/backend/platform/agent-runner/pipelineSupervisor.ts:194-245 | in every run: a stop that waited for a child and answers that it was stopped, gracefully or by force, is right about that process; it throws only when the child's exit promise was rejected |
| SupervisorRuns.StopClaimsOwnChild | src/backend/platform/agent-runner/pipelineSupervisor.ts:194-227 | a stop claims and awaits the tracked child of its own task |
| SupervisorRuns.ClaimExcludesMove | src/backend/platform/agent-runner/pipelineSupervisor.ts:194-249 | a child under a caller's claim stays so through every continuation without a hand-back |
| SupervisorLaws.CallerStopExcludesMove | src/backend/platform/agent-runner/pipelineSupervisor.ts:78-249 | in any run: after a stop that claims caller cleanup on a tracked child, the exit handler never moves that child's task, unless a waiting or later stop hands cleanup back |
| SupervisorLaws.HandbackAllowsMove | src/backend/platform/agent-runner/pipelineSupervisor.ts:218-220 | the exception is real: after such a hand-back the handler moves the task of a child that fails |
| GuardrailReceipts.ReceiptStore.WriteUniqueReceipt | src/backend/platform/agent-runner/guardrails.ts:166-211 | the loop links the least free name, or throws exactly when all sixteen are taken |
| GuardrailReceipts.RunKeepsInv | src/backend/platform/agent-runner/guardrails.ts:166-211 | every interleaving of link calls keeps names prefix-closed and owned by the writer that claimed them |
| GuardrailReceipts.ReceiptsAreSafe | src/backend/platform/agent-runner/guardrails.ts:166-211 | names prefix-closed, no receipt overwritten, claims pairwise distinct with their writer's full content, failure only when all sixteen are taken |
| GuardrailReceipts.PublishedIsFinal | src/backend/platform/agent-runner/guardrails.ts:166-211 | a published receipt never changes |
| GuardrailReceipts.SixteenWritersFit | src/backend/platform/agent-runner/guardrails.ts:166-211 | up to sixteen writers on an empty directory never run out of names |
| GuardrailReceipts.PersistentWriterEnds | src/backend/platform/agent-runner/guardrails.ts:166-211 | on any directory a writer that keeps trying ends with a name of its own or has found all sixteen taken |
| GuardrailReceipts.SixteenWritersSucceed | src/backend/platform/agent-runner/guardrails.ts:166-211 | up to sixteen writers on an empty directory all succeed: each that keeps trying publishes its own full content |
| GuardrailReceipts.AbortedClaimsNothing | src/backend/platform/agent-runner/guardrails.ts:166-211 | a writer that gives up before it has a name never gets one |
| GuardrailReceipts.PolicyResultCache.Set | src/backend/platform/agent-runner/guardrails.ts:16-51 | the new value is found; only the oldest entry may be lost, and that even when the key was already present |
| GuardrailReceipts.LookupEvictPut | src/backend/platform/agent-runner/guardrails.ts:16-51 | what every key finds after eviction and insertion |
| AgentWait.WaitForAgentDetailed | src/backend/platform/agent-runner/processLifecycle.ts:113-237 | the wait object driven through any events keeps the signal discipline, collects the tails, and reports: for a child that had exited its own code; else, once the first close or error has come, 130 when an abort was requested before it, else the code of the close, else 1 |
| AgentWait.SummaryOfEvents | src/backend/platform/agent-runner/processLifecycle.ts:113-237 | the summary read off the events: open until the first close or error, then that code, the last cause that stopped the child as the reason, and the child's signal |
| AgentWait.SignalsOfEvents | src/backend/platform/agent-runner/processLifecycle.ts:142-200 | SIGTERM at the first of an abort, the wall-clock limit or the idle limit running out, SIGKILL when the grace period ends on a child still running, and nothing once it has ended |
| AgentWait.SignalDiscipline | src/backend/platform/agent-runner/processLifecycle.ts:144-167 | at most one SIGTERM, then at most one SIGKILL no sooner than 5000 ms later and only to a child with neither exit nor signal code |
| AgentWait.SettlesOnce | src/backend/platform/agent-runner/processLifecycle.ts:123-134 | the first settlement is the only one |
| AgentWait.SilenceAfterSettling | src/backend/platform/agent-runner/processLifecycle.ts:169-237 | nothing is signalled after settling in every run, if and only if the child had not exited at entry, or an abort was pending, or no idle timeout is set |
| AgentWait.AbortedMeans130 | src/backend/platform/agent-runner/processLifecycle.ts:208-229 | an abort before settling reports 130; a child that had exited at entry reports its own code |
| AgentWait.TailsAreSuffixes | src/backend/platform/agent-runner/processLifecycle.ts:101-107 | the tails are the last 4000 characters of each whole stream however it was chunked, and are reported trimmed |
| AgentWait.StepInv | src/backend/platform/agent-runner/processLifecycle.ts:113-237 | what every handler keeps |
| RootScan.TextContainsRoot | src/backend/platform/agent-runner/agentRootContainment.ts:207-218 | the skip-ahead loop terminates with the answer of the scan |
| RootScan.ScanIsExact | src/backend/platform/agent-runner/agentRootContainment.ts:207-242 | for a root without a boundary overlap the scan is true exactly when some position is a boundary-delimited occurrence that is not allowed |
| RootScan.HitIff | src/backend/platform/agent-runner/agentRootContainment.ts:220-242 | what an occurrence is: nothing that belongs to a path before it, no longer name behind it, and no allowed root that ends at the same place |
| RootScan.OverlapIsMissed | src/backend/platform/agent-runner/agentRootContainment.ts:207-218 | every root with such an overlap has a text in which an occurrence is missed |
| RootScan.ScanExactIff | src/backend/platform/agent-runner/agentRootContainment.ts:207-242 | the scan is exact for all texts and all allowed lists if and only if the root has no boundary overlap |
| RootScan.PathRootsAreExact | src/backend/platform/agent-runner/agentRootContainment.ts:207-242 | roots of path characters are always scanned exactly |
| PorcelainStatus.CollectPaths | src/backend/platform/agent-runner/confinement.ts:172-191 | the record-skipping loop collects the paths its specification says |
| PorcelainStatus.ListChangedPaths | src/backend/platform/agent-runner/confinement.ts:166-193 | exactly the normalised collected paths, each once |
| PorcelainStatus.PathsAreRecovered | src/backend/platform/agent-runner/confinement.ts:166-193 | from whatever git prints the loop recovers exactly the resulting path of each change, in order |
| PorcelainStatus.PathsAreListed | src/backend/platform/agent-runner/confinement.ts:166-193 | the same for the whole output, an empty one included |
| WorkspacePreview.BuildSyncPreview | src/backend/mcp/workspace_context_sync/workspace.py:86-155 | the loops and comprehensions compute the preview |
| WorkspacePreview.PreviewSays | src/backend/mcp/workspace_context_sync/workspace.py:86-155 | folder by folder: which paths are managed, added and removed, in which order, and the result: the kept entries as they are, then for each managed path the user's last folder with its settings or a bare one |
| WorkspacePreview.ReloadedResult | src/backend/mcp/workspace_context_sync/workspace.py:86-155 | the written folders read back as the unmanaged entries, untouched and in order, followed by exactly the managed paths |
| WorkspacePreview.PathSetBalances | src/backend/mcp/workspace_context_sync/workspace.py:86-155 | the result's paths are the current ones less the removals plus the additions |
| WorkspacePreview.PreviewIsFixpoint | src/backend/mcp/workspace_context_sync/workspace.py:86-155 | previewing again from the result adds nothing, removes nothing and writes the same folders |
| DeepFocus.NormalizePrimaryFocusTargets | src/backend/mcp/workspace_context_sync/deep_focus.py:166-246 | the loop over raw targets and the choice of the anchor |
| DeepFocus.MergeSourceTargets | src/backend/mcp/workspace_context_sync/deep_focus.py:428-460 | the loop that merges source targets by identity |
| DeepFocus.DedupeRoots | src/backend/mcp/workspace_context_sync/deep_focus.py:409-425 | the loop that merges roots by key |
| DeepFocusLaws.PrimaryListHasOneAnchor | src/backend/mcp/workspace_context_sync/deep_focus.py:166-246 | a primary list keeps order and length and has exactly one anchor, the explicit one or else the first |
| DeepFocusLaws.ReloadIsIdentity | src/backend/mcp/workspace_context_sync/deep_focus.py:8-95 | loading a normalised selection from its own stored form is the identity, roots included |
| DeepFocusLaws.ReloadsArePreserving | src/backend/mcp/workspace_context_sync/deep_focus.py:8-95 | however often it is stored and loaded |
| DeepFocusLaws.DedupeKeys | src/backend/mcp/workspace_context_sync/deep_focus.py:409-425 | keys are distinct, in order of first appearance, and exactly those of the input |
| DeepFocusLaws.DedupeConserves | src/backend/mcp/workspace_context_sync/deep_focus.py:409-460 | each key keeps the union of its source targets' identities |
| DeepFocusLaws.MergedSources | src/backend/mcp/workspace_context_sync/deep_focus.py:428-460 | sources there are stay in front, incoming ones are appended, and no identity appears twice |
| DeepFocusValues.SelectionSays | src/backend/mcp/workspace_context_sync/deep_focus.py:8-246 | the normalised selection says field by field what the raw one says, snake case before camel case |
| DeepFocusLaws.ParentContains | src/backend/mcp/workspace_context_sync/deep_focus.py:402-406 | a path lies in its parent directory |
| DeepFocusLaws.DerivedRootsCover | src/backend/mcp/workspace_context_sync/deep_focus.py:249-390 | every primary and test target lies in a writable root of its own repository, support targets in read-only ones, and only support targets yield read-only roots |
| DeepFocusPlaces.DerivedRootsAreExact | src/backend/mcp/workspace_context_sync/deep_focus.py:249-390 | the derived roots are exactly the places the selection names: selected directories, parent directories of selected files, test and support targets, each in its own repository, else its primary target's or the first anchor's |
| DeepFocusPlaces.WritableIff | src/backend/mcp/workspace_context_sync/deep_focus.py:249-390 | a path of a repository may be written if and only if it lies in such a place of that repository |
| DeepFocusPlaces.NormalizesToIff | src/backend/mcp/workspace_context_sync/deep_focus.py:393-399 | what a normalised path is, and which values have one |
| DeepFocusPlaces.FileParentIff | src/backend/mcp/workspace_context_sync/deep_focus.py:402-406 | the root of a selected file is the directory that holds it if and only if its last name is not blank |
| DeepFocusPlaces.BlankNameOpensTheRepository | src/backend/mcp/workspace_context_sync/deep_focus.py:402-406 | a selected file with a blank name whose root is the whole repository |
| Discovery.Scan | src/backend/mcp/context_estate/discovery.py:242-258 | the breadth-first loop terminates and finds exactly the directories the rules reach, each once |
| Discovery.ScanListing | src/backend/mcp/context_estate/discovery.py:246-258 | one listing: what is emitted, enqueued or dropped, with the total still to be found unchanged |
| Discovery.BelowRootIff | src/backend/mcp/context_estate/discovery.py:231-263 | what the scan reaches is exactly what the declarative description says |
| Discovery.SkippedIff | src/backend/mcp/context_estate/discovery.py:231-263 | the names never entered: hidden ones and seven more |
| Discovery.DiscoverCandidateRepos | src/backend/mcp/context_estate/discovery.py:231-263 | exactly the git directories within the depth limit with no skipped name on their path and no git directory strictly above them |
| Discovery.CandidatesAreAnAntichain | src/backend/mcp/context_estate/discovery.py:231-263 | no discovered repository lies inside another |
| Discovery.GroupingDirs | src/backend/mcp/context_estate/discovery.py:304-309 | the nested loops collect exactly the proper ancestors of discovered repositories |
| Discovery.CollectMissingGitRepoWarnings | src/backend/mcp/context_estate/discovery.py:279-345 | exactly the folders that lack git: no git directory or known repository on the way, only grouping folders above them, and no grouping folder themselves |
| Discovery.WarningsAvoidRepos | src/backend/mcp/context_estate/discovery.py:279-345 | no warning is a discovered repository, has one beneath it or lies in one, and warnings are an antichain |
| PackWriter.Writer.EnforceAuthorship | src/backend/mcp/pack/writer.py:155-194 | the in-place loops over the proposed model's objects restore guarded fields from the snapshot |
| PackWriter.Writer.MirrorRepoFields | src/backend/mcp/pack/writer.py:100-111 | in place, the legacy field mirrors the focus |
| PackWriter.Writer.DeriveFocusAreaTypes | src/backend/mcp/pack/writer.py:113-134 | in place, areas are primary exactly when listed, the list being synthesised when absent |
| PackWriter.Writer.PopulateContainerPaths | src/backend/mcp/pack/writer.py:136-153 | in place, container paths follow the mounts |
| PackWriter.Writer.WriteManifest | src/backend/mcp/pack/writer.py:205-214 | writes the derived manifest, or nothing when it does not validate |
| PackWriter.Writer.UpdateManifest | src/backend/mcp/pack/writer.py:216-237 | the guarded read-modify-write, also when the mutator changes the very objects it is handed |
| ManifestLaws.SurvivorIsGuarded | src/backend/mcp/pack/writer.py:155-194 | every repository written carries the focus, and the authored category, its id had on disk |
| ManifestLaws.UpdateWrites | src/backend/mcp/pack/writer.py:205-237 | an update writes what the mutator proposed with only the guarded fields taken from disk and the derived ones recomputed, if and only if that is complete; otherwise nothing changes |
| ManifestLaws.UpdateKeepsFocus | src/backend/mcp/pack/writer.py:216-237 | a repository that survives an arbitrary mutator keeps its focus |
| ManifestLaws.FocusNeverChanges | src/backend/mcp/pack/writer.py:216-237 | over any sequence of updates that never drop it its focus never changes |
| ManifestLaws.UpdatesStayConsistent | src/backend/mcp/pack/writer.py:100-134 | the legacy field mirrors the focus and areas are primary exactly when listed, over any sequence of updates |
| ManifestLaws.IdentityIsFixpoint | src/backend/mcp/pack/writer.py:205-237 | after one identity update another changes nothing |

## Left out

- ExtensionAssignments.SavedIsLoaded: says nothing about malformed JSON beyond treating it as an empty file.
- ExtensionInvariant.AddShape: the manifest is kept in insertion order; sorting it by id when it is written is not modelled.
- ExtensionReconcile.AddedIsHealthy: the new entry is last in the model's list; in the file the entries are sorted by id and names are trimmed when read.
- ExtensionReconcile.AddThenDelete: restores the model's list; the file holds the same entries sorted by id, with trimmed names.
- PackWriter.Writer.WriteManifest: schema validation is reduced to non-empty ids and names, and loading a manifest never fails.
- ExtensionReconcile.AttachedAlwaysMends: speaks of entries whose configured path is the one an add derives.
- RewardRuns.RoundingBound: multipliers are exact rationals, so binary floating point in the multiplication is not modelled.
- AgentWait.TailsAreSuffixes: a multi-byte character split across two chunks is not modelled; a chunk is text.
- Discovery.CollectMissingGitRepoWarnings: lower-casing folder names covers ASCII letters only.
- PorcelainStatus.ListChangedPaths: the final sort is not modelled, and the normaliser is a parameter.
- Reward mark-down files, agent archives, realignment and fairness documents: file formats around the same store.
- The global document update of fairness: its load and save take separate locks, so there is no atomicity to state.
- Legacy-path fallbacks when reading the reinforcement files: the model has one file of each kind.
- Git cloning, containment of canonical paths and symbolic links in sources and stages: operating-system behaviour, part of a fetch that fails.
- The directory lock itself: operations under it are sequences of steps that do not interleave.
- Parsing of front matter and of plugin files: only what inspection does with the result is modelled.
- Renderer catalog entries and log events of the extension catalog: projections of the same state.
- recoverOnStartup of the supervisor beyond its deferral flag: the functions it calls are not part of this model.
- stopAll and gracefulKill: iterations of operations that are modelled.
- ExtensionDigest.ComputeSourceDigest: the files of a tree are given as a map, so the recursive listing of its directories is not modelled; a copy that cannot be read while its digest is taken, which counts as unchanged, is not modelled either.
- Windows branches of signalling: no grace timer is set there.
- Which timeout is named as termination reason: a later timer may overwrite it, as in the code.
- isAllowedChangedPath and validateDaltonBoundaryChanges: a branch list over the focused repository without a deeper property.
- Sorting of discovered repositories and warnings by relative path: order of the final list only.
- High-signal paths, categories, focus areas and language detection of the estate scan: long heuristic lists.
- Upgrading version-1 manifests, answers and plans of the pack writer: plain conversions.
- Overriding whether a category counts as authored: the flag itself is not guarded, so only one-step protection is stated.
- Path normalisation of workspace files: a parameter that is assumed to fix the targets it produced.
- An empty root in the root scan: the code never passes one, and the loop would not advance.

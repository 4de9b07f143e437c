# Verification of the operator tooling

This Dafny project models the operator tooling of the repository and proves what it
relies on: crash-safe protocols over durable files, reasoning over commit and migration
graphs, and a few dense algorithms. `dafny verify dfyconfig.toml` checks everything.

Code that changes state is modelled as classes and methods with loops, and proved
against a state invariant or a specification function. Pure code is modelled as functions
and lemmas. A step that may fail takes the next entry of a fault script (`Faults.dfy`): it
may be applied or not, the process may survive or die, and of the changed directory
entries any may already be on disk. What is never synced may reach the disk, or be torn
there, at any later moment. A statement about every script is therefore a statement about
every failure and every crash.

## What is modelled

**The schema transition of the Dev stack** (`SchemaTransition.dfy`). A `World` holds the
state directory, the installed app and the directory of the snapshots twice, as processes
see them and as a power loss would reveal them, the two volumes, whatever is running, and
containers that outlive their client. One invariant holds after every sequence of
promotions, recoveries, application writes, container activity, foreign starts and power
losses. It says that a snapshot is restored only while no writer may have started since it
was taken, that both volumes are then what they were before the first migration write, and
that a finished transition lies wholly on one side. Failures are taken back: when one step
between the prepared journal and the phase that admits target writers fails, `promote`
itself ends with the previous stack running on its own data; a later failure ends there
too, or leaves everything stopped and marked until a recovery goes forward
(`PromoteSchema`). Two things are not synced, and both are lost in a run that is given.
The archives are synced, but the entry of the directory they lie in is not until a restore
has succeeded: a power loss may leave a journal that asks for snapshots which are gone
(`SnapshotsVanish`), and if a restore had torn a volume by then, its writes are gone too
(`WritesVanish`). After any run and a power loss, one undisturbed recovery finishes the
transition if and only if no snapshot is needed or that entry had reached the disk
(`RebootAndRecover`); and every application write is in the volumes or the archives if and
only if no volume is torn or the directory is there (`NoWriteIsLost`). The installed app
may be taken back under a finished transition (`CompletedAppIsTakenBack`): an undisturbed
promotion keeps it if and only if it was written back whole before the power went
(`PromotionSurvives`).

**The ordinary promote and rollback** (`OrdinaryTransition.dfy`). A pinned receipt and an
app backup stay until the result, or the state before the operation, is published. In
every run a directory without a receipt has its pointer and runtime record on one side,
and a receipt pins one side. When one step fails before the receipt is durable, nothing
has been changed; after that and before the pointer is moved, app, pointer, runtime
record, recorded backend and stored record are again what they were and the receipt is
released; and while the pointer is moved, the target runs and its receipt waits
(`Transition`). Three promises fail after a power loss, because no copy of the app is ever
synced. A receipt may outlive its backup, and then every command refuses it
(`ReceiptOutlivesItsBackup`). When the receipt was unlinked but the sync of its directory
failed, retention sees no receipt and removes the backup, and the receipt may return
without it (`ReceiptReturnsWithoutBackup`). And the app of a finished operation may be
taken back (`FinishedAppIsTakenBack`). The conditions are exact: after any run and a
reboot a receipt has its backup if and only if the copy is `Durable`, that is, it reached
the disk and its removal did not; only retention can have removed it (`RunAndReboot`).
Each copy that reached the disk, and each removal, was written back by one event of the
run (`Run`, `WritesBack`). After a promotion of another app, a power loss leaves the new
one if and only if it was written back whole meanwhile (`PromotionSurvives`). Without a
power loss neither is ever lost.

**The migration planner** (`MigrationPlanner.dfy`, `Dag.dfy`). It terminates on every
graph, accepts exactly the sound, complete, undivided graphs in which the current revision
is an ancestor of the single head, and returns exactly the revisions in between. They can
be applied one after the other, parents first, ending with the target. The result itself
is sorted by name and need not be such an order: it is one if and only if no pending
parent has a larger name than its child (`SortedIsAnOrderIff`).

**The volume tool** (`VolumeTool.dfy`, `PathOrder.dfy`). The archive of any tree of
regular files and directories passes the tool's own validation, and restoring it after any
changes, with any number of interrupted attempts before, brings back the tree.

**Artifact retention** (`Retention.dfy`). Over any sequence of builds and prunes the app
of the active manifest and the archive and app of the rollback target stay. A prune keeps
the app of every candidate waiting for promotion, removes nothing while it is blocked, and
leaves nothing for a second run. Its list, in a dry run or not, names exactly what the
store contains before a real run and not after it. A build keeps only its own candidate,
not the others that wait. A blocked prune forgets the tags that an earlier one could not
remove.

**The checked base of a merged pull request** (`CheckedBase.dfy`, `RefusedSquash.dfy`,
`Trees.dfy`). The git commands are an oracle that tells the truth but promises no order of
its output. On every way out, the returned base is an ancestor of the head, exactly the
announced number of commits lies between, and the merged tree carries the head: the same
tree, a chain of replays, or a merge of independent changes. Conversely, where git prints
linear histories from their tip down and merges changes that do not meet (`Lawful`), every
genuine merge commit, linear rebase, synchronized squash and synchronized rebase gets its
base. A genuine independent squash gets it if and only if the history printed below its
merge is `Readable`. The comment on squashes expects a shorter linear history to be passed
over, but the contiguity test comes first: a squash whose last commits include a merge is
refused when the branches below that merge are printed side by side.
`RefusedSquash.InterleavedSquashIsRefused` gives such a repository, in which everything
else holds. The replays tried before a squash is considered never stand in its way: they
cannot conflict on an independent target.

**Release attempts** (`ReleaseAttempts.dfy`). A create-once attempt log with an active
pointer, as commands read it and as the disk holds it. At most one attempt is unfinished,
and it is the active one, unless a power loss takes back the result of a finish that had
failed; no baseline, candidate or visible result is ever rewritten; a result is only
written for a complete runtime pinned to its recorded images, and refused for no such
runtime; and an unchanged runtime hands exactly those images to the next baseline. Two
promises are false of the code. `claim_attempt` promises that everything it writes is
durable before the active attempt is set, but neither the entry of the new attempt
directory nor that of the copied helper is synced by then: the pointer may outlive the
whole attempt (`PreparedAttemptVanishes`) or its helper (`HelperIsMissing`). After a power
loss the active attempt can be recovered if and only if its directory and its helper
reached the disk; its baseline, override and identity are complete whenever the directory
is there (`PowerLoss`). `write` promises that an unacknowledged result is never read as a
finished deployment, but such a result is found when the process dies after it was visible
or cannot remove it, and the next `prepare` replaces its attempt
(`UnacknowledgedResultIsReplaced`); its removal is not synced either, so it may return
(`RemovedResultReturns`). A finish leaves an unacknowledged result if and only if its
failures satisfy `Slips`. Over whole runs every replaced attempt is acknowledged when no
finish failed after its result was visible, and without a power loss when none slipped.

**The Swift masker** (`SwiftMasker.dfy`, `SwiftGrammar.dfy`, `SwiftSources.dfy`,
`TypeMembers.dfy`). The mutually recursive scanners that blank a buffer in place equal a
pushdown automaton that reads the source once with an explicit stack. What that means in
terms of the language: every source has a syntax tree of code, line comments, nested block
comments and single-line or multiline literals with any number of hashes, escapes and
interpolations, which may break off where the source ends inside one of them, and it is
masked to what its tree shows, which is the code and the interpolated code
(`EverySourceMask`). The result keeps every offset and newline, contains no quote and no
comment opener, and masking it again changes nothing. The member view of a type shows a
character only at brace depth one outside argument lists.

**Allocated storage** (`AllocatedStorage.dfy`, `EntryOrder.dfy`). The worklist walk counts
the blocks of every inode below the classified roots exactly once, whatever hard links and
overlapping roots lead to it, and two measurements of the same storage agree whatever the
order of roots and directory entries. When the paths of a hard-linked symbolic link
resolve alike, it succeeds exactly on unambiguous storage, and the order does not decide
whether it does. Without that, the order of one directory's entries can decide between a
measurement and none (`EntryOrderDecidesForSharedLinks`), because only the first path to a
link is resolved. For any roots the condition is exact: storage is measured in every order
of its entries if and only if no inode lies below two classes, each root is one file
system, and every link fits its class under each name it has in the first area that names
it (`EveryOrderIsMeasured`).

**The growth anchor** (`GrowthAnchor.dfy`), **the incident latch** (`IncidentLatch.dfy`)
and **directory evidence** (`EvidenceEncoding.dfy`): intervals abut and rates add up to
the change in size; an incident only grows until a receipt that names it; and two
directories feed the hash the same bytes exactly when they hold the same entries.

**Feature claims** (`FeatureClaims.dfy`). Concurrent claims of one feature never
contradict each other, whatever stale checks were made before the lock. The registry is
replaced without a sync: a power loss brings back an earlier version with exactly the
promises made under it, so that one feature can be granted twice (`OneFeatureTwice`), or a
torn file that every later claim refuses.

## Model

| member | source | states |
|---|---|---|
| `SchemaTransition.World.Replace` | `scripts/dev-harness.py:3319-3331` | a write of the state directory leaves the old or the new entry visible, and any mixture of both on disk unless it succeeded |
| `SchemaTransition.World.WritePhase` | `scripts/dev-harness.py:2708-2727` | the journal gets the phase first; archives go only after a terminal phase was written, and then they go, with their directory, unless that fails |
| `SchemaTransition.World.Publish` | `scripts/dev-harness.py:3569-3588` | success puts the pointer on the chosen side, seen and on disk, and clears the rollback marker of an unfinished transition |
| `SchemaTransition.World.Stop` | `scripts/dev-harness.py:2729-2756` | success leaves no writer, no database and no copy or migration container |
| `SchemaTransition.World.CheckVolumes` | `scripts/dev-harness.py:2771-2774` | passes only while nothing that could change a volume runs |
| `SchemaTransition.World.Snapshot` | `scripts/dev-harness.py:2849-2851` | an archive is created once, of the volume as it is, in the directory of the operation, and its digest is recorded |
| `SchemaTransition.World.RestoreVolume` | `scripts/dev-harness.py:2785-2787` | success makes the volume the recorded content; failure may leave it torn and a container running |
| `SchemaTransition.World.StartBackend` | `scripts/dev-harness.py:2265-2270` | during an unfinished transition a backend starts only for its controller under the phase of its own side |
| `SchemaTransition.World.Enter` | `scripts/dev-harness.py:2708-2711` | writing a phase whose meaning already holds keeps the invariant, whether or not the write fails |
| `SchemaTransition.World.MayRestore` | `scripts/dev-harness.py:2776-2782` | where a restore may be entered, no writer may have started, and the archives have their recorded digests or are gone with their directory |
| `SchemaTransition.World.RestorePair` | `scripts/dev-harness.py:2776-2788` | success leaves both volumes as they were before the first migration write, in phase restored; without the archives nothing is changed |
| `SchemaTransition.World.MayBeRestored` | `scripts/dev-harness.py:2788` | restored volumes, and a synced snapshot directory, meet what the restored phase promises |
| `SchemaTransition.World.Finish` | `scripts/dev-harness.py:2799-2818` | from stopped volumes of one side, the transition ends published on that side or stays unfinished |
| `SchemaTransition.World.Resume` | `scripts/dev-harness.py:2791-2819` | the phase alone decides the direction: forward once target writers may have run, otherwise back, on the cold volumes where they were snapshotted, with the backend of that side running |
| `SchemaTransition.World.TakeSnapshots` | `scripts/dev-harness.py:2846-2851` | success records both volumes of one cold moment |
| `SchemaTransition.World.RunMigration` | `scripts/dev-harness.py:2854-2857` | whatever the migration does, the snapshots stay usable |
| `SchemaTransition.World.MigrateLeg` | `scripts/dev-harness.py:2844-2858` | from prepared to migrated, the invariant holds after every failure, the journal still leads back, and what it leads back to is the data from before up to writes of the database server |
| `SchemaTransition.World.ForwardLeg` | `scripts/dev-harness.py:2859-2866` | from migrated to verified, writers start only after the phase that admits them is durable |
| `SchemaTransition.World.AfterFailure` | `scripts/dev-harness.py:2872-2888` | undisturbed, it goes back to the previous stack on its own data while the durable phase leads back, and stops and marks everything otherwise; when going back fails once more, everything is stopped and marked |
| `SchemaTransition.World.MigrateOrGoBack` | `scripts/dev-harness.py:2844-2888` | one failure before target writers are admitted ends recovered, one after that recovered or stopped and marked |
| `SchemaTransition.World.PromoteSchema` | `scripts/dev-harness.py:2830-2888` | one failure between the prepared journal and the phase that admits target writers ends recovered, with the previous stack running on its data; a later one does too or leaves everything stopped and marked; an undisturbed promotion succeeds |
| `SchemaTransition.World.Promote` | `scripts/dev-harness.py:3641-3654` | success is the complete phase, seen and on disk, with the snapshots gone; one failure before target writers are admitted is taken back |
| `SchemaTransition.World.Recover` | `scripts/dev-harness.py:3658-3681` | ends in complete exactly after a forward phase, otherwise in recovered, with that side running, unless something fails again; one failure leaves everything stopped and marked; without needed snapshots it changes no phase |
| `SchemaTransition.World.AppWrites` | `scripts/dev-harness.py:2821-2828` | a running writer's write is added to the volume, nobody else's is, and the invariant survives it |
| `SchemaTransition.World.ToolRuns` | `scripts/dev-harness.py:2734-2736` | a container whose client died may go on at any time without harm; when it finishes, the database has the target schema, or the volume is the archived one |
| `SchemaTransition.World.PowerLoss` | `scripts/dev-harness.py:2872-2873` | a power loss after any step leaves the invariant on what the disk reveals; the snapshots stay exactly when the entry of their directory had reached it |
| `SchemaTransition.World.Run` | `scripts/dev-harness.py:2830-2888` | the invariant holds after every sequence of commands, failures and outside events; only a power loss takes snapshots or the app, and only a write-back changes the app on disk |
| `SchemaTransition.World.RunAndRecover` | `scripts/dev-harness.py:3658-3681` | after any run, one undisturbed recovery finishes the transition, unless it needs snapshots that are gone |
| `SchemaTransition.World.RebootAndRecover` | `scripts/dev-harness.py:2842-2843` | after any run and a power loss it finishes the transition if and only if no snapshot is needed or the entry of their directory had reached the disk |
| `SchemaTransition.World.FinishedOnOneSide` | `scripts/dev-harness.py:2814-2818` | complete means target pointer and schema, recovered means previous ones, and the app of that side is installed if and only if no power loss took it back |
| `SchemaTransition.World.NoWriteIsLost` | `scripts/dev-harness.py:2887` | every application write is in the volumes or in both archives, if and only if no volume is torn or the snapshots are there; a volume is torn during a restore only |
| `SchemaTransition.CompletedAppIsTakenBack` | `scripts/dev-harness.py:2859-2866` | a finished promotion whose app was never synced: after a power loss the previous app is back under the target pointer |
| `SchemaTransition.PromotionSurvives` | `scripts/dev-harness.py:2859-2866` | after an undisturbed promotion, a power loss leaves the new app if and only if it was written back whole |
| `SchemaTransition.SnapshotsVanish` | `scripts/dev-harness.py:2842-2853` | a run whose journal asks for snapshots that a power loss took |
| `SchemaTransition.WritesVanish` | `scripts/dev-harness.py:2784-2787` | a run in which a torn volume and its archive are both lost, with an application write |
| `OrdinaryTransition.World.WriteReceipt` | `scripts/dev-harness.py:3089-3095` | the receipt pins the operation before anything is changed |
| `OrdinaryTransition.World.Begin` | `scripts/dev-harness.py:3020-3030` | a new operation pins the state before it, with whether the recorded backend ran, and a visible copy of the app of the recorded digest |
| `OrdinaryTransition.World.CopyApp` | `scripts/dev-harness.py:2521-2532` | success makes one new copy of the installed app, visible but not synced |
| `OrdinaryTransition.World.GoForward` | `scripts/dev-harness.py:3037-3045` | success installs and starts the target; failure stays within the pinned operation, and one failure is met within its five steps |
| `OrdinaryTransition.World.RestoreApp` | `scripts/dev-harness.py:2545-2570` | with its backup there, the app is again the one from before the first attempt |
| `OrdinaryTransition.World.RestoreRuntime` | `scripts/dev-harness.py:2572-2592` | the runtime record is again the one from before the first attempt, and the backend runs exactly if it did |
| `OrdinaryTransition.World.RestoreTargetRecord` | `scripts/dev-harness.py:3113-3125` | compensation leaves the target's stored record exactly as it was found |
| `OrdinaryTransition.World.RemoveReceipt` | `scripts/dev-harness.py:3126-3133` | removal settles the outcome; an unsynced removal defers the cleanup |
| `OrdinaryTransition.World.Complete` | `scripts/dev-harness.py:3097-3133` | the receipt goes only after the pointer was published and read back; one failure before that keeps it |
| `OrdinaryTransition.World.RemoveBackups` | `scripts/dev-harness.py:2066-2069` | success removes every backup, and the one a receipt on disk still names is exactly what counts as pruned |
| `OrdinaryTransition.World.Cleanup` | `scripts/dev-harness.py:3135-3146` | cleanup after a synced removal removes every backup, prunes nothing and cannot fail the operation |
| `OrdinaryTransition.World.Compensate` | `scripts/dev-harness.py:3048-3078` | success is the state before the operation, with app, pointer, runtime record, backend and stored record, published like a result; otherwise the receipt stays, and one failure before the restored stack was checked always leaves it |
| `OrdinaryTransition.World.Carry` | `scripts/dev-harness.py:3036-3087` | one failure before the pointer is moved takes everything back and releases the receipt; one while it is moved leaves the target running under its receipt |
| `OrdinaryTransition.World.Transition` | `scripts/dev-harness.py:2890-3087` | an operation ends on its target or exactly where it began, else its receipt stays as it is; one failure changes nothing before the receipt is durable, is taken back before the pointer is moved, for new and repeated operations, and leaves the receipt to wait after that |
| `OrdinaryTransition.World.WritesBack` | `scripts/dev-harness.py:2531` | exactly which write-back makes a copy or its removal reach the disk, or changes the app there; the invariant survives it |
| `OrdinaryTransition.World.PowerLoss` | `scripts/dev-harness.py:1253-1346` | after a power loss a receipt lacks its backup if and only if the copy is not durable |
| `OrdinaryTransition.World.Run` | `scripts/dev-harness.py:2890-3146` | the invariant holds after every run; without a power loss no backup and no app is lost, without a prune nothing is pruned, and whatever reached the disk was written back by one of the events |
| `OrdinaryTransition.World.RunAndRepeat` | `scripts/dev-harness.py:2901-2922` | after any run, one undisturbed repetition finishes the operation, unless its backup is not durable |
| `OrdinaryTransition.World.RunAndReboot` | `scripts/dev-harness.py:1253-1346` | after any run and a reboot a receipt has its backup if and only if that is durable, only retention can have removed it, and a directory without a receipt has pointer and runtime record on one side |
| `OrdinaryTransition.PromotionSurvives` | `scripts/dev-harness.py:3037-3045` | after an undisturbed promotion of another app, a power loss leaves it if and only if it was written back whole |
| `OrdinaryTransition.ReceiptOutlivesItsBackup` | `scripts/dev-harness.py:2521-2531` | a run in which the synced receipt survives a power loss and its backup does not |
| `OrdinaryTransition.ReceiptReturnsWithoutBackup` | `scripts/dev-harness.py:3126-3133` | a run in which a receipt returns whose backup had reached the disk and was removed by retention |
| `OrdinaryTransition.FinishedAppIsTakenBack` | `scripts/dev-harness.py:3037-3039` | a finished operation whose app a power loss takes back |
| `MigrationPlanner.AncestorsAreReachable` | `scripts/dev-harness.py:1202-1209` | a walk that succeeds returns exactly the reachable revisions, all known and on no cycle |
| `MigrationPlanner.RefusedForAReason` | `scripts/dev-harness.py:1204-1205` | a refused walk met an unknown revision, a cycle, or a way back into itself |
| `MigrationPlanner.PlannerVerdict` | `scripts/dev-harness.py:1198-1213` | a path is planned if and only if the graph is complete, acyclic, undivided and the current revision an ancestor; it holds exactly the revisions in between |
| `MigrationPlanner.OrderExists` | `scripts/dev-harness.py:1213` | pending revisions on no cycle can be ordered, parents first |
| `MigrationPlanner.PathCanBeApplied` | `scripts/dev-harness.py:1213` | the planned revisions have an order of application that ends with the target |
| `MigrationPlanner.SortedIsAnOrderIff` | `scripts/dev-harness.py:1213` | the sorted result is an order of application if and only if every pending parent has a smaller name |
| `MigrationPlanner.SortedIsNotAnOrder` | `scripts/dev-harness.py:1213` | a graph whose result is none |
| `VolumeTool.ArchiveIsSound` | `scripts/dev-harness.py:1143-1153` | the archive of any regular tree has its root first, each parent before its entries, and no name twice |
| `VolumeTool.ArchiveIsTheTree` | `scripts/dev-harness.py:1172-1175` | the archive of a tree describes that tree |
| `VolumeTool.BytesAddUp` | `scripts/dev-harness.py:1139` | the recorded size is the sum of the file sizes |
| `VolumeTool.Validate` | `scripts/dev-harness.py:1143-1166` | accepts exactly the sound archives with the expected rows and size |
| `VolumeTool.Tool.Snapshot` | `scripts/dev-harness.py:1167-1182` | succeeds exactly on a regular tree that nobody wrote to until the second inventory, and then the archive is of that tree |
| `VolumeTool.Tool.Extract` | `scripts/dev-harness.py:1190` | a complete extraction into an emptied volume is the tree of the archive |
| `VolumeTool.Tool.Restore` | `scripts/dev-harness.py:1183-1193` | success is the tree of the archive with the expected inventory; a refused archive changes nothing |
| `VolumeTool.Tool.RoundTrip` | `scripts/dev-harness.py:1167-1194` | snapshot, any changes, an interrupted restore and another one bring back the tree |
| `PathOrder.ParentIsBefore` | `scripts/dev-harness.py:1134` | in a sorted listing a directory comes before its entries |
| `PathOrder.SortedListingIsUnique` | `scripts/emit-ci-evidence.py:66` | what is listed has only one sorted listing |
| `Retention.KeepsWhatIsNeeded` | `scripts/dev-harness.py:931-945` | the policy keeps the active app, the target's archive and app, and the app of every extra candidate |
| `Retention.KeepsNothingElse` | `scripts/dev-harness.py:931-945` | exactly these directories are kept, and no archive but the target's |
| `Retention.Store.Trim` | `scripts/dev-harness.py:2045-2065` | the loop removes exactly the stale items, and a failure in the middle touches nothing that is kept |
| `Retention.Store.ApplyRetention` | `scripts/dev-harness.py:2021-2098` | nothing while a receipt is pending; otherwise the policy's items, and each tag removed or reported |
| `Retention.Store.EstimateOrApply` | `scripts/dev-harness.py:2115-2136` | a blocked rollback target removes nothing; the list names exactly what the store contains before a real run and not after it, in a dry run too |
| `Retention.Store.Prune` | `scripts/dev-harness.py:3785-3821` | refused while something is unfinished; lists exactly what a real run leaves out, each owned tag is removed or left over; rollback material and waiting candidates survive it, also when it fails half-way |
| `Retention.ListsWhatGoes` | `scripts/dev-harness.py:2045-2098` | directories, archives, build directories, temporary files, app backups and snapshots are listed if and only if they are there and do not stay |
| `Retention.Store.PrunedIsThePolicy` | `scripts/dev-harness.py:931-945` | what stays is the active manifest's, its parent's and every ready candidate's directory, with its app, and with its archive if it is the parent's |
| `Retention.Store.TargetIsTheParent` | `scripts/dev-harness.py:1972-1994` | the rollback target is the parent of the active manifest when that is intact and filed under its own identifier, and blocked exactly when there is another parent |
| `Retention.Store.Build` | `scripts/dev-harness.py:1874-1884` | the new candidate and the rollback material survive the retention after a build, and it is recorded unless that retention fails |
| `Retention.Run` | `scripts/dev-harness.py:2021-2136` | over any builds and prunes the active app and the rollback material stay |
| `Retention.PruneTwice` | `scripts/dev-harness.py:2115-2136` | a prune that went through leaves nothing for the next |
| `Retention.TrimmedIsClean` | `scripts/dev-harness.py:2045-2065` | nothing stale is left in the directories that are kept |
| `CheckedBase.ChainIsUnique` | `scripts/validate-pr-metadata.py:235-248` | accepted rows are the one single-parent chain of that length, whatever order they were printed in |
| `CheckedBase.ChainRange` | `scripts/validate-pr-metadata.py:250-251` | a chain of n rows has exactly n commits between its bottom and its tip |
| `CheckedBase.LinearRows` | `scripts/validate-pr-metadata.py:235-248` | rows accepted are exactly the chain of the asked size from the asked commit; where a squash is allowed, exactly a readable history gets an answer |
| `RefusedSquash.InterleavedSquashIsRefused` | `scripts/validate-pr-metadata.py:242-244` | a repository and a genuine squash in it whose base is refused, although git answers every question by its laws |
| `CheckedBase.Predecessor` | `scripts/validate-pr-metadata.py:250-251` | the parent below a chain of the asked size |
| `CheckedBase.ReplayMatches` | `scripts/validate-pr-metadata.py:292-303` | true exactly when git reproduces the tree of every replayed commit, and given up exactly when a replay conflicts above reproduced ones |
| `CheckedBase.SquashAttemptMerges` | `scripts/validate-pr-metadata.py:291-303` | the replays tried on a squash onto an independent target never conflict, however far they get |
| `CheckedBase.ReplayCarriesSource` | `scripts/validate-pr-metadata.py:292-303` | on every path the target drift left alone, each replayed commit equals its source |
| `CheckedBase.ReplayKeepsTarget` | `scripts/validate-pr-metadata.py:292-303` | on every path no source commit touched, each replayed commit equals the target base |
| `CheckedBase.ChangedPaths` | `scripts/validate-pr-metadata.py:314-326` | exactly the paths touched by some commit of the rows |
| `CheckedBase.ChainChangesCover` | `scripts/validate-pr-metadata.py:328` | a path changed end to end is changed by some commit of the chain |
| `CheckedBase.NoneBelow` | `scripts/validate-pr-metadata.py:329-334` | the upward walk finds every overlap of equal paths and of directories above them |
| `CheckedBase.IndependentSquash` | `scripts/validate-pr-metadata.py:305-338` | success proves a squash of changes independent of the target's, and no such squash fails the proof |
| `CheckedBase.LinearSource` | `scripts/validate-pr-metadata.py:288-338` | a linear source is accepted as a rebase or as an independent squash; a genuine rebase always, and a genuine squash if and only if the history below its merge is readable |
| `CheckedBase.TrueMerge` | `scripts/validate-pr-metadata.py:264-278` | a merge commit is accepted exactly when it has the head's tree, separates the announced commits and its target parent is the base or was merged before |
| `CheckedBase.SyncedRebase` | `scripts/validate-pr-metadata.py:350-381` | an accepted synchronized rebase has the head's tree and a replay for every commit below the terminal merge, and a genuine one is accepted |
| `CheckedBase.SyncedSource` | `scripts/validate-pr-metadata.py:340-382` | sources that incorporated their target are accepted only with the head's exact tree, and genuine squashes and rebases of them always |
| `CheckedBase.SyncedFormsDiffer` | `scripts/validate-pr-metadata.py:346-349` | a synchronized rebase never passes for a synchronized squash, which would return another base |
| `CheckedBase.OneParent` | `scripts/validate-pr-metadata.py:279-382` | a genuine rebase or synchronized form gets exactly its base, and a genuine squash exactly when its history is readable |
| `CheckedBase.ChainIsDistinct` | `scripts/validate-pr-metadata.py:237-240` | no commit comes twice in a chain, so the duplicate check refuses no chain |
| `CheckedBase.CheckedBaseOf` | `scripts/validate-pr-metadata.py:228-382` | every returned base is an ancestor of the head, separates exactly the announced commits and comes with its proof of the tree; every genuine form gets exactly its base, a squash if and only if its history is readable |
| `CheckedBase.SquashKeepsBothSides` | `scripts/validate-pr-metadata.py:335-338` | an accepted squash is the head on source paths and the target elsewhere, and a valid tree when both of these are |
| `CheckedBase.RebaseCarriesHead` | `scripts/validate-pr-metadata.py:292-303` | an accepted rebase carries the head wherever the target did not drift |
| `CheckedBase.AcceptedMergeCarriesHead` | `scripts/validate-pr-metadata.py:228-382` | so does every accepted merge, wherever the commit it was put on did not drift: its parent, or the one below all replayed commits |
| `Trees.IndependentMerge` | `scripts/validate-pr-metadata.py:335-337` | merging changes that do not meet yields each side's paths |
| `Trees.IndependentMergeIsValid` | `scripts/validate-pr-metadata.py:329-337` | and no path that is both file and directory |
| `ReleaseAttempts.ReleaseState.RecordedImages` | `infra/scripts/release-images.py:229-243` | an unfinished or unreadable attempt blocks the next one; a finished one supplies its side for the commit asked for |
| `ReleaseAttempts.SideIsRecorded` | `infra/scripts/release-images.py:239-243` | a deployed result leaves the candidate's commit and images, any other result the baseline's |
| `ReleaseAttempts.ReleaseState.ClaimAttempt` | `infra/scripts/release-images.py:290-313` | the visible pointer follows everything it points to, an existing attempt is never claimed again, and on disk only the helper and the directory entry may be missing |
| `ReleaseAttempts.ReleaseState.Prepare` | `infra/scripts/release-images.py:315-360` | an unfinished attempt is never replaced, and nothing that can still reject the release leaves anything behind; a new attempt records the observed containers and exactly the requested candidate, and with an unchanged runtime the images the last result recorded |
| `ReleaseAttempts.ReleaseState.Verify` | `infra/scripts/release-images.py:362-373` | true exactly when something runs and every running container has its recorded image |
| `ReleaseAttempts.ReleaseState.Finish` | `infra/scripts/release-images.py:375-395` | a result is accepted if and only if the runtime is complete for it, that is, pinned to its images with every service that must run; one result is written, and it stays unacknowledged if and only if the failures satisfy the guard |
| `ReleaseAttempts.JustifiedIsComplete` | `infra/scripts/release-images.py:386-392` | the images and services compared are those of a complete runtime: for deployed the candidate's, with the media worker; for restored the previous ones, without it |
| `ReleaseAttempts.ReleaseState.WriteResult` | `infra/scripts/release-images.py:83-111` | an unacknowledged result stays if and only if the process died once it was visible or its removal failed; on disk it may stay in any case |
| `ReleaseAttempts.ReleaseState.CurrentOverride` | `infra/scripts/release-images.py:397-414` | an override describes every running container; there is one whenever a finished attempt of this commit still runs, and none while an attempt is unfinished |
| `ReleaseAttempts.ReleaseState.UnfinishedIsActive` | `infra/scripts/release-images.py:290-313` | an unfinished attempt is the active one and has its baseline, override and identity, before and after a power loss, unless its finish had failed with the result visible |
| `ReleaseAttempts.ReleaseState.ReplacedIsFinished` | `infra/scripts/release-images.py:229-243` | a replaced attempt is acknowledged, with a result justified by the runtime it was written for, or its finish failed with the result visible |
| `ReleaseAttempts.ReleaseState.PowerLoss` | `infra/scripts/release-images.py:289-313` | what remains are the linked directories with what reached the disk; the active attempt is recoverable if and only if its directory and its helper did, and exactly the results that did so unacknowledged come back |
| `ReleaseAttempts.ReleaseState.WritesBack` | `infra/scripts/release-images.py:302-311` | any chosen entries reach the disk at any time, exactly those, and no baseline or acknowledged attempt there changes |
| `ReleaseAttempts.ReleaseState.SideGoesOn` | `infra/scripts/release-images.py:246-249` | while the runtime is the one of an acknowledged result, every running service goes on with the image that result recorded |
| `ReleaseAttempts.PreviousImages` | `infra/scripts/release-images.py:246-249` | every previous service gets an image: the observed one where it runs, else the recorded one, else the local one |
| `ReleaseAttempts.CandidateImages` | `infra/scripts/release-images.py:252-262` | every candidate service gets an image: the built one, else the previous one of an unchanged reference, else the pulled one |
| `ReleaseAttempts.Run` | `infra/scripts/release-images.py:290-395` | over any commands and power losses, attempts whose directory is on disk keep baseline and acknowledged result; without a power loss nothing recorded is ever rewritten |
| `ReleaseAttempts.ReleaseState.AcknowledgedWhenReplaced` | `infra/scripts/release-images.py:229-243` | while every visible result is acknowledged, a replaced attempt that kept its result is on disk as it is visible |
| `ReleaseAttempts.RunFromEmpty` | `infra/scripts/release-images.py:83-111` | from an empty log every replaced attempt is acknowledged and on disk, if no finish failed with its result visible, or none slipped and no power was lost |
| `ReleaseAttempts.PreparedAttemptVanishes` | `infra/scripts/release-images.py:290-313` | an undisturbed prepare whose attempt a power loss takes, while the pointer to it stays and blocks the next |
| `ReleaseAttempts.HelperIsMissing` | `infra/scripts/release-images.py:304-311` | a claim that keeps its baseline and loses its helper |
| `ReleaseAttempts.UnacknowledgedResult` | `infra/scripts/release-images.py:83-111` | a finish that dies leaves a result nobody acknowledged |
| `ReleaseAttempts.UnacknowledgedResultIsReplaced` | `infra/scripts/release-images.py:229-243` | the next prepare takes that result as finished |
| `ReleaseAttempts.RemovedResultReturns` | `infra/scripts/release-images.py:103-106` | a result that was removed again and comes back with the power |
| `SwiftMasker.MaskKeepsOffsets` | `scripts/check_notification_retirement.py:51-52` | length and newlines stay, every other character is unchanged or a space |
| `SwiftMasker.KeptIsVisible` | `scripts/check_notification_retirement.py:78-117` | only code stays visible, and there no quote and no comment opener |
| `SwiftMasker.LiteralMask` | `scripts/check_notification_retirement.py:54-76` | a literal without quotes and escapes is blanked whole, and code goes on behind it |
| `SwiftMasker.MaskIsPlain` | `scripts/check_notification_retirement.py:42-120` | the result has no quote and no comment opener |
| `SwiftMasker.MaskingIsIdempotent` | `scripts/check_notification_retirement.py:42-120` | masking twice is masking once |
| `SwiftMasker.PlainIsUnchanged` | `scripts/check_notification_retirement.py:78-117` | text without quotes and comment openers is left alone |
| `SwiftMasker.LineCommentMask` | `scripts/check_notification_retirement.py:81-85` | a line comment is blanked up to its newline, where code goes on |
| `SwiftMasker.Scanner.ScanString` | `scripts/check_notification_retirement.py:54-76` | the string scanner ends where the automaton leaves the literal, having blanked the same characters |
| `SwiftMasker.Scanner.ScanInterpolation` | `scripts/check_notification_retirement.py:66-71` | interpolated code returns at the parenthesis the automaton closes |
| `SwiftMasker.Scanner.ScanCode` | `scripts/check_notification_retirement.py:78-117` | the code scanner follows the automaton through comments, literals and parentheses |
| `SwiftMasker.Scanner.BlockEnd` | `scripts/check_notification_retirement.py:86-98` | nested block comments end where the automaton closes the last of them |
| `SwiftMasker.Masked` | `scripts/check_notification_retirement.py:42-120` | blanking in place yields the automaton's output on every input |
| `SwiftGrammar.SourceMask` | `scripts/check_notification_retirement.py:42-120` | a source with a whole syntax tree is masked to what its tree shows |
| `SwiftGrammar.CodeMask` | `scripts/check_notification_retirement.py:78-117` | code with comments, literals and paired parentheses is shown as its tree says, and read on behind it as if nothing had been there |
| `SwiftGrammar.ContentMask` | `scripts/check_notification_retirement.py:54-76` | the text of a literal is blanked up to the delimiter with its own quotes and hashes, escapes and inner quotes included, but interpolated code is shown |
| `SwiftGrammar.RemarkMask` | `scripts/check_notification_retirement.py:86-98` | block comments are blanked to any depth of nesting |
| `SwiftGrammar.EmptyLiteral` | `scripts/check_notification_retirement.py:56-64` | two quotes without a third are an empty literal, and code goes on behind it |
| `SwiftSources.EverySourceMask` | `scripts/check_notification_retirement.py:42-120` | every source has a syntax tree, which may break off at its end, and is masked to what the tree shows |
| `SwiftSources.AnyTreeMask` | `scripts/check_notification_retirement.py:42-120` | and so it is for any tree of it |
| `SwiftSources.OpenRemarkMask` | `scripts/check_notification_retirement.py:86-98` | a block comment that is never closed is blanked to the end of the source |
| `SwiftSources.OpenContentMask` | `scripts/check_notification_retirement.py:54-76` | a literal that is never closed is blanked to the end, but for interpolated code, closed or not |
| `TypeMembers.TypeBody` | `scripts/check_notification_retirement.py:123-147` | the body ends with the type and shows a character exactly at brace depth one and argument depth zero |
| `TypeMembers.DirectTypeMembers` | `scripts/check_notification_retirement.py:123-147` | the view is aligned with the source and shows only its own characters |
| `AllocatedStorage.Normalize` | `infra/scripts/posthog-storage.py:87-100` | the roots loop equals its specification |
| `AllocatedStorage.WalkRoot` | `infra/scripts/posthog-storage.py:104-133` | the worklist loop equals its specification and terminates |
| `AllocatedStorage.Allocate` | `infra/scripts/posthog-storage.py:87-134` | the program equals its specification |
| `AllocatedStorage.WalkSound` | `infra/scripts/posthog-storage.py:107-133` | a walk counts each new inode once, in its class, and leaves no entry of a seen directory behind |
| `AllocatedStorage.WalkAllSound` | `infra/scripts/posthog-storage.py:101-134` | all walks together count every area and nothing else |
| `AllocatedStorage.AreasRepresent` | `infra/scripts/posthog-storage.py:87-100` | every root lies in an area of its class and every area is a root |
| `AllocatedStorage.NoneBelowAnEarlier` | `infra/scripts/posthog-storage.py:92-100` | a root below an earlier area adds none |
| `AllocatedStorage.EachInodeIsCountedOnce` | `infra/scripts/posthog-storage.py:87-134` | each class amounts to the blocks of the distinct inodes below its roots |
| `AllocatedStorage.MeasuredIsUnambiguous` | `infra/scripts/posthog-storage.py:107-131` | success means one class per inode, one device per root, and an owned target for every link |
| `AllocatedStorage.UnambiguousIsMeasured` | `infra/scripts/posthog-storage.py:87-134` | unambiguous storage is always measured |
| `AllocatedStorage.MeasuredIffUnambiguous` | `infra/scripts/posthog-storage.py:87-134` | when the paths of a link resolve alike, a measurement succeeds if and only if the storage is unambiguous |
| `AllocatedStorage.OrderDoesNotMatter` | `infra/scripts/posthog-storage.py:87-134` | two measurements of the same storage agree, in any order of roots and entries |
| `AllocatedStorage.OrderDoesNotDecide` | `infra/scripts/posthog-storage.py:87-134` | when the paths of a link resolve alike, the order does not decide whether there is a measurement |
| `AllocatedStorage.EntryOrderDecidesForSharedLinks` | `infra/scripts/posthog-storage.py:115-128` | for a hard-linked symbolic link the order of entries can decide whether there is a measurement |
| `EntryOrder.MetFirstItFails` | `infra/scripts/posthog-storage.py:107-128` | a link with a name that does not fit, in the first area with one of its names, makes the measurement fail in the order that meets it first |
| `EntryOrder.FitIsMeasured` | `infra/scripts/posthog-storage.py:87-134` | storage whose links fit under all names in their first area is measured in every order |
| `EntryOrder.EveryOrderIsMeasured` | `infra/scripts/posthog-storage.py:87-134` | storage is measured in every order of its entries if and only if classes share no inode, roots no file system boundary, and first names fit |
| `GrowthAnchor.AmountIsTheDifference` | `infra/scripts/posthog-storage.py:275` | a rate over its interval is the difference of the two sizes |
| `GrowthAnchor.MeasuredOnceMore` | `infra/scripts/posthog-storage.py:273-281` | one more interval keeps the account |
| `GrowthAnchor.NoGap` | `infra/scripts/posthog-storage.py:273-281` | every moment since the first sample lies in exactly one interval |
| `GrowthAnchor.GrewDescribes` | `infra/scripts/posthog-storage.py:273-281` | a growth covers the interval between the samples, amounts to the differences, and is flagged exactly when a class became smaller |
| `GrowthAnchor.WhatIsRefused` | `infra/scripts/posthog-storage.py:250-266` | nothing is measured exactly against an unreadable anchor, an unusable one of the same inventory, or one from the future, and a readable one is kept |
| `GrowthAnchor.Store.Update` | `infra/scripts/posthog-storage.py:250-282` | measured growth adds up, class by class, to the change since the first sample, and the anchor written passes the next validation; a due sample is measured against the anchor and flagged exactly when a class became smaller, an early one repeats the last growth |
| `IncidentLatch.Latch.Transition` | `infra/scripts/posthog-capacity.py:40-95` | admitted exactly for a request, or any action on an open incident with a verified runtime; an incident keeps its identifier, its reasons only grow, and protection stays |
| `IncidentLatch.Latch.Restore` | `infra/scripts/posthog-capacity.py:98-147` | exactly a reviewed receipt that names the incident and was approved after it began closes it |
| `IncidentLatch.Latch.ReadStatus` | `infra/scripts/posthog-capacity.py:64-68` | reading a latch that is there changes nothing; one that is not there starts observed |
| `IncidentLatch.Run` | `infra/scripts/posthog-capacity.py:40-147` | every file written in any run passes the next validation and follows its predecessor |
| `IncidentLatch.OnlyAReceiptEndsAnIncident` | `infra/scripts/posthog-capacity.py:78-95` | in every history an incident persists and grows until a receipt that names it |
| `IncidentLatch.ProtectionWasReadBack` | `infra/scripts/posthog-capacity.py:71-80` | protection is recorded only after the running container was read back |
| `IncidentLatch.ReadsBackIff` | `infra/scripts/posthog-capacity.py:71-80` | reading back succeeds if and only if each switch has exactly one row, with the value that disables it |
| `FeatureClaims.AvailableId` | `scripts/claim-feature.py:494-500` | the first free ID at or above the start, or proof that none is left |
| `FeatureClaims.NextFeatureId` | `scripts/claim-feature.py:503-517` | the first ID after the spec sequence that nobody holds, or proof that none is left |
| `FeatureClaims.NextIsFound` | `scripts/claim-feature.py:503-517` | there is one next ID, and the search does not miss it |
| `FeatureClaims.WhereItStarts` | `scripts/claim-feature.py:508-512` | the sequence starts one past a spec that counts, and past every other one |
| `FeatureClaims.WhoGetsPast` | `scripts/claim-feature.py:570-602` | before the lock a named claim gets past exactly when it is recorded, completes its draft, or has an ID that is free and within the maximum |
| `FeatureClaims.ChangesAtMostOnce` | `scripts/claim-feature.py:611-623` | a recorded claim changes at most once, and then only gains its issue |
| `FeatureClaims.Registry.EnterClaim` | `scripts/claim-feature.py:604-625` | under the lock a claim succeeds exactly when the file can be read and it is new, the same, or completes a draft |
| `FeatureClaims.Registry.Allocate` | `scripts/claim-feature.py:736-766` | an allocation never overwrites a claim and hands out the requested ID exactly when it is the next free one at that moment; it records the given issue, or the created one for want of it |
| `FeatureClaims.Registry.Run` | `scripts/claim-feature.py:570-623` | any interleaving, with checks made before the lock on stale data, keeps every recorded claim and every promise without a power loss, and with it what the version on disk promised unless that is torn |
| `FeatureClaims.Registry.PowerLoss` | `scripts/claim-feature.py:426-436` | an earlier version comes back with exactly the promises made under it, or a file that cannot be read |
| `FeatureClaims.OneFeatureTwice` | `scripts/claim-feature.py:426-436` | a granted claim that goes with the power, and its ID granted to another branch |
| `FeatureClaims.Registry.GrantsAgree` | `scripts/claim-feature.py:570-625` | two processes that succeeded for one ID agree on branch, slug and issue |
| `EvidenceEncoding.BigEndianValue` | `scripts/emit-ci-evidence.py:71` | a length is recovered from its bytes |
| `EvidenceEncoding.SplitJoined` | `scripts/emit-ci-evidence.py:68` | a relative path is recovered from its slash-separated form |
| `EvidenceEncoding.EntryBack` | `scripts/emit-ci-evidence.py:70-94` | one entry is decoded from the front of any stream |
| `EvidenceEncoding.DecodeStream` | `scripts/emit-ci-evidence.py:66-94` | the decoder recovers every entry of a directory |
| `EvidenceEncoding.SameBytesIffSameEntries` | `scripts/emit-ci-evidence.py:66-94` | two directories feed the same bytes if and only if they hold the same entries |
| `EvidenceEncoding.SameBytesIffSameChildren` | `scripts/emit-ci-evidence.py:66-94` | two directories feed the same bytes if and only if each child has its like in the other: same path and kind, same target, or same mode bits and content |
| `EvidenceEncoding.Hasher.FeedFile` | `scripts/emit-ci-evidence.py:79-94` | a file is fed whole, or refused when it was not the file announced |
| `EvidenceEncoding.Hasher.FeedDirectory` | `scripts/emit-ci-evidence.py:66-94` | the program feeds the encoding of the sorted entries, or refuses |

## Left out

- Docker, Git, GitHub, signing and file system calls are steps, relations or maps that may fail; their output formats and the checks of ownership, modes and symbolic links on state files are not modelled.
- SHA-256 and JSON: a digest is the value it identifies. The digest of an app bundle is taken as injective for the apps that occur; the tree digest of the repository is not claimed to be injective in general.
- `SchemaTransition.World.FinishedOnOneSide`: says nothing about the rollback marker, which may stay beside a finished journal when the write of the last phase fails after it became visible.
- `SchemaTransition.World.RunAndRecover`: excepts transitions whose snapshots are gone, because the code admits the run of `SnapshotsVanish`.
- `SchemaTransition.World.NoWriteIsLost`: excepts volumes torn by a restore whose snapshots are gone, because the code admits the run of `WritesVanish`.
- `SchemaTransition.World.RestoreVolume`: the sync inside the container is taken to reach the entry of the mounted snapshot directory; what else it syncs is left to other write-backs.
- `SchemaTransition.World.RunMigration`: the migration is taken to change the schema of its database only and to keep every application write in it; what its scripts do is not modelled.
- `OrdinaryTransition.World.Transition`: the checks of checkouts, controllers and process identities before an operation are one step that may fail.
- `OrdinaryTransition.World.RunAndRepeat`: excepts operations whose backup is not durable, because the code admits the runs of `ReceiptOutlivesItsBackup` and `ReceiptReturnsWithoutBackup`.
- `CheckedBase.CheckedBaseOf`: no rename detection takes place, so that git merges changes that do not meet; beyond that the three-way merge is known only by its laws for an unchanged side.
- `CheckedBase.ReplayKeepsTarget`: a path counts as left alone by the pull request when no single commit touches it, which is more than an unchanged end-to-end difference.
- `ReleaseAttempts.ReleaseState.ClaimAttempt`: promises of the disk less than the docstring does, because the entries of the attempt directory and of the helper are not synced; the state directory, its `attempts` directory and the first entry of `active.json` are taken as there.
- `ReleaseAttempts.RunFromEmpty`: with power losses a failed finish whose result was visible is excluded even when the result was removed, because the code admits the run of `RemovedResultReturns`.
- `ReleaseAttempts.Run`: commands are serialized, as the deploy lock does; the build, pull and tag commands are steps.
- `SwiftMasker.Masked`: the recursion limit of the Python interpreter on deeply nested input.
- `TypeMembers.DirectTypeMembers`: the regular expression that finds the declaration; its end is a parameter.
- `AllocatedStorage.Allocate`: path resolution is given by the file system value, and the storage does not change during a measurement.
- `EntryOrder.EveryOrderIsMeasured`: the order of the roots stays as it is; only the entries of directories are listed in every order.
- `GrowthAnchor.Store.Update`: rates are reals, not floating-point numbers; the sums over live and archived classes and the event count are not modelled.
- `IncidentLatch.Latch.Restore`: the capacity decision, the proofs and the growth limits are booleans of a review; field-by-field validation of samples and budgets is not modelled.
- `FeatureClaims.Registry.Run`: registry keys are numbers, so keys not written by the program, with extra zeros, do not occur; the syntax of branches and slugs is not checked; a crash between the registry and the active pointer is a stop after the write.
- `EvidenceEncoding.SameBytesIffSameEntries`: compares directories; a single file is hashed as its bare bytes, so a file holding the stream of a directory has that directory's digest.
- `Retention.Store.Prune`: a removal may fail between two artifact directories but not inside one; sizes are not counted, and nothing is claimed about tags that a build could not remove.
- `Retention.Store.Build`: the build of a candidate for the first time; what a repeated build of a known source reuses is not modelled.
- `Retention.Run`: rollbacks are not among the events, since the parent of the manifest a rollback activates may have no artifacts.
- `VolumeTool.Tool.RoundTrip`: modification times, sparse files and hard links between regular files are not part of an inventory.
- The adoption of existing state, proof caches, thread pools, receipts of continuous integration, smoke tests and the remaining validators: each decides one input by one condition, so a contract could only repeat its body.

# Verified model of the neon-selfhost control plane

The control plane manages branches of a Postgres installation: it records them, gives each of them a
timeline in the pageserver, publishes them on ports, hands the primary compute over from one branch to
another, logs its operations, and restores its own two databases.  This project models the protocols it
runs to do so and proves what they keep.  Everything outside them (files, containers, the pageserver,
table writes, clocks, random ids) is abstract state whose every call may fail.

| file | models | main results |
|---|---|---|
| `Disk.dfy`, `DatabaseRestore.dfy` | replacing two databases through a stage directory, rollback copies, a journal, and recovery on lock | over any number of restores and of changes in between, with crashes anywhere and power losses, the databases are one whole pair and a success is final; the lock is taken exactly when recovery is possible, and process crashes never make it impossible; one failing step never leaves a mixture; when exactly a power loss during recovery is safe, and when exactly later changes last |
| `Selections.dfy`, `PrimaryHandoff.dfy`, `PrimaryDrain.dfy`, `PrimaryServes.dfy` | the interleaving of one operation thread, any number of clients and a compute that reboots on its own; the drain before a branch's own compute is removed | no timeline ever has two writers; granted routes lead to the right timeline; every connection releases its lease exactly once; when the drain protects open connections, and a run in which it does not; from every clean state the primary comes to serve a branch, then another one, and the clients of both get through |
| `PrimaryEndpoint.dfy` | starting, stopping and switching the primary | a switch is a transaction: it takes effect, acknowledged by the selection it wrote, or is undone with the compute booted and verified again; which of the two an error means; a failed start is cleaned up; if nothing fails it does take effect, and of a switch in which one call fails it is known how it ends |
| `StaleSelections.dfy` | the selection file of a branch's own compute, written by operations and by clients that have read the record earlier | no file names a deleted timeline in the runs that wait for such clients; when exactly a deletion is safe, and a run in which it is not |
| `OperationErrors.dfy`, `TimelineSagas.dfy` | creating, restoring, resetting, deleting and switching branches, with compensation | no deleted timeline is referred to; no timeline is lost unless a failed compensation is reported; no timeline that a user let go of, or that was not the controller's, is deleted; a failure is classified by what failed first; without a failing call each operation succeeds exactly when its request can be met; the resolver ends on every parent graph |
| `OperationLog.dfy` | the operation manager and its store | write-ahead discipline over faults and over processes that end anywhere; without a fault every operation runs and returns what its body did |
| `BranchStore.dfy`, `BranchPorts.dfy` | the branch store, its table, and publishing on ports | every reachable state reloads as it is; no two active branches share a port; a new one gets the lowest free port |
| `SqlGrammar.dfy`, `SqlLexemes.dfy`, `SqlScanner.dfy`, `SchemaQueries.dfy` | the statement scanner and the printer of inspection queries | the scanner refines a lexical grammar; a text lexes to a sequence of lexemes exactly when that sequence is a reading of it, a notion that names no scanning function; the count composes, the printer agrees with the scanner and its quoting round-trips |

Classes model the objects that the program updates in place: their methods are proved against what the
operation promises about the old and the new state.  The handoff between threads is a state machine, with
one event for each indivisible step.  Whether the calls of an operation fail is a parameter, `answers` or `calm`, so
that a contract can say both what holds whatever fails and what is achieved when nothing does.

Seven properties turn out narrower than one would hope, and are stated exactly:

* A restore survives power losses only if none comes while a recovery changes databases under a journal whose
  directory entry is not durable.  Recovery does not sync the directory before it acts, so a process crash
  right after the journal's rename, followed by a power loss during the next recovery, can lose a database:
  `CrashAfterRenameIsUnanchored` shows the disk, and `RecoveryIsSafeExactlyWhenAnchored` gives the condition in
  both directions.  `RunRestores` leaves out only power losses in that window, from the first change of the
  recovery to its directory sync.  Process crashes alone, in any number and anywhere, are always survived: after
  them the next attempt to take the lock succeeds, if none of its own steps fails (`RunThenLock`).
* Taking the lock succeeds, if none of its own steps fails, exactly when there is no journal or every copy that the
  journal names is sound (`AcquireLock`).  A restore can itself lead to the other case: if the directory sync after the
  journal's rename fails, it removes its copies and leaves the journal.  The databases are untouched, but every later
  attempt to take the lock fails; `UnsyncedJournalLocksOut` shows that disk.
* What is written after a restore outlasts a power loss only once the removal of the restore's journal is durable.
  A commit, or a rollback, whose directory sync failed leaves the journal able to come back; taking the lock where
  no journal is found does not sync; and the recovery after a power loss then undoes everything written since.
  `UnsyncedCommitUndoesChanges` shows the disk, `ChangesLastExactlyWhenNeverBack` gives the condition in both
  directions, and `RunRestores` tells for every history which pairs are possible.  A restore that succeeds, a lock
  that has recovered, any later sync of the directory, and a power loss itself each settle the matter.
* The drain that comes before a branch's compute is removed reads a count of open connections, and stopping the
  branch's listener discards that count while the connections live on.  `NoConnectionCut` holds for the runs in which
  no listener is stopped while a connection to its branch is open; `DiscardCountsRight` says that the count stays
  right exactly then, and `ConnectionIsCut` gives a run, from any clean state, in which an open connection is cut.
* An error of a start, a stop or a switch of the primary does not say that nothing has happened.  The manager commits
  and opens the routes, and only then asks for the status that it reports; if that fails the caller sees nothing but an
  error.  The contracts of `Start`, `Stop` and `SwitchToBranch` name the moment of the commit and say that memory has
  changed if and only if it was reached, and that the report fails exactly when one of its two questions does;
  `SwitchThatReportsFailure` has such a switch, from any honest world.  The handlers are modelled with that outcome.
* A client reads the record of its branch before it writes the branch's selection file, and nothing stops an operation
  from deleting the timeline in between.  `NoFileIsStale` holds for the runs in which a timeline is deleted only when no
  client has written it or is about to, `DeletionIsSafeExactlyWhenForgotten` says that each deletion needs that, and
  `RollbackLeavesStaleFile` is the rollback of a reset that does not have it.
* A printed size query gives back its two names if and only if neither name holds a NUL byte, because the
  identifier sanitiser drops such bytes (`SizeQueryRoundTrip`).

The program's own lexical grammar is modelled, not that of section 4.1 (Lexical Structure) of the
PostgreSQL documentation: block comments do not nest and a backslash escapes the next byte in every
single-quoted string.

## Model

| member | source | states |
|---|---|---|
| DatabaseRestore.DataDirectory.RunRestores | internal/controllerdb/database.go:34-224 | over any history of restores, lock attempts, changes to the databases while the lock is held, directory syncs and power losses (but for one that comes while a recovery is exposed), with failures and crashes at any step: whoever gets the lock finds one whole pair, never a mixture, and one of those that the history leaves possible; a restore that succeeds leaves its own backup alone, and a change leaves what it wrote alone unless a journal may still come back |
| DatabaseRestore.DataDirectory.RunThenLock | internal/controllerdb/database.go:34-224 | after any history of restores, changes and locks in which processes crash anywhere but no step reports a failure and the power stays on, the next attempt to take the lock succeeds if its own steps do |
| DatabaseRestore.ChangesLastExactlyWhenNeverBack | internal/controllerdb/database.go:453-484 | changes made under the lock are what every power loss and the recovery after it lead to if and only if the journal's removal is durable, or the journal that may come back would bring back the same pair |
| DatabaseRestore.UnsyncedCommitUndoesChanges | internal/controllerdb/database.go:218-220 | the disk that a commit leaves whose directory sync failed, and the power loss after which recovery undoes whatever was written since |
| DatabaseRestore.DataDirectory.ChangeDatabases | internal/controllerdb/database.go:34-61 | the holder of the lock may change the databases in any way, and what is on the disk can still be recovered; a journal that may come back still finds the copies of its own pair |
| DatabaseRestore.DataDirectory.Restore | internal/controllerdb/database.go:129-224 | begun on whatever an earlier restore left, it first recovers that; wherever it stops its disk can be recovered to the pair it found or, once committed, to the backup; success leaves the backup durable, without journal, side files or staged files; if none of its steps fails it succeeds exactly when the backup and what it replaces are sound, its rollback directory is new and an earlier restore can be recovered; if it has begun and reports an error of which only one failed step is the cause, the databases are the old pair or the backup already, without any recovery |
| DatabaseRestore.DataDirectory.AcquireLock | internal/controllerdb/database.go:34-61 | from any state that a restore or recovery may leave, taking the lock leaves no journal and one whole pair, the one that the disk found leads to, durable if there was a journal; it succeeds, if none of its own steps fails, exactly when there is no journal or every copy that the journal names is sound; a missing or unsound copy fails it with nothing changed; without a journal nothing changes, nor becomes durable |
| DatabaseRestore.DataDirectory.RecoverInterruptedRestore | internal/controllerdb/database.go:453-470 | recovery can be repeated after any crash, also under a journal that is not durable, fails closed on an unsound copy, and ends with the old pair fresh and durable on the disk; if none of its steps fails it does end so exactly when there is no journal or every copy that it names is sound |
| DatabaseRestore.DataDirectory.RollbackInterruptedRestore | internal/controllerdb/database.go:472-484 | the journal goes only after both databases are durably back; stopping anywhere keeps the copies and the journal that undo the restore; only a journal that was not durable exposes it to a power loss, and only until the directory is synced |
| DatabaseRestore.DataDirectory.RestoreRollback | internal/controllerdb/database.go:358-409 | unless every needed copy is sound nothing changes; success makes each database its copy, or absent as it was, durably and without side files; copies and journal are untouched |
| DatabaseRestore.DataDirectory.ReplaceUnderJournal | internal/controllerdb/database.go:193-223 | under a durable journal every error is undone or leaves the journal in charge, and only a commit with durable new databases removes it; if only one step fails, the journal stays only over new databases that are all in place |
| DatabaseRestore.DataDirectory.WriteRestoreJournal | internal/controllerdb/database.go:421-451 | success means that the journal and every rollback copy are durable; failure that the databases are untouched, any copy that may be found is honest, and the journal is there or never was |
| DatabaseRestore.DataDirectory.CopyOriginals | internal/controllerdb/database.go:175-189 | the rollback copies are exactly of the databases that were there, hold what these read as, and are durable |
| DatabaseRestore.DataDirectory.RemoveSqliteFiles | internal/controllerdb/database.go:411-419 | success means that the database and both its side files are gone, and nothing else changed |
| DatabaseRestore.DataDirectory.PowerLoss | internal/controllerdb/database.go:486-493 | whichever changes since the last sync of a directory survive, what is left can be recovered; the restore in charge is the last one or, if the journal of the one before comes back, that one |
| DatabaseRestore.SurvivorsRecover | internal/controllerdb/database.go:358-484 | every state that a power loss may leave of a recoverable disk is recoverable; a journal that comes back turns a commit, or the end of an earlier restore, into a rollback to the pair before it |
| DatabaseRestore.NextIsReady | internal/controllerdb/database.go:129-148 | a restore may begin on whatever the lock has recovered: at most one earlier journal can still come back, and what it then undoes is intact |
| DatabaseRestore.RecoveryIsSafeExactlyWhenAnchored | internal/controllerdb/database.go:358-404 | with no earlier journal left, once recovery has removed a database, every power loss leaves the old pair salvageable if and only if the journal and its copies were durable before |
| DatabaseRestore.CrashAfterRenameIsUnanchored | internal/controllerdb/database.go:447-450 | the disk that a crash between the journal's rename and the directory sync leaves, and the power loss during the recovery that follows which leaves neither a database nor the journal |
| DatabaseRestore.UnsyncedJournalLocksOut | internal/controllerdb/database.go:169-192 | the disk that a restore leaves whose directory sync failed after the journal was renamed: the databases read as before and stay recoverable, the journal names copies that are gone, and so taking the lock can no longer succeed |
| DatabaseRestore.IntactIsSecured | internal/controllerdb/database.go:359-370 | copies found intact under a durable journal are the right ones for good |
| DatabaseRestore.JournalRenamed | internal/controllerdb/database.go:447-450 | between the journal's rename and the sync either journal state may survive, and both are safe |
| DatabaseRestore.RemovalLeaves | internal/controllerdb/database.go:169-173 | whatever remains of a rollback directory removed after a failure cannot mislead a recovery, as its journal still stands or never comes back |
| PrimaryHandoff.EveryRunIsSafe | internal/server/branch_endpoints.go:345-402 | over every interleaving of clients, operations, reboots, stopped listeners and failures: the compute of the branch that the primary serves never runs; a granted route is open and unreserved, and a primary-backed one leads to the client's own timeline, also after a reboot, while a lazy one is to a branch the primary keeps off; every client gives its lease back exactly once, whether the lookup fails, the route is refused, its compute was started or the primary was dialled; and while routes are open and the primary is up the selection file holds what is selected |
| PrimaryHandoff.NoStartInFlight | internal/server/primary_endpoint.go:423-429 | when a transition begins no client holds the route lease, so no start of a branch compute and no dial to the primary is in flight |
| PrimaryDrain.NoConnectionCut | internal/server/branch_endpoints.go:547-596 | over every run in which no listener is stopped while a connection to its branch is open: when a branch's compute is removed for the primary, no connection to the branch is open or has a route, although new ones may have arrived since the drain |
| PrimaryDrain.DiscardCountsRight | internal/server/branch_endpoints.go:769-787 | stopping a listener, which discards the count of its branch, leaves the count right if and only if no connection to the branch is open |
| PrimaryDrain.DiscardCuts | internal/server/branch_endpoints.go:547-596 | without that care: whatever connection to a branch's own running compute is open while the operation thread rests and no lease is out, stopping the branch's listener lets the drain pass and that compute be removed under it |
| PrimaryDrain.ConnectionIsCut | internal/server/branch_endpoints.go:483-493 | such a run exists from every clean state in which the compute has acknowledged what is selected: a client starts its branch's compute and is proxied to it, an unpublishing that fails after it has stopped the listener discards the count, the primary takes the branch over, and the running compute is removed while the client is still proxied to it |
| PrimaryHandoff.NextKeeps | internal/server/branch_endpoints.go:805-869 | every single step of a client, the outside world or an operation keeps the invariant, from any state that has it |
| PrimaryServes.PrimaryServes | internal/server/primary_endpoint.go:523-725 | from every clean state there is a run in which the primary is started and a client of the selected branch is proxied to it with the lease given back, and then the primary is switched to any other branch and a client of that one is proxied too, while the first is still connected |
| PrimaryServes.HandedOver | internal/server/branch_endpoints.go:805-869 | and from there a client of the branch that the primary has left is granted the other route, has a compute of that branch started for it and is proxied to it, with the lease given back, while the primary serves the other branch, whose name differs in more than case |
| PrimaryServes.AskedIsAnswered | internal/server/branch_endpoints.go:345-402 | in every reachable state a client that asks is granted the primary exactly if routes are open, its branch is unreserved, the compute has acknowledged the very timeline it wants and was found ready, the other route exactly if it wants another timeline and its branch is not the selected one, and is refused in every other case; it holds its lease meanwhile |
| PrimaryServes.SwitchSucceeds | internal/server/primary_endpoint.go:622-725 | from every state in which no operation runs, no lease is out and no connection to the branch is open, also with routes closed and whatever the compute is doing, there is a run that makes the primary serve the branch with routes open, and changes nothing else but that the own compute of the branch is gone |
| PrimaryServes.StartSucceeds | internal/server/primary_endpoint.go:523-594 | the same for starting the primary, be it up or down, on the branch that is selected |
| PrimaryServes.ResetSucceeds | internal/server/server.go:1128-1209 | a reset of the branch that the primary serves moves the primary to another timeline of that branch, with or without a compute of its own to be refreshed first |
| PrimaryServes.StopSucceeds | internal/server/primary_endpoint.go:596-620 | the primary can be stopped whatever it does, which opens the routes and changes nothing else |
| PrimaryServes.RefreshSucceeds | internal/server/branch_endpoints.go:507-545 | a reset of a branch that the primary does not serve can restart the running compute of that branch and leaves all else as it was |
| PrimaryServes.FailedSwitchGoesBack | internal/server/primary_endpoint.go:678-708 | from the states of a switch with the compute up, a switch that does not come up can be undone: the primary serves what the manager remembers again and routes are open |
| PrimaryServes.UnwrittenSwitchGoesBack | internal/server/primary_endpoint.go:664-676 | the same for a switch whose selection cannot be written, over a file that names what is remembered |
| PrimaryServes.EffectNeedsReadiness | internal/server/primary_endpoint.go:797-827 | an operation takes effect or counts as undone only while the compute is ready and the applied file acknowledges what the manager remembers from then on |
| PrimaryServes.OwnConnectionNeedsCompute | internal/server/branch_endpoints.go:842-868 | a connection to a branch's own compute goes on, after the start and after the dial, exactly while that compute runs, and ends otherwise |
| PrimaryEndpoint.Manager.SwitchToBranch | internal/server/primary_endpoint.go:622-725 | memory changes if and only if the switch was committed, and then branch, attachment and a generation never used before were in both files and acknowledged at that moment, nothing has replaced them since and routes are open, whether or not an error is reported; otherwise nothing remembered changes, and routes are closed, or the file is the previous one (or was never changed) and a compute that the manager found up has booted again since the stop and acknowledged the previous selection, while one found down is down; after the commit an error is reported exactly when one of the two last questions fails; if no call fails and the compute comes up the switch is committed; if exactly one call before the commit fails, over a file that names what is remembered and a compute that comes up otherwise, it is not, and routes end closed exactly if that call was for the generation, the status or the stop |
| PrimaryEndpoint.SwitchThatReportsFailure | internal/server/primary_endpoint.go:710-724 | from any honest world, with only the last status query failing, the switch reports an error although the target is selected, its selection is remembered and routes are open |
| PrimaryEndpoint.Manager.Connection | internal/server/primary_endpoint.go:245-307 | an answer needs the status and, while routes are open, the applied file; the primary is said to run exactly if it is up, and to be ready exactly if it is up and ready, routes are open and the applied file acknowledges what the manager remembers |
| PrimaryEndpoint.Manager.Start | internal/server/primary_endpoint.go:523-594 | memory changes if and only if the start was committed, and then the primary serves the timeline set for its branch, or the one remembered if none was set, the compute had acknowledged this very selection, in the applied file, under a fresh generation, and routes are open, whether or not an error is reported; otherwise nothing remembered changes, routes are closed, and the selection file was not written or the compute is down, unless a stop was refused; if no call fails, the compute comes up and there is a timeline to serve, the start is committed |
| PrimaryEndpoint.Manager.Stop | internal/server/primary_endpoint.go:596-620 | routes open exactly when the compute was stopped, whatever the selection file names; an error is reported exactly when the stop or one of the two questions after it fails, so it may come with the compute stopped |
| PrimaryEndpoint.Manager.WaitForApplied | internal/server/primary_endpoint.go:797-827 | success means that the applied file matches what is expected and was written from the selection file as it stands, not left by an earlier start |
| PrimaryEndpoint.Manager.Undo | internal/server/primary_endpoint.go:682-708 | a failed switch counts as stable only with the previous selection back in the file and, if the compute was up, acknowledged by it again |
| TimelineSagas.Controller.RunOperations | internal/server/server.go:555-1251 | over every serial run of creating, restoring, resetting, deleting, publishing, unpublishing, starting and switching with any failures, switches that take effect and report an error included: no active branch, not the primary manager, its selection file or its compute, and no published endpoint, as the operations point it, refers to a deleted timeline; no timeline is ever deleted that a successful deletion or reset let go of, or that was there before the controller; no two active branches share one, and unless a failed compensation is reported every timeline created is deleted, attached, or went with a successful deletion or reset |
| TimelineSagas.Controller.CreateBranch | internal/server/server.go:1061-1089 | success adds exactly the record, under its parent, and if it is to be published attaches it and publishes it on what it is attached to, and otherwise leaves it unpublished; failure leaves it as active as it was and loses no timeline unless a failed compensation is reported, and a single one never stands for both a record that stays and a timeline that is lost; the error is the refusal that applies or says why the first call that failed did; when no call fails it succeeds exactly if the name is free, the parent is active and what is to be published can be resolved; no other branch changes but to be attached, and no other endpoint moves |
| TimelineSagas.Controller.RestoreBranch | internal/server/server.go:974-1024 | success records a new branch on a fresh timeline that branches off the source's, and publishes it on that timeline if it is to be, and otherwise leaves it unpublished; failure loses no timeline unless a failed compensation is reported, and then one at most; the error is the refusal that applies or says why the first call that failed did; when no call fails it succeeds exactly if the source can be resolved, the time is within its history and the name is free; no other branch changes but to be attached, and no other endpoint moves |
| TimelineSagas.Controller.RecordRestored | internal/server/server.go:1001-1021 | success leaves the record on the new timeline and, if it is to be published, its endpoint on it too; whatever fails after the new timeline was made, publishing included, it is deleted once nothing refers to it or its deletion is reported |
| TimelineSagas.Controller.TakeBack | internal/server/server.go:1077-1086 | a branch that could not be published is marked as deleted and unpublished and its timeline is gone, or one more failed compensation is reported than the cause had; no other branch or endpoint changes; the error keeps its cause |
| TimelineSagas.Controller.ResetBranch | internal/server/server.go:1128-1209 | success gives the branch a fresh timeline off its parent's, keeps the old one as history and moves the primary and the published endpoint along; failure that reports no failed compensation leaves every attachment in the store, and the manager, the selection file and the endpoint as they were or pointed back, also after a switch that took effect and reported an error; in no case is the primary switched to another branch, another branch's endpoint moved, or another record changed but to be attached; the error keeps its cause; when no call fails it succeeds exactly if the branch is active, is not the root and its parent can be resolved |
| TimelineSagas.Controller.RollbackReset | internal/server/server.go:1166-1187 | wherever the primary was left, on the old timeline, the new one or between, the new timeline is deleted only after the store, the manager, the published endpoint and the primary, if it served the branch, are back on the old one; otherwise one more failed compensation is reported than the cause had; the cause is kept |
| TimelineSagas.Controller.DeleteBranch | internal/server/server.go:1239-1251 | success marks exactly this record as deleted and unpublished, never the root's, and its timeline stays with it; failure marks no record as deleted and changes no attachment, but may have unpublished this branch; when no call fails it succeeds exactly for an active branch that is not the root |
| TimelineSagas.Controller.PublishBranch | internal/server/server.go:555-577 | success leaves the branch attached and its endpoint pointed at what it is attached to; whatever fails, only unattached branches were attached on the way and no other endpoint moved; when no call fails it succeeds exactly if the branch can be resolved |
| TimelineSagas.Controller.SwitchPrimary | internal/server/server.go:902-935 | success selects the branch with its recorded timeline, in the selection file too; after an error the primary serves that branch and timeline all the same, or the manager remembers what it did, and the file and the compute name only what they did, what is remembered, or the branch's recorded timeline; when no call fails it succeeds exactly if the branch can be resolved |
| TimelineSagas.Controller.StartPrimary | internal/server/server.go:806-842 | success attaches the primary, and its selection file, to the recorded timeline of the branch that is selected; after an error it is attached to that or to what it was; the selection never changes; when no call fails it succeeds exactly if the selected branch can be resolved |
| TimelineSagas.Controller.SwitchToBranch | internal/server/primary_endpoint.go:622-725 | as the handlers see it: an error comes before the switch takes effect or after |
| StaleSelections.NoFileIsStale | internal/server/branch_endpoints.go:805-850 | over every interleaving of operations and of clients that read a record and write it into the file later: no file names a deleted timeline, so long as a timeline is deleted only when no client has written it or is about to |
| StaleSelections.DeletionIsSafeExactlyWhenForgotten | internal/server/server.go:1166-1187 | of each single deletion: no file is stale then or after the next step of any client if and only if no client has written that timeline and none is about to |
| StaleSelections.RollbackLeavesStaleFile | internal/server/branch_endpoints.go:814-844 | a client of a published branch reads the record between a reset's store write and its rollback, and writes it after: the store and the operations are back on the old timeline, and the file names the deleted one |
| TimelineSagas.Controller.EnsureBranchPublished | internal/server/server.go:1504-1532 | success leaves the branch attached and published on its own timeline; a failure that leaves it attached has lost no timeline and reports no compensation |
| TimelineSagas.Controller.ResolveForPublish | internal/server/server.go:1548-1575 | trying again while a branch is not found changes nothing in between, and a branch that cannot be resolved is left, with everything else, exactly as it was |
| TimelineSagas.Controller.Cleanup | internal/server/server.go:1534-1546 | the timeline is gone, or one more failed compensation is reported than the cause had; without its compensations the error is the cause's either way |
| TimelineSagas.Controller.AttachNew | internal/server/branch_attachment.go:210-212 | a timeline whose attachment could not be recorded is deleted again, or the failed deletion is reported; the record of the branch is as it was |
| TimelineSagas.Controller.ResolveLocked | internal/server/branch_attachment.go:163-215 | ends on every parent graph; attaches the whole unattached chain, each fresh timeline off its parent's in its tenant; it fails without a failing call exactly on a cycle or a missing ancestor, and then changes nothing; otherwise its error names the call that failed first |
| TimelineSagas.Controller.EnsureMainAttachment | internal/server/branch_attachment.go:217-256 | the root gets a timeline of a tenant of the pageserver: one that is listed for it, and a new one only if none is; never one that was deleted |
| TimelineSagas.Controller.DeleteTimeline | internal/server/branch_attachment.go:264-274 | a deletion is only ever asked for a timeline that nothing refers to and that is newer than every one that a user let go of or that the controller found |
| TimelineSagas.CycleIsNotResolvable | internal/branch/store.go:305-318 | two branches that are each other's parents can be resolved exactly when one of them is attached already |
| OperationErrors.CompensationKeepsPrimary | internal/server/branch_attachment.go:55-75 | a compensated failure is still classified by the error that began it |
| OperationErrors.CompensationIsReported | internal/server/branch_attachment.go:55-67 | an error reports exactly the compensations that failed; one that succeeded adds nothing |
| OperationErrors.UncompensatedIsPrimary | internal/server/branch_attachment.go:69-75 | the error without its compensations is what an operation's failure is classified by |
| OperationErrors.CompensationAccumulates | internal/server/branch_attachment.go:55-67 | compensations added in turn are those added at once |
| OperationErrors.CompensationKeepsCauses | internal/server/branch_attachment.go:46-67 | the causes found in a compensated error are those of the failure and of its compensations, no more and no less |
| OperationLog.Manager.History | internal/server/operations.go:115-341 | over every run of operations, refusals and restarts, in processes that may end before or after any write: one record at most ever says running, every operation that ran has a record, and in a process with a loaded log it is terminal but for at most one that waits |
| OperationLog.Manager.HistoryThenRestart | internal/server/operations.go:115-159 | however a run ended, once a new process has loaded the log no record says running and every operation that ever ran has a terminal record |
| OperationLog.Manager.RunThenRestart | internal/server/operations.go:115-189 | after a process that may end at any point of an operation, the next one finds it recorded as failed, or as succeeded only if its body did end without an error |
| OperationLog.Manager.Run | internal/server/operations.go:161-189 | an operation that runs is new; it returns the error of its body, with the failure to record its end as a compensation of it, and its terminal record is durable or waits; if the process ends on the way the store is still one a new process can rely on; one that does not run leaves those that ran as they were and says whether another one was running or the log failed, and a refusal takes an id of its own and adds at most its own record; without a fault it runs exactly if the log is there and nothing else runs, and returns just what its body did |
| OperationLog.Manager.ExecuteBody | internal/server/operations.go:173 | the body runs only when its marker is the one durable record that says running and every earlier operation has a durable terminal record; wherever the process ends in it that marker stands |
| OperationLog.Manager.Start | internal/server/operations.go:248-275 | refused exactly when an operation runs; success makes the marker durable after every earlier terminal record and enters it in the log, of which at most the oldest finished entries go; failure leaves the log as it was; without a fault it succeeds exactly if nothing runs and the log is there |
| OperationLog.Manager.Finish | internal/server/operations.go:295-325 | the entry is always found and is the only one that changes, and its terminal record is durable or waits; a process that ends here leaves the marker or the terminal record |
| OperationLog.Manager.Reject | internal/server/operations.go:277-293 | a refusal takes the next id, enters its own record in the log, adds at most that one to the store, whatever runs stays in the log, and no record comes to say running, also if the process ends on the way |
| OperationLog.Manager.FlushPendingTerminal | internal/server/operations.go:368-384 | success leaves nothing waiting and no record that says running; failure changes nothing |
| OperationLog.Manager.TrimEntries | internal/server/operations.go:327-341 | the log fits its limit, whatever runs stays, and what goes is older than every finished entry that stays |
| OperationLog.Manager.Restart | internal/server/operations.go:115-159 | whatever the last process was doing, nothing runs or waits; if the log loads, the records that said running are marked as interrupted and every other record is as it was, and if not no operation can start; without a fault it loads |
| OperationLog.Manager.Load | internal/server/operations.go:464-517 | every record that said running is marked as failed with the message of an interruption, every other record is as it was, and the newest readable records are loaded in order |
| BranchStore.Store.LoadBranchMap | internal/branch/sqlite_persistence.go:121-180 | every store state reloads from its table, in whatever order the rows come, as the very same branches |
| BranchStore.SnapshotLoads | internal/branch/persistence.go:79-131 | any snapshot of well-formed branches is accepted and loads as those branches |
| BranchStore.LoadedIsWellFormed | internal/branch/persistence.go:79-131 | whatever snapshot is accepted, the branches loaded from it have an active root, trimmed names and known parents |
| BranchStore.BranchMapFromSnapshot | internal/branch/persistence.go:79-131 | loading succeeds exactly when names are there and distinct after trimming, the root is there and active, and every parent is known; it gives the normalised records |
| BranchStore.UpsertThenPruneIsExact | internal/branch/sqlite_persistence.go:182-255 | writing every record over the rows and removing the other rows leaves exactly the table of the branches |
| BranchStore.Store.PersistBranches | internal/branch/sqlite_persistence.go:182-255 | the transaction makes the table exactly the snapshot or leaves it as it was |
| BranchStore.Store.PersistAndSwap | internal/branch/store.go:360-369 | the table equals memory after success and after failure |
| BranchStore.Store.Create | internal/branch/store.go:288-324 | each refusal has its exact condition; success adds exactly the new record, also over a deleted one, active, with the given parent, ids, password and time, and published nowhere; without a failing write there is no other error |
| BranchStore.Store.SoftDelete | internal/branch/store.go:326-358 | each refusal has its exact condition, the root being protected; a record is marked and kept, so every parent stays known; without a failing write there is no other error |
| BranchStore.Store.SetAttachment | internal/branch/store.go:146-176 | each refusal has its exact condition; success attaches an active branch to a whole pair of ids and changes nothing else, failure nothing; without a failing write there is no other error |
| BranchStore.Store.SetEndpoint | internal/branch/store.go:208-240 | each refusal has its exact condition; success changes the endpoint of an active branch to a port in range or to none, failure nothing; without a failing write there is no other error |
| BranchStore.SnapshotFromMap | internal/branch/store.go:371-384 | the snapshot holds every record once, in the order of the names |
| BranchPorts.Endpoints.RunOperations | internal/server/branch_endpoints.go:423-505 | over every run of publishing, unpublishing, deleting and creating, while other processes take and free ports, no two active branches are published on one port |
| BranchPorts.Endpoints.AllocatePortAndStartListener | internal/server/branch_endpoints.go:704-732 | the port found is the lowest one in range that no active branch is published on and that neither another listener nor another process holds, and the branch listens there; none is found only if there is none |
| BranchPorts.Endpoints.Publish | internal/server/branch_endpoints.go:423-469 | success leaves a published branch on the port it had, with no record changed, and publishes another on the lowest free port and records just that, and listens there; failure records nothing and leaves no new listener but on the recorded port; without a failing write it succeeds exactly if the branch is active and complete and its own port can be bound, or it has none and one is free |
| BranchPorts.Endpoints.Unpublish | internal/server/branch_endpoints.go:471-505 | success leaves the branch published nowhere and without a listener, and every other record and listener as it was; without a failing write it succeeds exactly if the branch is active |
| BranchPorts.PortRecorded | internal/server/branch_endpoints.go:704-710 | recording a port that no active branch uses keeps ports unique |
| BranchPorts.NewEndpoints | internal/server/branch_endpoints.go:222-232 | a range of ports is accepted exactly if it lies within 1 to 65535 and is not empty, after the defaults have taken the place of what is left open |
| SqlScanner.CountSqlStatements | internal/server/sql_execution.go:196-315 | the byte loop with its jumps computes exactly the statement count of the grammar, which is that of every reading of the text, and fails exactly when the text has no reading |
| SqlScanner.ParseDollarDelimiter | internal/server/sql_execution.go:317-339 | the delimiter found is the one the grammar sees, and none is found exactly when there is none |
| SqlScanner.ValidateSingleStatementQuery | internal/server/sql_execution.go:157-176 | a query is accepted exactly when it fits 64 KiB and holds one statement; each refusal has its exact condition |
| SqlLexemes.LexIsTheReading | internal/server/sql_execution.go:196-315 | a text lexes to a sequence of lexemes if and only if that sequence spells it out of well-formed lexemes none of which runs into what follows; well-formed says what each kind looks like, without reading a text: quoted text as plain bytes, doubled quotes and escaped bytes, comments and dollar text by what does not occur in them |
| SqlLexemes.CountIsOfTheReading | internal/server/sql_execution.go:196-315 | the statement count is that of whatever reads the text, and it fails exactly when nothing does |
| SqlLexemes.QuotedTextIsOneLexeme | internal/server/sql_execution.go:233-246 | any sequence of plain bytes, doubled quotes and backslashes with any byte after them, between single quotes, is one lexeme and one statement |
| SqlLexemes.QuotedIdentifierIsOneLexeme | internal/server/sql_execution.go:248-257 | the same between double quotes, where a backslash escapes nothing |
| SqlLexemes.DollarQuotedIsOneLexeme | internal/server/sql_execution.go:224-231 | any body between two copies of a dollar delimiter that is not met earlier, not even in a tail of the body that runs into the second copy, is one lexeme and one statement |
| SqlLexemes.CommentIsOneLexeme | internal/server/sql_execution.go:209-222 | a block comment around any text without its closing mark, and a line comment, is one lexeme and no statement |
| SqlLexemes.WithoutSemicolon | internal/server/sql_execution.go:293-313 | lexemes that no semicolon cuts are one statement if there is a token among them, and none otherwise |
| SqlLexemes.NoTokenNoStatement | internal/server/sql_execution.go:293-313 | there is no statement exactly when there is no token |
| SqlGrammar.CountComposes | internal/server/sql_execution.go:196-315 | if nothing is left open in a, the statements of a;b are those of a and of b, and a;b is rejected exactly when b is |
| SqlGrammar.LexemesConcatenateBack | internal/server/sql_execution.go:205-306 | lexing loses nothing: the lexemes concatenate back to the text |
| SqlGrammar.StatementsSplit | internal/server/sql_execution.go:293-299 | a semicolon separates: the statements on its two sides are counted independently |
| SqlGrammar.TagEndExtends | internal/server/sql_execution.go:317-339 | no dollar tag crosses a seam that opens with a byte no tag may hold |
| SchemaQueries.PrinterAgreesWithScanner | internal/server/schema_browser.go:414-428 | for all names and kinds every printed query is one terminated statement that holds exactly the names, or the qualified name as an escape string, it was printed for, and its words are those that its name announces |
| SchemaQueries.SizeQueryRoundTrip | internal/server/schema_browser.go:414-428 | undoing both layers of quoting gives back the two names if and only if neither holds a NUL byte |
| SchemaQueries.UnescapeUndoesEscape | internal/server/schema_browser.go:416 | reading an escape string undoes the escaping of backslashes and quotes |

## Left out

- The web console, HTTP routes, JSON, status codes, authentication, configuration, migrations, the query library and archive validation: plumbing around the protocols.
- Running SQL, its row and byte limits and the schema queries: only the scanner and the printer of the SQL path are modelled.
- Docker, the pageserver, SQLite and the PostgreSQL client library as such: their calls are steps that may fail; the identifier sanitiser of pgx is modelled as dropping NUL bytes and doubling quotes.
- Container calls that take effect after they have returned: a start or stop takes effect, if at all, before its call ends.
- Adopting an applied selection into a manager without an attachment: a manager starts with what the selection file holds.  A start or a switch that has taken effect has an attachment, and after a stop nothing is ready, so the status they report never adopts.
- A primary started without any attachment, for which the compute picks a timeline by itself: its selection names none.
- Stopping every listener at shutdown: the process ends, and its connections with it.
- The mode without an applied file (no applied path, the in-memory runtime), in which the manager takes its own memory for acknowledged.
- The compute's writer lease: nothing relies on it.
- Time, timeouts, sleeps, jitter and idle timers: a wait passes or fails at any moment, and a branch compute may stop at any moment; the limit on connections is left out.
- Fields that only pass through: passwords, credentials, dates in text form; tenant and timeline ids are compared, never parsed.
- Operation listings: the in-memory and the table listing page from opposite ends and do not agree.
- Integer widths of ids and ports, and 64-bit overflow of operation ids.
- Case folding beyond ASCII, where the program compares names without regard to case.
- Two restores running at once: the data directory's lock excludes them.
- DatabaseRestore.DataDirectory.RunRestores: a power loss between the first change of a recovery under a journal that is not durable and the recovery's directory sync is left out; surviving it is false of the program, as CrashAfterRenameIsUnanchored shows.  Rollback directories never reuse a name.
- DatabaseRestore.DataDirectory.ChangeDatabases: a change is one step, durable as soon as it is made; how SQLite writes its log, and that under `synchronous=NORMAL` it may itself lose its last commits, is not modelled.  SQLite may sync the directory when it makes a log, which would settle a journal's removal; that is a step that may happen, not one that is counted on.
- DatabaseRestore.DataDirectory.Materialize: reading a database through SQLite does not fold its write-ahead log into the main file, and the schema identity check is part of the copy being sound.
- OperationLog.Manager.Upsert: a write that reports failure has not taken effect, because SQLite rolls the statement back; a record whose write failed and yet appeared could be a second one that says running.
- TimelineSagas.Controller.RunOperations: clients do not write selection files in these runs; what they may do to a branch's file is the subject of `StaleSelections`, where this is false of the program.  The record has no endpoint fields: `endpoints` says which branches are published.
- PrimaryServes.PrimaryServes: that such runs exist from every clean state is proved, not that every run goes this way, as a call, a client or the compute may fail again and again.
- TimelineSagas.Controller.RestoreBranch: the time of a restore enters as whether it is before the source was created, and as the kind of position that the pageserver reports for it.
- PrimaryHandoff.EveryRunIsSafe: a timeline belongs to one branch, which the sagas establish for active branches, and a selection always has an attachment, since every operation resolves one before it selects.
- SqlScanner.CountSqlStatements: the five mode variables of the loop are one value, as at most one of them is ever set, and a character stands for one byte.

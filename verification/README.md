# Verified model of the agent control plane

This project models the deterministic control plane of a multi-agent refactoring service and proves
properties of it in Dafny. The language model, the test process, other editors of the source tree and
the network are inputs that may behave in any way. Nothing of the original program is executed here.

`dafny verify dfyconfig.toml` checks everything.

| file | component |
|---|---|
| `Graphs.dfy`, `Kahn.dfy`, `Plans.dfy` | dependency chains, ranks and cycles; plan admission; downstream and read-authority closures |
| `Scheduler.dfy`, `SchedulerInvariant.dfy`, `SchedulerExactness.dfy` | the task scheduler, what every reachable state keeps, and what each operation does to every entry |
| `Budgets.dfy`, `Workflow.dfy`, `WorkflowBounds.dfy`, `SchedulingBound.dfy`, `WorkflowHistory.dfy` | run budgets, the agent graph as a transition system, bounds on whole runs, and the cause of every completion, success and failure |
| `ApplyTransaction.dfy`, `ApplySafety.dfy`, `ApplyRecovery.dfy`, `ApplyCompareAndSwap.dfy`, `ApplyOutcome.dfy` | the multi-file apply transaction under interference and failures, and the cause of each outcome |
| `ApplyConcurrency.dfy`, `ApplyHistory.dfy`, `ApplyRefinement.dfy`, `ApplyInterleaving.dfy` | many threads applying to one source root, and why each of them runs the transaction |
| `Manifest.dfy`, `Evidence.dfy`, `EvidenceHistory.dfy` | snapshot identity and the chain from a test run over review and approval to the applied tree |
| `Lifecycle.dfy`, `LifecycleSafety.dfy`, `LifecycleRetention.dfy`, `LifecycleReports.dfy`, `LifecycleRuns.dfy` | ownership of a run's credential, checkpoint, lease and workspace |
| `Sessions.dfy`, `SessionSafety.dfy`, `SessionAuthorization.dfy`, `SessionReplies.dfy` | run leases and one-time approvals: their safety, who may use them, and what each operation answers |
| `DagLevels.dfy`, `TaskDag.dfy` | the layered drawing of a plan |
| `SseStream.dfy` | printing and cutting up the event stream |

Where the source changes fields or collections step by step, the model has a class or a loop that is
proved equal to a function on values, and the properties are proved about that function: `SourceTree`,
`RunLifecycle`, `SessionRegistry`, `TaskDagView`, the Kahn loops, the worklists and the read loop.

Every lemma turns Dafny's automatic induction off: each induction that a proof uses is written out in it.

## How the outside is modelled

- Third parties change the tree exactly at the transaction's hook points; a check and the replacement
  that follows it are one step (ADR 0007 disclaims the window in between). Any hook and any prepare,
  replace or rollback operation may fail.
- SHA-256, the JSON encoder and the token digest are injective. Paths are canonical already; case folding
  is that of ASCII letters.
- The clock and all generated identifiers are inputs. A generated identifier is new; no other assumption is
  made about time, and the clock may even run backwards between two threads.
- Lifecycle steps are what a coroutine does between two awaits; session steps are sections under the registry
  lock, and an authorised session operation is two such sections, so others may run in between.
- A producer thread is started before the first cleanup, because the stream starts it without awaiting.
- In the agent graph, whether the evidence holds, the diff can be built, and the diff was approved and applied are
  inputs of a step; what stands behind them is proved in `EvidenceHistory` and `ApplyOutcome`.
- Plans and Reviewer verdicts arrive parsed; an unusable verdict is `None` and reopens the whole plan.

## Where the code does less than one might expect

- A rollback reported as complete need not restore the baseline: a backup is copied at prepare time without
  being compared with the baseline. `CompleteRollbackMayMissTheBaseline` gives the interference;
  `RestoredToBaselineIff` gives the exact condition. Deleted and created files are always restored exactly.
- A workspace can be leaked: when its discovery raises in a release pass, that pass marks the workspace as
  cleaned although nobody released it, and a retry that does learn the id passes over it. Discovery reads the
  checkpoint, so this takes a first pass that cannot delete the checkpoint either;
  `LateDiscoveryLeaksTheWorkspace` is such a run, with a producer that started, ended and was joined.
  `UnregisteredOnlyWhenReleased` gives the exact condition over the history: a workspace known at the end was
  released exactly when no pass reached the workspace step while no id was known.
- A valid retention for human approval is overridden by a producer timeout: the deferred pass that follows is
  never asked to retain, whatever the cleanup call asked for, and releases the checkpoint, the lease and the
  retained workspace. `TimeoutOverridesRetention` is such a run, in which every cleanup call asked to retain.
  `RetainedUnlessTimedOut` gives the exact condition over all histories without a terminal cleanup: while the
  producer has not timed out, nothing but the credential is released; a cleanup that has ended retained the run
  exactly if the producer had not timed out; and a complete one after a timeout has released everything.
- A deferred cleanup that ends incomplete after a producer timeout is never tried again.
  `FailedDeferredCleanupKeepsTheLease` is such a run, and every continuation of it keeps the lease and the
  registration. `RetriedUnlessTimedOut` gives the exact condition in every reachable state whose tasks have
  ended: an incomplete cleanup is retried by the next call exactly if the producer had not timed out.
- The scheduler's branch that blocks the rest of a plan because nothing is ready cannot be reached
  (`SchedulerNeverGivesUp`), nor can the missing-run error of `consume_decision`
  (`OutstandingApprovalHoldsLease`).
- Without any budget a plan of n entries has at most 6n attempts, one less than its failures and completions
  add up to.

## Model

| member | source | states |
|---|---|---|
| `Graphs.AcyclicIffNoCycle` | backend/agent/plans.py:89-113 | A dependency graph has a rank function in which everything ranks above its dependencies exactly when it has no cycle. |
| `Kahn.NothingReady` | backend/agent/plans.py:102-113 | When Kahn's loop runs dry, all entries were visited exactly if the graph is acyclic; otherwise a cycle lies within the unvisited ones, and these are exactly the entries on or behind a cycle. |
| `Plans.BuildDependents` | backend/agent/plans.py:97-100 | The inverted table lists for every entry exactly its direct dependents, each once. |
| `Plans.PayDependents` | backend/agent/plans.py:107-110 | The inner loop restores Kahn's invariant: every count is the number of unvisited dependencies, and exactly the zero counts are ready. |
| `Plans.AssertAcyclic` | backend/agent/plans.py:89-113 | Accepts exactly the graphs with a rank function; a rejected one has a cycle within the entries left unvisited, which are exactly those on or behind a cycle. |
| `Plans.ValidateRefactorPlan` | backend/agent/plans.py:116-157 | Admits exactly the plans with unique ids, good dependencies, distinct files and no cycle; each rejection names a defect the plan has. |
| `Plans.DownstreamTaskIds` | backend/agent/scheduler.py:54-67 | The repeated sweeps end with exactly what the roots reach, in plan order. |
| `Plans.VisibleTaskIds` | backend/agent/tools.py:65-76 | The worklist ends with exactly the reflexive and transitive dependencies of the active entry. |
| `Plans.AuthorizedTaskPaths` | backend/agent/tools.py:58-76 | Read authority is unrestricted without a plan or an active entry, empty for an unknown one, and otherwise exactly the files of its dependency closure. |
| `Scheduler.ScheduleNextTaskNode` | backend/agent/scheduler.py:213-289 | The node takes the first ready entry in plan order, as the specification used by all invariants. |
| `SchedulerExactness.FreshPlanWaits` | backend/agent/scheduler.py:16-51 | In a fresh plan every entry waits, uncharged and without result; without a plan the run falls back. |
| `SchedulerExactness.SchedulingIsExact` | backend/agent/scheduler.py:213-266 | A live unfinished plan starts the first entry in plan order that waits or failed less than three times and whose dependencies are all completed, marks only it, and forgets the write of the attempt before; otherwise nothing starts. |
| `SchedulerExactness.DeadEndBlocksWhatWaits` | backend/agent/scheduler.py:268-289 | In whatever state: a live plan with entries left and nothing ready blocks exactly the entries that still wait, and fails. |
| `SchedulerExactness.ClosingIsExact` | backend/agent/scheduler.py:292-405 | Entry by entry: the active one is completed and its result recorded exactly if its last write succeeded, the budget held and the result could be built; otherwise its own failure count grows by one, the failure names the missing condition, and only exhaustion blocks exactly what depends on it and has not failed. |
| `SchedulerExactness.ReopeningIsExact` | backend/agent/scheduler.py:447-496 | Exactly what a usable verdict names, or everything without one, and what depends on it waits again without result or failure; all else and every failure count stay. |
| `Scheduler.CompleteActiveTaskNode` | backend/agent/scheduler.py:292-405 | Closing an attempt: success needs the write, the budget and the dependency result; exhaustion blocks the exact downstream set. |
| `Scheduler.ReopenTasksAfterReview` | backend/agent/scheduler.py:447-496 | The reopening loop, equal to the specification used by all invariants. |
| `SchedulerInvariant.InitialInvariant` | backend/agent/scheduler.py:16-51 | A fresh execution of a valid plan satisfies the scheduler invariant. |
| `SchedulerInvariant.FirstReadyIsReady` | backend/agent/scheduler.py:231-237 | The chosen entry is ready and every earlier one is not; none is chosen only when none is ready. |
| `SchedulerInvariant.ReadyTaskExists` | backend/agent/scheduler.py:231-289 | Progress: an unfinished live plan with nothing active has a ready entry with retries left. |
| `SchedulerInvariant.ScheduleKeepsInvariant` | backend/agent/scheduler.py:213-289 | Scheduling keeps the invariant and never takes the branch that blocks the rest. |
| `SchedulerInvariant.CompleteKeepsInvariant` | backend/agent/scheduler.py:292-405 | Closing an attempt keeps it: completed ids are unique, equal the completed statuses and are closed under dependencies, and only the active entry is running. |
| `SchedulerInvariant.ReopenKeepsInvariant` | backend/agent/scheduler.py:447-496 | Reopening keeps the invariant. |
| `SchedulerInvariant.ReopenIsExact` | backend/agent/scheduler.py:464-477 | Reopening takes back exactly the failed entries and what they reach, and never resets a retry count. |
| `SchedulerInvariant.FinishedWorkIsNeverDemoted` | backend/agent/scheduler.py:383-388 | Blocking transitive dependents never demotes a completed entry. |
| `SchedulerInvariant.CompletedPlanIsFinished` | backend/agent/scheduler.py:320-334 | A plan marked completed has every entry completed. |
| `SchedulerInvariant.VisibleTasksAreCompleted` | backend/agent/tools.py:58-76 | Every readable entry other than the active one is completed. |
| `SchedulerInvariant.DependencyResultsPresent` | backend/agent/scheduler.py:231-239 | Each dependency of the active entry has a recorded result. |
| `Budgets.GetRunBudgetLimits` | backend/agent/budgets.py:58-87 | Each effective limit comes from its own field: kept within its range, replaced by the nearer bound outside, by the default when it is no number. |
| `Budgets.GetRunUsage` | backend/agent/budgets.py:90-113 | Counters read back from the state are kept within wide bounds and cut off at them. |
| `Budgets.ReportsAreBilled` | backend/agent/budgets.py:115-172 | The tokens billed are never negative, never less than the reported total or than both parts together, and never more than the larger of these. |
| `Budgets.ReasonNamesItsLimit` | backend/agent/budgets.py:175-243 | A refusal or cut-off names a limit that is reached; without one, none is. |
| `WorkflowHistory.CompletedIffWritten` | backend/agent/scheduler.py:292-405 | In every run a closing step completes its entry exactly if a write call of this very attempt succeeded with no failing one after it, the budget held and the result could be built; otherwise exactly this entry has failed once more, for the missing condition. |
| `WorkflowHistory.WhatIsCompletedWasWritten` | backend/agent/scheduler.py:305-346 | No entry of any run becomes completed in another way. |
| `WorkflowHistory.UsageIsTheBill` | backend/agent/budgets.py:206-220 | In every run the counters are exactly the sum over the model calls made, with the tool calls and tokens of their responses. |
| `WorkflowHistory.CutOffIff` | backend/agent/budgets.py:175-243 | In every run the model is called at an agent's turn exactly if fewer than N calls and T tokens were billed, and the budget fails exactly if the call is refused or its response exceeds the tool or token limit or uses tools in the last turn. |
| `WorkflowHistory.ToolCallsAreAnswered` | backend/agent/edges.py:24-56 | Within the budget an agent that asks for tools gets all of them executed and then the next turn; one that asks for none is not followed by its tool node. |
| `WorkflowHistory.FinishedTurnMovesOn` | backend/agent/edges.py:24-56 | An Architect or Developer that asks for no tools has finished: its plan is scheduled, its attempt closed, or reviewed at once without a plan. |
| `WorkflowHistory.PlansComeFromArchitects` | backend/agent/nodes.py:257-264 | In every run a plan is taken over only from an Architect that has finished within the budget. |
| `WorkflowHistory.PlainRunsExecuteNothing` | backend/agent/scheduler.py:27-39 | Without a plan no entry is ever started, written, completed or charged. |
| `WorkflowHistory.SchedulingMovesOn` | backend/agent/edges.py:58-73 | A run without a plan goes to the Developer; one with a plan to the Developer exactly while entries are left, to the Reviewer exactly when all are completed, and to the failure that caused it once the plan failed. |
| `WorkflowHistory.ReviewIsFollowed` | backend/agent/edges.py:76-107 | In every run success needs its marker without the failure marker and valid evidence; a failure reopens the work until that was done three times; anything else is sent back until that was done twice; all else fails. |
| `WorkflowHistory.RejectionReopens` | backend/agent/nodes.py:441-449 | In every run a reopening follows the Reviewer's rejection and takes back exactly the entries that response names, or all of them if it names none of use, and what depends on them. |
| `WorkflowHistory.OnlyAcceptedWorkGoesOn` | backend/agent/edges.py:76-107 | In every run the success node, the preparation and the apply are entered only right after the Reviewer accepted within the budget and with valid evidence. |
| `WorkflowHistory.SuccessIffApplied` | backend/agent/workspace.py:507-542 | A run that ended was successful exactly if the Reviewer accepted, the evidence held then and both times it was looked at later, and the diff was built, approved and applied. |
| `WorkflowHistory.EachFailureHasItsCause` | backend/agent/edges.py:58-107 | Each failing end has its cause: the failed budget, an entry that failed three times, or a review that failed after three reopenings or two protocol retries. |
| `WorkflowBounds.StepProgress` | backend/agent/edges.py:24-107 | Every node execution uses up at least one unit of an explicit measure over steps, nodes and the budget flag. |
| `WorkflowBounds.BudgetStopsTheRun` | backend/app.py:366-368 | At most 3N+6 node executions, below the framework's 3N+2T+10, then the run is over; at most N model calls and T executed tool calls. |
| `WorkflowBounds.NoModelCallAfterBudgetFailure` | backend/agent/budgets.py:175-243 | From a budget failure on, no continuation of the run calls the model or a tool again. |
| `WorkflowBounds.ReviewAndApplyOnlyWhenFinished` | backend/agent/edges.py:58-73 | In plan mode review, preparation and apply are entered only with every entry completed and the budget intact. |
| `WorkflowBounds.SchedulerNeverGivesUp` | backend/agent/scheduler.py:268-289 | In every reachable state of the graph a live plan gets an active entry or is completed. |
| `SchedulingBound.AttemptsAreBounded` | backend/agent/nodes.py:441-449 | Without help from the budget: at most 6n attempts, 4n completions, 2n+1 failures and 3 reopenings per run. |
| `WorkflowHistory.FailuresFailThePlan` | backend/agent/nodes.py:511-556 | A failing end reports failure, fails the plan if there is one, and leaves its entries as they are. |
| `ApplyTransaction.SourceTree.CallHook` | backend/agent/workspace.py:643-649 | A hook point lets third parties replace the whole tree, and may raise. |
| `ApplyTransaction.SourceTree.Prepare` | backend/agent/workspace.py:786-799 | The prepare loop equals its specification, also when an operation fails half-way. |
| `ApplyTransaction.SourceTree.Commit` | backend/agent/workspace.py:802-821 | The commit loop, with the re-check before each replacement, equals its specification. |
| `ApplyTransaction.SourceTree.Rollback` | backend/agent/workspace.py:822-857 | The compensation loop, latest replacement first, equals its specification. |
| `ApplyTransaction.SourceTree.ApplyLocked` | backend/agent/workspace.py:704-881 | The whole transaction in place: tree, temporary files, log and outcome equal the specification. |
| `ApplyOutcome.OutcomeHasItsCause` | backend/agent/workspace.py:734-821 | Exactly one of four outcomes: a conflict exactly if some path is off the baseline at the start, with nothing touched; interrupted exactly if none is and the first hook raised; applied exactly if besides every changed file could be staged, was found as in the baseline at its turn and nothing failed; rolled back otherwise. |
| `ApplyOutcome.ReplacedIff` | backend/agent/workspace.py:786-821 | A changed file is replaced exactly if all could be staged and, up to it, each was found as in the baseline and nothing failed; no other path is. |
| `ApplyOutcome.StagedFilesAreUsedUp` | backend/agent/workspace.py:786-821 | What a replacement writes was staged before: at the end of the commit phase the content of each file still to come lies ready in its staged file, and that of each replaced one was used up. |
| `ApplyOutcome.BareNameFollowsLastSlash` | backend/agent/workspace.py:614-619 | The bare name that is reported for an unreadable file is what follows its last slash. |
| `ApplyOutcome.PutBackIff` | backend/agent/workspace.py:822-857 | A replaced file is put back exactly if its compensation raises nothing and finds what the transaction wrote, as third parties last left it. |
| `ApplyOutcome.ReportsAreExact` | backend/agent/workspace.py:830-877 | Whatever fails: the conflicts are what stopped the commit and the replaced files found foreign; the artifacts are, per file with content that was not put back, the recovery copy or the backup where it is. |
| `ApplyOutcome.ConflictsAreDistinct` | backend/agent/workspace.py:839-849 | No conflict is reported twice. |
| `ApplySafety.ThirdPartyContentIsNeverDestroyed` | backend/agent/workspace.py:802-857 | Under any interference and failures: each overwritten or removed target held the baseline or exactly what this transaction last wrote there; the log accounts for the whole change of the tree. |
| `ApplyRecovery.NothingIsLost` | backend/agent/workspace.py:822-881 | Each replaced path is put back as it was saved, or the rollback is partial and the saved bytes survive in a reported file. |
| `ApplyRecovery.StatusIsExact` | backend/agent/workspace.py:864-877 | `not_required` exactly when nothing was replaced, `complete` exactly when something was and all of it was put back, `partial` otherwise. |
| `ApplyRecovery.ReplacedPaths` | backend/agent/workspace.py:802-821 | The log of an aborted transaction shows exactly the applied prefix of the changed paths as replaced. |
| `ApplyRecovery.AppliedReplacesEveryChange` | backend/agent/workspace.py:802-821 | Whatever third parties do, a successful apply has replaced exactly the paths in which baseline and working copy differ. |
| `ApplyRecovery.NothingIsLeftBehind` | backend/agent/workspace.py:878-881 | Every temporary file that survives is a reported recovery artifact; files of other runs are untouched. |
| `ApplyRecovery.RestoredToBaselineIff` | backend/agent/workspace.py:796-799 | A path that was put back holds the baseline exactly when it was deleted, created, or still held the baseline when it was backed up. |
| `ApplyRecovery.ConflictsAreExact` | backend/agent/workspace.py:830-857 | When compensation raises nothing, the conflicts are exactly what the re-check that stopped the commit reported and the replaced paths that were not put back. |
| `ApplyRecovery.CommitConflictIsExact` | backend/agent/workspace.py:598-641 | What that re-check reports: the path that holds something else than the baseline, the bare name of a file that could not be read, and nothing when the commit stopped anywhere else. |
| `ApplyCompareAndSwap.AppliesAsOneCompareAndSwap` | backend/agent/workspace.py:704-881 | Without interference the transaction is one compare-and-swap of all managed files: success swaps baseline for working copy, failure leaves every target and temporary as it was; without faults success means that the comparison held. |
| `ApplyCompareAndSwap.CompleteRollbackMayMissTheBaseline` | backend/agent/workspace.py:796-799 | A rollback reported complete whose file does not hold the baseline. |
| `ApplyConcurrency.MutualExclusion` | backend/agent/workspace.py:180-199 | Any number of threads: never two of one root in the body, all registered threads share one lock, a table row exists exactly while it is used and counts its users. |
| `ApplyConcurrency.RegisterKeepsLocks` | backend/agent/workspace.py:184-191 | Registering under the guard keeps the lock table right. |
| `ApplyConcurrency.DeregisterKeepsLocks` | backend/agent/workspace.py:194-199 | Deregistering drops a row with its last user and keeps the table right. |
| `ApplyHistory.RecheckAlwaysPasses` | backend/agent/workspace.py:802-806 | Without outside editors the re-check before a replacement never finds a conflict, however many threads apply. |
| `ApplyHistory.StepKeepsHistory` | backend/agent/workspace.py:688-881 | Every step of every thread keeps the history linked and the changing thread between its start and its target. |
| `ApplyHistory.NoLostUpdate` | backend/agent/workspace.py:688-745 | Successful applies of all threads form a chain: each baseline is the tree left by the episode before, and the tree at rest is the last one. That each thread runs the transaction with its backups is `EveryBodyIsATransaction`. |
| `ApplyInterleaving.EveryBodyIsATransaction` | backend/agent/workspace.py:688-881 | In every execution of any number of threads: from any moment at which a thread holds the lock to any moment at which it has left the body, whoever runs in between, its tree becomes exactly the one the transaction leaves, with its prepare phase and its backups, and the history grows by exactly its outcome. |
| `ApplyRefinement.AloneIsTheTransaction` | backend/agent/workspace.py:688-881 | Refinement: from taking the lock to leaving the body, a thread alone turns its tree into exactly the tree of the transaction, with its prepare phase and its backups, records exactly its outcome, and changes nothing else, whatever fails. |
| `ApplyRefinement.EveryLoneRunIsATransaction` | backend/agent/workspace.py:700-881 | Every way the commit and compensation steps of such a thread can fail is a way the transaction can fail. |
| `ApplyRefinement.AloneIsAnExecution` | backend/agent/workspace.py:688-701 | Such a run is one of the executions over which mutual exclusion and the history are proved. |
| `Manifest.BuildSnapshotManifest` | backend/agent/workspace.py:314-351 | One pass over the files builds the sorted manifest or finds two files of one case-folded identity. |
| `Manifest.FoldIgnoresCaseOnly` | backend/agent/workspace.py:327-329 | Two paths have one identity exactly if their names differ in nothing but the case of ASCII letters. |
| `Manifest.FirstDifferenceDecides` | backend/agent/workspace.py:336-339 | The order of names: the first difference decides, and a proper prefix comes first. |
| `Manifest.ManifestIsTheSortedList` | backend/agent/workspace.py:314-351 | There is a manifest exactly if no two names differ only by case; it lists every file with size and hash, and nothing else, ascending by folded name. |
| `Manifest.ManifestIgnoresOrder` | backend/agent/workspace.py:314-351 | The manifest does not depend on the order of enumeration. |
| `Manifest.DigestDeterminesFiles` | backend/agent/workspace.py:340-351 | Equal digests mean equal file maps. |
| `Evidence.ReviewEvidenceErrors` | backend/agent/state.py:160-201 | No error exactly when the latest record passed, is stable, includes the contract, has the marker, and matches the change set and the files as they are now. Each reported error names a demand that is not met, and every such demand is reported. |
| `Evidence.ChainAlwaysHolds` | backend/agent/tools.py:400-479 | In every history each successful record, and each reviewed digest, is backed by a passing contract run on those files. |
| `Evidence.GatePassesOnlyTested` | backend/agent/workspace.py:714-731 | An open gate means that a passing contract run started and ended on exactly the files about to be written. |
| `Evidence.WhatIsAppliedWasTested` | backend/agent/workspace.py:714-731 | Every successful apply was approved and comes after a passing contract run on exactly the files it writes, against tampering with any directory in between; under any interference it has replaced exactly the paths in which baseline and tested files differ, and without interference the managed files are the tested ones. |
| `Evidence.AnHonestRunIsApplied` | backend/agent/nodes.py:474-508 | The gate is not closed for good: any writes, a passing run, a review and an approval lead to the apply of exactly the written files if they differ from the start, and to a refusal otherwise, in whatever order directories are enumerated. |
| `Evidence.AtomicApplyWorkspace` | backend/agent/workspace.py:688-775 | The approval and the gate in front of the real tree: a rejected diff or a closed gate touches nothing. |
| `EvidenceHistory.WriteIsRecorded` | backend/agent/state.py:109-122 | Each write replaces its file, is recorded with the hashes from before and after it, and voids the tests so far. |
| `EvidenceHistory.TestIsRecorded` | backend/agent/tools.py:400-479 | Each test run leaves one record that tells exactly what happened: success only if the process ended with exit code 0 and changed no file, failure if it raised or a snapshot could not be taken. |
| `EvidenceHistory.EvidenceIff` | backend/agent/state.py:160-201 | In every history the evidence holds exactly if something was written, the latest test run came after the last write, ran the behaviour contract to its end with exit code 0, and the files before and after it are the files of now. |
| `EvidenceHistory.GateIff` | backend/agent/workspace.py:714-731 | The gate is open exactly if the baseline is still what the run started from, the latest review was a success about exactly these files, exactly these files were last prepared, and no two changed files differ only by case. |
| `EvidenceHistory.AppliedIff` | backend/agent/workspace.py:902-953 | An apply runs the transaction exactly if its diff was approved and the gate's conditions hold; otherwise nothing changes and nothing counts as applied. |
| `EvidenceHistory.NothingIsAppliedUnapproved` | backend/agent/workspace.py:902-937 | Over all histories: what counts as applied was applied by the latest apply, which was approved and had everything before it in order. |
| `EvidenceHistory.SourceIsLeftAlone` | backend/agent/workspace.py:902-937 | Over all histories: without such an apply, and without others' edits, source and temporary files are what they were at the start. |
| `EvidenceHistory.ARejectedRunChangesNothing` | backend/agent/workspace.py:927-937 | A run that does everything right but whose diff is rejected leaves tree, temporary files and log as they were. |
| `Lifecycle.RunLifecycle.Start` | backend/agent/run_lifecycle.py:138-159 | A first producer becomes alive; a second one is refused. |
| `Lifecycle.RunLifecycle.Remember` | backend/agent/run_lifecycle.py:123-125 | A workspace id is stored; an absent one changes nothing. |
| `Lifecycle.RunLifecycle.Retain` | backend/agent/run_lifecycle.py:127-136 | A valid retention is stored and fixes the workspace; an incomplete one is refused. |
| `Lifecycle.RunLifecycle.Cleanup` | backend/agent/run_lifecycle.py:161-201 | A new cleanup starts when there is none, after a retention, or to retry an incomplete one that did not time out. |
| `Lifecycle.RunLifecycle.CleanupImpl` | backend/agent/run_lifecycle.py:203-250 | The cleanup starts a new report and waits for the producer, if there ever was one. |
| `Lifecycle.RunLifecycle.GiveUpWaiting` | backend/agent/run_lifecycle.py:203-250 | A producer timeout ends the cleanup with an error and leaves the rest to the deferred one. |
| `Lifecycle.RunLifecycle.ProducerIsGone` | backend/agent/run_lifecycle.py:252-282 | Once the producer is gone the pass starts; the deferred one drops the timeout error. |
| `Lifecycle.RunLifecycle.PrepareRelease` | backend/agent/run_lifecycle.py:301-319 | The pass learns its workspace, or counts an error, and decides whether the retention holds. |
| `Lifecycle.RunLifecycle.BeginRelease` | backend/agent/run_lifecycle.py:408-411 | A resource that an earlier pass released is skipped, any other one is started. |
| `Lifecycle.RunLifecycle.Operate` | backend/agent/run_lifecycle.py:410-411 | The operation takes effect, or fails, exactly once per start. |
| `Lifecycle.RunLifecycle.Advance` | backend/agent/run_lifecycle.py:321-375 | The fixed order of releases, the stop right after the credential under a retention, and the conclusion. |
| `Lifecycle.RunLifecycle.Settle` | backend/agent/run_lifecycle.py:401-420 | A successful release sets its flag, a failing one counts an error, and the pass goes on either way. |
| `Lifecycle.RunLifecycle.Conclude` | backend/agent/run_lifecycle.py:373-375 | The pass is complete exactly without errors, and only then unregisters the run. |
| `LifecycleSafety.StepKeepsInvariant` | backend/agent/run_lifecycle.py:161-420 | Every step of every interleaving keeps the lifecycle invariant. |
| `LifecycleSafety.NothingReleasedUnderALiveProducer` | backend/agent/run_lifecycle.py:203-282 | Nothing is released while the producer is alive, and two passes never overlap. |
| `LifecycleSafety.ReleasedAtMostOnce` | backend/agent/run_lifecycle.py:401-420 | Each of the four releases takes effect at most once, over all retries. |
| `LifecycleSafety.UnregisteredOnlyWhenReleased` | backend/agent/run_lifecycle.py:363-375 | An unregistered run has released credential, checkpoint and lease, and the workspace it knows exactly when no pass of its history reached the workspace step while no id was known. |
| `LifecycleSafety.MarkedIffPassedOver` | backend/agent/run_lifecycle.py:363-371 | The workspace is marked without a release exactly in histories in which a pass reached the workspace step while no id was known. |
| `LifecycleSafety.RetriedUnlessTimedOut` | backend/agent/run_lifecycle.py:161-193 | In every reachable state whose tasks have ended: an incomplete cleanup is retried by a call exactly if the producer had not timed out, a complete one exactly if it retained the run and a terminal cleanup is asked for. |
| `LifecycleSafety.RetentionReleasesOnlyTheCredential` | backend/agent/run_lifecycle.py:321-344 | From a holding pass of the cleanup task until a terminal cleanup is asked for, no step releases anything but the credential, sets another flag or unregisters the run. |
| `LifecycleSafety.RetainedRunKeepsItsResources` | backend/agent/run_lifecycle.py:314-344 | In every reachable state: the cleanup task's own pass, when it was asked to retain and finds a matching valid retention, leaves checkpoint, lease, workspace and registration alone for every continuation without a terminal cleanup. |
| `LifecycleRetention.RetainedUnlessTimedOut` | backend/agent/run_lifecycle.py:203-344 | Over all histories without a terminal cleanup in which a valid retention names the workspace: nothing but the credential is released unless the producer timed out; an ended cleanup retained the run exactly if it had not; a complete one after a timeout released everything. |
| `LifecycleReports.ProducerGoesForward` | backend/agent/run_lifecycle.py:138-159 | The producer starts at most once and before any cleanup, exits once and is joined once, in this order and by these steps only. |
| `LifecycleReports.OnlyCompleteRetentionsAreStored` | backend/agent/run_lifecycle.py:127-136 | Only a living producer stores a retention, only one with an approval and a whole digest, and its workspace with it. |
| `LifecycleReports.ProducerMakesWorkspaceKnown` | backend/agent/run_lifecycle.py:123-125 | A living producer makes a workspace known; an absent one does not make it forgotten. |
| `LifecycleReports.OneCleanupAtATime` | backend/agent/run_lifecycle.py:161-193 | While a cleanup is pending or under way another call changes nothing; the first call of a run starts one. |
| `LifecycleReports.CleanupWaitsForItsProducer` | backend/agent/run_lifecycle.py:203-226 | A cleanup begins with a fresh report and waits exactly if there ever was a producer. |
| `LifecycleReports.WaitingEndsOneWay` | backend/agent/run_lifecycle.py:223-282 | Before the producer is joined the waiting can time out, with an error and a deferred cleanup that retains nothing; once it is joined the pass starts. |
| `LifecycleReports.ReportIsExact` | backend/agent/run_lifecycle.py:284-420 | In every history a cleanup that is over retained the run exactly if it was asked to and found a retention that names the workspace it knew, and is complete exactly if it did so or if since it began no discovery raised, no operation failed and no retention that was asked for was refused. |
| `LifecycleRuns.TimeoutOverridesRetention` | backend/agent/run_lifecycle.py:226-263 | A run whose every cleanup call asked to retain, with a valid retention of its workspace to the end, that releases all four resources and leaves the registry. |
| `LifecycleRuns.FailedDeferredCleanupIsFinal` | backend/agent/run_lifecycle.py:161-201 | After a timeout an incomplete deferred pass is never repeated. |
| `LifecycleRuns.FailedDeferredCleanupKeepsTheLease` | backend/agent/run_lifecycle.py:226-282 | A reachable run that ends so: whatever anybody does afterwards, its lease is never released and it never leaves the registry. |
| `LifecycleRuns.UndisturbedPassReleasesEverything` | backend/agent/run_lifecycle.py:295-399 | An undisturbed pass of either task releases all four resources in order and unregisters the run. |
| `LifecycleRuns.LateDiscoveryLeaksTheWorkspace` | backend/agent/run_lifecycle.py:301-371 | A run that is unregistered although the workspace it knows was never released, and that found it while its checkpoint still existed. |
| `Sessions.SessionRegistry.PruneExpired` | backend/session_registry.py:67-74 | Exactly the expired records are removed. |
| `Sessions.SessionRegistry.CreateSession` | backend/session_registry.py:76-86 | A new session, after pruning. |
| `Sessions.SessionRegistry.Authorize` | backend/session_registry.py:88-97 | Succeeds for a live session with its own token and postpones its expiry. |
| `SessionAuthorization.CreationIsExact` | backend/session_registry.py:76-86 | A new session starts with its token and a full lifetime, without run or approval, and only expired ones are forgotten. |
| `SessionAuthorization.AuthorisedIff` | backend/session_registry.py:67-97 | In every history a check succeeds exactly for the token given at creation, and exactly if no clock reading since then, this one included, found the latest sign of life a lifetime back; a failing one only forgets expired sessions. |
| `SessionAuthorization.StoredTokenIsTheCreators` | backend/session_registry.py:76-86 | The stored token of a living session is the one its creation was given; no section changes it. |
| `SessionAuthorization.ForeignTokenDoesNothing` | backend/session_registry.py:88-97 | With any other token every operation answers that it is unauthorised, adds nothing to the history and only forgets expired sessions. |
| `SessionReplies.RecordIsTold` | backend/session_registry.py:99-218 | In every history lease, approval and decision of a living session are exactly what the events so far say. |
| `SessionReplies.AnswersFollowHistory` | backend/session_registry.py:99-218 | What each section answers, and what it adds to the history, is exactly what the events so far determine; a session that is gone is answered so. |
| `SessionReplies.HolderIsAnswered` | backend/session_registry.py:99-218 | A whole operation by a holder of the session's token gets exactly that answer. |
| `Sessions.SessionRegistry.Begin` | backend/session_registry.py:99-106 | Takes the lease of a session that has none. |
| `Sessions.SessionRegistry.ActiveRun` | backend/session_registry.py:108-114 | Reads the lease. |
| `Sessions.SessionRegistry.Finish` | backend/session_registry.py:116-132 | Releases the lease and the approval of the named run, and of no other. |
| `Sessions.SessionRegistry.FinishOwned` | backend/session_registry.py:134-144 | The same without a token. |
| `Sessions.SessionRegistry.IsResumableApproval` | backend/session_registry.py:146-162 | True exactly for the undecided approval of the run that holds the lease. |
| `Sessions.SessionRegistry.RequestApproval` | backend/session_registry.py:164-179 | Repeats an undecided approval, replaces a decided one. |
| `Sessions.SessionRegistry.Answer` | backend/session_registry.py:181-199 | Stores the first decision, accepts its repetition, refuses its opposite. |
| `Sessions.SessionRegistry.ConsumeDecision` | backend/session_registry.py:201-218 | Hands the decision and its run over and forgets the approval. |
| `SessionSafety.SectionKeepsInvariant` | backend/session_registry.py:67-218 | Every lock section, in any interleaving, keeps records and history in agreement. |
| `SessionSafety.OutstandingApprovalHoldsLease` | backend/session_registry.py:201-218 | Over all histories an outstanding approval belongs to the run that holds the lease, so the missing-run error is unreachable. |
| `SessionSafety.ConsumedOnceAsFirstDecided` | backend/session_registry.py:181-218 | Each approval is consumed at most once, with the only decision ever accepted for it, by the run that asked. |
| `SessionSafety.DecisionsAgree` | backend/session_registry.py:195-199 | In no history are both decisions about one approval accepted. |
| `SessionSafety.StaleRunReleasesNothing` | backend/session_registry.py:116-144 | A run id whose lease was released never releases a newer lease, in any session. |
| `SessionSafety.OnlyTheHolderReleases` | backend/session_registry.py:99-144 | A living session loses its lease exactly by a release that names its holder. |
| `SessionSafety.RunsOfOneSessionNeverOverlap` | backend/session_registry.py:99-106 | Between the starts of two runs of one session the first one is released. |
| `SessionSafety.ResumableIff` | backend/session_registry.py:146-162 | An approval is resumable exactly when it was issued to that run, nobody has decided it and the run has not ended. |
| `SessionSafety.AcceptedDecisionIsForThePausedRun` | backend/session_registry.py:181-199 | A decision is accepted only for an unconsumed approval of the run that holds this session's lease. |
| `DagLevels.RaiseDependents` | frontend/src/composables/useTaskDag.ts:83-88 | The inner loop keeps both Kahn's invariant and the level invariant. |
| `DagLevels.ComputeLevels` | frontend/src/composables/useTaskDag.ts:72-90 | Succeeds exactly for acyclic plans; each level is then the length of the longest dependency chain. |
| `TaskDag.CheckTasks` | frontend/src/composables/useTaskDag.ts:38-70 | Everything but the cycle test: one to twenty well-named entries, no reserved id, distinct files, good dependencies. |
| `TaskDag.GroupByLevel` | frontend/src/composables/useTaskDag.ts:92-96 | Each column holds exactly the entries of its level, in plan order. |
| `TaskDag.BuildNodes` | frontend/src/composables/useTaskDag.ts:97-131 | One node per entry in the column of its longest chain, rows without gaps in plan order, no two nodes in one place, architect leftmost and reviewer one column after the last, both half-way down the tallest column. |
| `TaskDag.PositionsInNumbers` | frontend/src/composables/useTaskDag.ts:97-131 | Columns are 270 apart from 50 on, rows 140 apart from 80 on, and the two outer nodes stand half-way between the first and the lowest row. |
| `TaskDag.BuildEdges` | frontend/src/composables/useTaskDag.ts:133-143 | Exactly the dependencies, the roots under the architect and the sinks over the reviewer, each once. |
| `TaskDag.TaskDagView.InitializeDagFromPlan` | frontend/src/composables/useTaskDag.ts:37-148 | Shows exactly the displayable plans, correctly; a rejected plan leaves the picture as it was. |
| `TaskDag.ShownUnlessCyclic` | frontend/src/composables/useTaskDag.ts:90-90 | Once its other checks pass, the frontend shows a plan exactly when the backend's plan check admits it, that is, when it has no cycle. |
| `TaskDag.EdgesPointRight` | frontend/src/composables/useTaskDag.ts:110-143 | Every edge ends at least one column to the right of where it starts. |
| `TaskDag.EveryTaskIsOnAPath` | frontend/src/composables/useTaskDag.ts:133-143 | Every entry lies on a drawn path from the architect to the reviewer. |
| `SseStream.Split` | frontend/src/composables/useRefactorStream.ts:104-104 | The cut at blank lines, with the unfinished rest last. |
| `SseStream.ReadLoop` | frontend/src/composables/useRefactorStream.ts:93-143 | Reading piece by piece; whatever pieces the text of a printed stream arrives in, exactly its events are handed on and the buffer ends empty. |
| `SseStream.CuttingDoesNotMatter` | frontend/src/composables/useRefactorStream.ts:93-143 | What the reads hand on, and what stays in the buffer, depends on the text alone, not on its cutting into reads. |
| `SseStream.SplitIsExact` | frontend/src/composables/useRefactorStream.ts:104-105 | Splitting takes nothing away and cuts at the earliest place each time: frames, blank lines and rest make up the text, each frame ends at the first blank line, and the rest has none. |
| `SseStream.DataFrameIff` | frontend/src/composables/useRefactorStream.ts:111-111 | A frame is handed on exactly if after white space it starts with the field name, a colon and a space and anything but white space follows. |
| `SseStream.PayloadIsExact` | frontend/src/composables/useRefactorStream.ts:113-113 | What is handed on of a frame that starts with the field name is what follows it and the white space after it. |
| `SseStream.SpacesByCode` | frontend/src/composables/useRefactorStream.ts:111-113 | White space is that of the browser, by code point. |
| `SseStream.MoreText` | frontend/src/composables/useRefactorStream.ts:103-105 | Later text never changes the frames already complete and only continues the rest. |
| `SseStream.FrameMeaning` | backend/app.py:548-550 | The payload of a printed event is its document again; a heartbeat yields nothing. |
| `SseStream.EveryCuttingDeliversTheEvents` | backend/app.py:755-771 | Round trip: the reads of every cutting of the text, with heartbeats anywhere, deliver exactly the events in order. |
| `SseStream.BrokenStreamDeliversWholeFrames` | frontend/src/composables/useRefactorStream.ts:95-106 | The reads of a stream that breaks off anywhere deliver exactly the events whose frames were sent completely, and keep the text after them. |

## Left out

- Real file input and output, symbolic links, reparse points and directories: an empty new directory may survive a rollback, and nothing is claimed about directories.
- The temporary files of the transaction are taken to be out of reach of third parties, and the final unlink is taken not to raise.
- The path policy, the protected-path checks and the size limit of the aggregate diff appear only as the refusal of a preparation.
- Messages, prompts, transition events, failure texts and the rendering of dependency results: whether a dependency result can be built is an input.
- Several write calls answered by one tool node: only the resulting write flag is an input.
- A usage or budget value whose integer conversion overflows, such as a floating-point infinity, raises in the original and is not modelled.
- Parsing of plans and of Reviewer verdicts, and the number of entries and length limits that the parser imposes on a plan.
- Cancellation of a caller of `cleanup`: the cleanup itself is shielded from it, so it changes nothing in the model.
- The registry of active runs beyond the moment a run leaves it, and `shutdown`.
- Titles, identifier patterns and path rules of the frontend are one verdict per entry; labels, styles and later status updates of the drawing are not modelled.
- The run-id and generation filters of the stream, the decoding of bytes split inside a character, and what applying an event does.
- Model clients, graph and checkpoint libraries, credentials, network security, indexers, endpoints and the desktop launcher.

# RailWarden execution kernel: a verified model

RailWarden runs a plan of work packages. Each package has a Git branch and a
worktree, a task in a durable ledger, owned paths and dependencies. A controller
tick reads the ledger and the repository, moves tasks, merges at most one finished
package into the integration branch and launches workers for ready ones.

This project models that kernel and proves what it promises. Objects the program
updates in place are classes here (`Repository`, `TaskStore`, `Kernel`,
`CycleSearch`, `TopologicalSearch`, `PathMemo`, `ProcessFile`, `QuotaStore`,
`Workspace`); their methods have the program's loops and branches and are proved to
compute a function of the old state. The theorems are about those functions, and so
about the methods.

| file | models | proves |
|---|---|---|
| `Git`, `Runner`, `Integration`, `History` | commit graph, validation suite, the integration transaction | exact rollback, always-green history, one ancestor chain, merged is stable and refused |
| `Ledger` | task store, event log, guarded transition | log replay, freshness of copies, terminal statuses |
| `Project`, `Gates`, `Classifier` | configuration, completed-result check, review, classification | what acceptance means, agreement of integration and classification |
| `Tick`, `Controller` | one controller tick, as a function and as methods over loaded lists | the methods refine the function, stale lists notwithstanding |
| `Steps`, `Reconciliation`, `Dispatch` | the phases of a tick, record by record | what becomes of every task, exactly, what is logged and what raises; no slot left unused |
| `Invariants`, `Runs`, `Progress` | what phases keep; runs of ticks, approvals, rejections and workers | launch order, concurrency bound, merge gates, faithful ledger, green integration branch, work conservation |
| `Landings`, `Stalls` | what counts as merged along a run; ticks that raise | launches wait for landed dependencies, merged tasks are contained, exact conditions of a stall |
| `Dag` | validation, topological order, critical path | termination, exactness, optimality |
| `Paths`, `Ownership`, `Checkpoints` | path containment, overlap resolution, checkpoint filter | strings agree with components, one owner a path, filter refines ownership |
| `ModelRefs`, `ProcessRecord`, `Quota` | model references, the two-writer process record, quota arithmetic | round trips, nothing lost, conservation |
| `Text`, `Wrappers` | Python string operations, options and results | what they keep |

## Reading the model

A repository is a commit graph, refs, HEAD, a flag for clean tracked files and the
untracked entries; `log` records every validation command run. What Git, the
validation commands and the outside world answer arrives as parameters (`Answers`,
`Effect`, `Observation`, `LaunchAnswers`), universally quantified in every theorem:
commands may fail, dirty tracked files, add and delete files, leave entries that
cannot be deleted, or end in an exception; `merge --abort`, `reset --hard` and the last
`switch` may fail too, since their return codes are ignored. Commands move no refs,
Git's queries answer, and Git's own output decodes as text. Untracked entries are named
as `ls-files` lists them, and known by what deleting them does.

A `World` is a ledger, a repository, the worktrees and four history variables: all
`launch_task` calls, all `integrate_one` calls, all approvals, and the packages that
have landed (a classification found their branch contained in the integration branch,
or `integrate_one` returned for them). A run starts
without package branches or worktrees and with planned tasks only; its steps are
controller ticks that return, `approve-merge`, `reject`, and anything workers and
people do in Git that leaves the integration branch alone and makes no branch or
worktree for a package never launched. Branches and worktrees are distinct, and the
configuration does not change during a run. The controller's methods need distinct
task ids, which every step keeps.

## Findings

Where a property does not hold of the code, the model shows a failing case and the
exact condition.

- Rollback: a call that begins on a detached HEAD leaves the repository on the
  integration branch (`DetachedHeadIsNotRestored`). A suite that raises anything but a
  `ValidationError` is not rolled back at all: output that is not UTF-8
  (`UndecodableOutputLeavesMerge`), a file in a read-only directory
  (`ReadOnlyFileLeavesMerge`). A `reset --hard` that fails is not noticed
  (`FailedResetLeavesRedHead`). A new file whose name Git prints quoted stays
  (`QuotedNameStays`), and one whose name loses a space can take a tracked file with it
  (`StrippedNameDirtiesTree`). `RollbackRestoresIff` is the exact condition for a full
  rollback, `KeepsGreenIff` the one for a green integration head.
- If the branch checked out at the call is the package's own, syncing brings it up to
  the integration head and the classifier does not call the package merged
  (`OwnBranchIsNotMerged`, exactly `MergedAgreesWithClassifier`).
- A stale task copy gets past the terminal guard (`StaleCopyResurrects`); the log
  stays true exactly while copies are fresh (`FreshnessDecides`), which the
  controller's loops maintain.
- Looking a package up by title prefix can find another package's task
  (`LookupFindsForeignTask`), and an integration then marks that task
  (`ForeignTaskIsMarked`). It finds the own task in all statuses exactly if no other
  task's id and name begin with the package's id and a space (`LookupIsOwnByNames`,
  for any tasks `LookupIsOwnIff`). The gates, the launch order and the concurrency
  bound hold all the same.
- One rejected task whose package is ready makes every tick raise
  (`RejectedReadyPackageStalls`, `StuckTickRaises`, exactly `HydrateRaisesIff`). So
  does approving a package that has no branch, for ticks that integrate
  (`EarlyApprovalStalls`, exactly `CandidateListRaisesIff`).
- Work left uncommitted in a worktree is not taken up again. Hydration makes such a
  package's task ready, a handoff or a pause included (`HydrationKeepsIff`,
  `HandoffReachesLaunchIff`), and the launch of a ready task refuses a dirty worktree and
  blocks the task (`DirtyReadyTaskIsBlocked`): only a handoff made in the same tick can
  repair it.
- In Hermes mode the next tick can take back a decision that is still open, without the
  supervisor (`OpenDecisionSurvivesIff` is the exact condition for it to stay).
- The ownership check of a completed package looks at what Git lists for its head
  commit only. Other commits of the branch may change anything
  (`EarlierCommitIsNotChecked`), and for a merge commit Git lists nothing
  (`MergeHeadIsNotChecked`). The check covers the branch exactly if the branch has no
  commit to bring in but a head with one parent (`HeadCheckCoversBranchIff`).
- Overlap resolution can leave a package without paths (`LosingEverythingIsRefused`),
  and scaffold inference can hand back a path that resolution gave away
  (`ScaffoldInferenceUndoesResolution`); either way the freeze is refused.
  `FreezeAcceptsIff` is the exact condition for its ownership part.
- Path normalisation is not idempotent when cutting uncovers whitespace
  (`NormalizeNotIdempotent`, exactly `NormalizeIdempotentIff`).
- A checkpoint of a package without owned paths commits the whole worktree
  (`UnownedCheckpointCommitsAll`). With owned paths, a file moved into one of them
  takes its deletion elsewhere past the filter, since rename detection lists the new
  name only (`RenameEscapesFilter`). `CheckpointStaysOwnedIff` is the exact condition.
- The process-record merge is safe when atomic. If the runner writes between its read
  and its write, or the read is torn, something is lost (`SplitMergeLosesExit`,
  `TornReadLosesPid`, exactly `SplitMergeKeepsIff` and `TornReadKeepsIff`).
- An explicitly reported quota share can be overwritten upwards by the next plain
  report, and a refused start allowed again (`PlainReportLiftsRefusal`, exactly
  `ExplicitShareHoldsIff`).

## Model

| member | source | states |
|---|---|---|
| Integration.IntegrateOne | src/railwarden/integration/manager.py:37-149 | the transaction as it changes the repository step by step equals the function `Integrate`, state and outcome, for all answers |
| Integration.RunMerge | src/railwarden/integration/manager.py:88-145 | the merge commit is made and validated |
| Integration.RunValidation | src/railwarden/integration/manager.py:95-145 | from the merge commit on: keep, roll back on a `ValidationError` or a failed suite, leave in place on any other exception, sync, record |
| Integration.RunSync | src/railwarden/integration/manager.py:120-138 | the original branch is fast-forwarded or merged, or the step raises |
| Runner.CleanupNewUntracked | src/railwarden/validation/runner.py:41-67 | the loop equals the sweep of the new, declared entries, what it reports included |
| Runner.SweepLeaves | src/railwarden/validation/runner.py:55-67 | what a sweep leaves: without a raising entry exactly the deletable ones go and tracked files stay clean unless one is hit; with one it raises |
| Runner.SweepRemoves | src/railwarden/validation/runner.py:55-67 | exactly the entries that can be deleted are reported, longest name first |
| Runner.RunSuite | src/railwarden/validation/runner.py:106-130 | the suite with its early break, its clean-up, its final cleanliness check and its exceptions equals `ValidationSuite` |
| Runner.SuitePassedMeansGreen | src/railwarden/validation/runner.py:106-130 | a suite that reports success ran every command and every required one passed on the checked-out commit |
| Runner.RunCommandsExactly | src/railwarden/validation/runner.py:115-122 | which commands get to run, and what is recorded of each: all before one that raises or is required and fails |
| Runner.LastCommandDecides | src/railwarden/validation/runner.py:118-122 | the working tree is left as the last command that ran left it |
| Runner.DeclaredMeans | src/railwarden/validation/runner.py:46-54 | a new entry may be deleted exactly if nothing is declared or its path components begin with those of a declared output |
| Runner.SuiteOutcomeExactly | src/railwarden/validation/runner.py:106-130 | the suite's answer by what its commands do: it passes exactly if it starts clean, all exit, the required ones with code 0, and it ends clean; the failing report and each error have their conditions |
| Runner.SuiteSweeps | src/railwarden/validation/runner.py:41-67 | a suite that reports has deleted exactly the new entries that may be and can be |
| History.RollbackRestoresIff | src/railwarden/integration/manager.py:65-111 | after any attempt that raises inside, refs, HEAD, tracked files and untracked names are restored if and only if, should the guards let the merge through, the suite came to an end, Git's ignored rollback commands worked and the commands left only entries that go, and HEAD is attached and can be checked out again |
| History.FailedAttemptLeavesNoTrace | src/railwarden/integration/manager.py:54-111 | with an attached HEAD, working Git commands and a suite that ends and leaves nothing hard to delete, every failed attempt is undone |
| History.EntryRefusalChangesNothing | src/railwarden/integration/manager.py:48-63 | a call refused at entry changes nothing |
| History.RefusedExactly | src/railwarden/integration/manager.py:47-72 | each refusal before the merge happens exactly for its reason, in this order |
| History.ProceedsExactly | src/railwarden/integration/manager.py:65-94 | every other call plans, fails to return or to merge, or makes the merge commit, each exactly under its condition |
| History.GoodCallMerges | src/railwarden/integration/manager.py:95-145 | a merge is kept, and the head moves to it, exactly if the suite starts, its commands exit, the required ones with code 0, and tracked files end clean; it is returned unless the way back or the evidence fails |
| History.ReturnedCallMeans | src/railwarden/integration/manager.py:73-145 | a call that returns ends on the branch it began on, or on the integration branch if HEAD was detached; its payload names the refs it found and made; the original branch is fast-forwarded if it can be, else merged; nothing else moves |
| History.KeptMergeFailsLater | src/railwarden/integration/manager.py:120-149 | where a kept merge whose sync or evidence failed leaves refs, HEAD and files |
| History.DetachedHeadIsNotRestored | src/railwarden/integration/manager.py:146-149 | a concrete failed call that does not restore a detached HEAD |
| History.FailedResetLeavesRedHead | src/railwarden/integration/manager.py:106-111 | a concrete call whose failed reset leaves a red integration head |
| History.UndecodableOutputLeavesMerge | src/railwarden/validation/runner.py:70-92 | a concrete call whose command output does not decode: no rollback, no recorded result |
| History.ReadOnlyFileLeavesMerge | src/railwarden/validation/runner.py:56-60 | a concrete failing suite whose clean-up raises: no rollback |
| History.QuotedNameStays | src/railwarden/validation/runner.py:56-60 | a concrete rollback that leaves a file with a quoted name |
| History.StrippedNameDirtiesTree | src/railwarden/git.py:44-45 | a concrete rollback that deletes a tracked file |
| History.HeadAfterFailure | src/railwarden/integration/manager.py:146-149 | where HEAD is after a call that raised inside, exactly |
| History.CleanupRestoresIff | src/railwarden/validation/runner.py:41-67 | cleaning up restores the untracked names and keeps tracked files clean exactly if no old name is missing and every new entry goes |
| History.IntegrationHeadMoves | src/railwarden/integration/manager.py:73-138 | the head stays, moves to a green merge of old head and candidate, or stays on a merge that did not pass, exactly if the suite crashed or the reset failed; only the branch checked out at entry moves besides |
| History.KeepsGreenIff | src/railwarden/integration/manager.py:89-111 | one call leaves the head where it was or on a green merge exactly if a merge it makes is undone or has all required commands recorded as passed |
| History.SoundCallKeepsGreen | src/railwarden/integration/manager.py:96-111 | a working reset and a suite that does not crash are enough for that |
| History.AlwaysGreen | src/railwarden/integration/manager.py:65-145 | over any sequence of calls that each meet that condition every head is the first one or a merge commit on which every required command passed |
| History.HeadsFormOneChain | src/railwarden/integration/manager.py:88-95 | all heads form one ancestor chain and recorded evidence is never lost |
| History.MergedAgreesWithClassifier | src/railwarden/scheduler/classifier.py:83-99 | after a successful call the package is in the merged set exactly if its branch was not the one checked out |
| History.OwnBranchIsNotMerged | src/railwarden/integration/manager.py:120-138 | a concrete call made from the package's own branch, integrated but not merged for the classifier |
| History.MergedIsStable | src/railwarden/scheduler/classifier.py:83-99 | it stays there through any later integrations while the branch does not move |
| History.MergedIsRefused | src/railwarden/integration/manager.py:71-72 | an attempt on a merged branch is refused and moves nothing |
| History.IntegratedOnce | src/railwarden/integration/manager.py:65-72 | along a run no package is integrated twice |
| Classifier.ClassifyPackages | src/railwarden/scheduler/classifier.py:74-167 | refused exactly for an invalid graph, otherwise one state a package by ascending id |
| Classifier.ClassificationMeans | src/railwarden/scheduler/classifier.py:83-150 | each kind exactly, in terms of Git, the worktree, the dependencies and the statuses in flight |
| Classifier.ClassificationNames | src/railwarden/scheduler/classifier.py:100-121 | branch, head, task and unmet dependencies a classification carries |
| Classifier.IntegrationIsClassifiedAsMerged | src/railwarden/scheduler/classifier.py:83-132 | right after a successful call the package is classified as merged unless its worktree is dirty |
| Ledger.TaskStore.EnsureTask | src/railwarden/runtime/tasks.py:50-75 | an existing task is returned, else a planned one is stored and its creation logged |
| Ledger.TaskStore.UpsertTask | src/railwarden/runtime/tasks.py:78-88 | the first record with the id is replaced, else the record is appended |
| Ledger.TaskStore.TransitionTask | src/railwarden/runtime/tasks.py:91-113 | the guarded transition on the caller's copy, error cases included |
| Ledger.EnsureKeepsFaithful | src/railwarden/runtime/tasks.py:50-75 | creating a task keeps the log a true account |
| Ledger.TransitionKeepsFaithfulIff | src/railwarden/runtime/tasks.py:91-113 | a transition keeps it exactly if copy and payload agree with the stored status |
| Ledger.TransitionMeans | src/railwarden/runtime/tasks.py:91-113 | a transition in full: both refusals exactly, the record it rewrites or adds, the notes it overlays, the one event it logs |
| Ledger.FreshnessDecides | src/railwarden/runtime/tasks.py:91-113 | for payloads without override keys that is exactly freshness of the copy |
| Ledger.StaleCopyResurrects | src/railwarden/runtime/tasks.py:100-101 | a stale copy brings a merged task back |
| Ledger.TerminalIsForever | src/railwarden/runtime/events.py:13-44 | along a chained log merged and rejected are never left |
| Ledger.TransitionIsLocal | src/railwarden/runtime/tasks.py:78-113 | every other record and the log before it stay as they were |
| Ledger.MostUrgentIsFound | src/railwarden/tasks/file_backend.py:50-82 | of the tasks of the package, or titled with its id and a space, the lookup returns the most urgent, ties to the least id |
| Ledger.LookupFindsOwnTask | src/railwarden/tasks/file_backend.py:50-82 | with space-free ids the lookup finds the package's own task and no other |
| Ledger.LookupIsOwnIff | src/railwarden/tasks/file_backend.py:50-82 | the lookup finds the own task whatever the statuses are, exactly if no other task matches |
| Ledger.LookupIsOwnByNames | src/railwarden/tasks/file_backend.py:50-82 | for tasks as `ensure_task` makes them, that condition in ids and names |
| Ledger.LookupFindsForeignTask | src/railwarden/tasks/file_backend.py:50-58 | a concrete id with a space, for which it finds somebody else's |
| Gates.ValidateCompletedPackage | src/railwarden/validation/worker_result.py:65-142 | the check with its in-place defaults equals `CompletedVerdict` |
| Gates.AcceptedIffSubstantiated | src/railwarden/validation/worker_result.py:83-142 | a completed result is accepted exactly if branch, commit, cleanliness, the paths listed for the commit (none for a merge), file list and tests bear it out |
| Gates.GitFailsIff | src/railwarden/validation/worker_result.py:72-99 | the check raises a Git error exactly if the worktree, the branch or the reported commit cannot be looked up when it is |
| Gates.HeadCheckCoversBranchIff | src/railwarden/git.py:111-120 | whatever the commits really change, an accepted branch is owned as a whole exactly if it has no commit to bring in but a head with one parent |
| Gates.EarlierCommitIsNotChecked | src/railwarden/validation/worker_result.py:100-120 | a concrete accepted branch with a commit outside its paths |
| Gates.MergeHeadIsNotChecked | src/railwarden/git.py:111-120 | a concrete accepted branch whose only commit is a merge that changes another path |
| Gates.RunPackageReview | src/railwarden/validation/review.py:19-60 | the verdict, and which finding is reported exactly when |
| Gates.HumanApprovalMeans | src/railwarden/validation/review.py:11-16 | a human must approve exactly for a flag, a manual merge policy, or the risk levels high and critical in any case |
| Tick.MoveIsTransition | src/railwarden/runtime/tasks.py:78-113 | with distinct ids a transition through a fresh copy rewrites exactly the stored task |
| Controller.Kernel.TransitionTo | src/railwarden/runtime/tasks.py:91-113 | from a fresh copy to a fresh copy, no other record changed |
| Controller.Kernel.HydrateStates | src/railwarden/engine/controller.py:338-349 | working from dicts loaded before, each state moves the stored task |
| Controller.Kernel.HydrateTaskState | src/railwarden/engine/controller.py:326-350 | ensure, classify and move equal `Hydrate` |
| Controller.Kernel.ReconcileClaim | src/railwarden/engine/controller.py:618-701 | check, validate, review and gate a completed result |
| Controller.Kernel.ReconcileMissingResult | src/railwarden/engine/controller.py:716-800 | without a result the process, the commit and the mode decide |
| Controller.Kernel.ReconcileProcesses | src/railwarden/engine/controller.py:568-838 | the loop over a loaded list equals processing every stored task, since later entries stay fresh |
| Controller.Kernel.DefaultDecisions | src/railwarden/engine/controller.py:498-565 | the same for the default supervisor |
| Controller.CollectCandidates | src/railwarden/engine/controller.py:1264-1282 | mergeable packages in classification order, raising on a missing branch |
| Controller.Kernel.IntegrateFirst | src/railwarden/engine/controller.py:1129-1159 | at most the first candidate is integrated, bracketed by its task's transitions; what is no `GitError` or `ValidationError` gets through |
| Controller.Kernel.PrepareWorktree | src/railwarden/provisioning/worktrees.py:30-88 | reuse, refuse, clear, or create branch and worktree |
| Controller.Kernel.Launch | src/railwarden/engine/controller.py:841-965 | launching one task up to the caller's handler, wherever a call refuses or raises |
| Controller.Kernel.LaunchReady | src/railwarden/engine/controller.py:1160-1228 | the launch loop over a loaded list with decreasing slots equals `LaunchFrom` |
| Controller.Kernel.ControllerTick | src/railwarden/engine/controller.py:1100-1228 | a returning tick equals the function of the same name, and keeps the invariant and the concurrency bound |
| Controller.Kernel.ApproveMerge | src/railwarden/cli/main.py:1427-1437 | the first task with that id or package id becomes merge-approved |
| Invariants.ReconcileFromKeeps | src/railwarden/engine/controller.py:568-838 | reconciliation keeps the invariant and activates nothing |
| Invariants.DecideFromKeeps | src/railwarden/engine/controller.py:498-565 | so do the supervisor's decisions, a normalisation being impossible outside Hermes mode |
| Invariants.IntegratePhaseKeeps | src/railwarden/engine/controller.py:1129-1159 | integration meets the gates and leaves the activity as it was |
| Invariants.LaunchFromKeeps | src/railwarden/engine/controller.py:1160-1228 | launching keeps the order and activates at most one task a slot |
| Steps.HydrationReachesTargets | src/railwarden/engine/controller.py:338-349 | every classified package's task ends in the status its classification asks for, written out; all others are untouched |
| Steps.EveryPackageHasTask | src/railwarden/engine/controller.py:328-337 | a planned task is made for exactly the packages that have none |
| Steps.TasksAreMadeInOrder | src/railwarden/engine/controller.py:330-337 | tasks are made in the order of the configuration |
| Steps.HydrationMeans | src/railwarden/engine/controller.py:326-350 | hydration as a whole, for every task, stored or made |
| Steps.HydrationKeepsIff | src/railwarden/engine/controller.py:338-349 | exactly when hydration leaves a task in flight, a handoff, a pause or an open decision alone |
| Steps.DecideOneDecides | src/railwarden/engine/controller.py:498-565 | what a decision does to the record, the repository and the log, and exactly when it raises |
| Steps.DecideFromDecides | src/railwarden/engine/controller.py:498-565 | the default supervisor's phase decides every open decision of a known package by its own record: normalised, handed over if that is allowed and a provider on record, tried again if that is allowed, else blocked; it raises exactly if a result cannot be normalised |
| Steps.ListedCandidate | src/railwarden/engine/controller.py:1264-1282 | a candidate names a configured package, its branch and head, and marks a task that answers to the package, the own one unless the title begins with another id |
| Steps.MergedTaskIsContained | src/railwarden/engine/controller.py:1129-1159 | integrating a listed candidate marks its task merged exactly if `integrate_one` returned, and then the package's branch is contained in a new green head |
| Steps.BracketIsLogged | src/railwarden/engine/controller.py:1136-1157 | the log shows the attempt's task integrating, and then merged or failed |
| Steps.AttemptRaisesIff | src/railwarden/engine/controller.py:1129-1159 | an attempt lets an exception out exactly if its task is terminal or `integrate_one` raised what the tick does not catch |
| Steps.ForeignTaskIsMarked | src/railwarden/engine/controller.py:1131-1136 | for packages "A" and "A B", the candidate of the first marks the task of the second |
| Reconciliation.ReconcileOneMeans | src/railwarden/engine/controller.py:568-838 | reconciling one task, exactly: the new record, what was saved or dirtied, what was logged, and when it raises, case by case on what was observed |
| Reconciliation.ReconcilePhaseMeans | src/railwarden/engine/controller.py:568-838 | the phase reconciles every stored task once, in order, on the record it found, and raises exactly if it comes to one that cannot be reconciled |
| Invariants.WorktreeIsSafe | src/railwarden/provisioning/worktrees.py:30-88 | exactly when a worktree is provided, and that nothing else is touched |
| Dispatch.LaunchOneMeans | src/railwarden/engine/controller.py:1168-1227 | what becomes of a waiting task, exactly: set aside, paused, launched or blocked, what is logged, and when the loop raises |
| Dispatch.LaunchPhaseMeans | src/railwarden/engine/controller.py:1160-1228 | the phase starts with the slots the limit leaves, takes one for each launch and stops only without slots or tasks |
| Dispatch.LaunchPhaseFills | src/railwarden/engine/controller.py:1160-1228 | after a launch phase as many tasks are active as the limit allows, or every waiting task has been dealt with |
| Runs.LaunchOrderLinearises | src/railwarden/engine/controller.py:1163-1227 | every launch of a package comes after a launch of each of its transitive dependencies |
| Runs.ConcurrencyBound | src/railwarden/engine/controller.py:1160-1164 | the number of active tasks of a run never exceeds the configured concurrency |
| Runs.TickAdvances | src/railwarden/engine/controller.py:1100-1228 | a tick that returns keeps the invariant and ends with no more active tasks than the limit or than it started with |
| Runs.StepDropsNothing | src/railwarden/provisioning/worktrees.py:39-88 | no tick, approval or rejection removes a branch, or removes or switches a registered worktree |
| Runs.NoDecisionStaysOpen | src/railwarden/engine/controller.py:498-565 | in controller mode a tick past the plan and context checks leaves no decision open for a known package |
| Runs.HumanGate | src/railwarden/validation/review.py:11-16 | a package that needs a human reaches `integrate_one` only from `merge_approved`, after an earlier approval of that very task |
| Runs.ReviewGate | src/railwarden/engine/controller.py:683-701 | `review_passed`, and any attempt without approval, carries passed validation, a passed review, a commit whose listed paths are owned, and needs no human |
| Runs.ReviewPassedExactly | src/railwarden/engine/controller.py:618-701 | the controller writes `review_passed` exactly if claim, suite and review hold and no human is needed, on the branch's head commit |
| Runs.LedgerIsFaithful | src/railwarden/runtime/events.py:13-44 | throughout a run replaying the log gives the stored statuses |
| Runs.TerminalTaskStays | src/railwarden/runtime/tasks.py:100-101 | over a run merged and rejected tasks stay so |
| Runs.ControllerKeepsGreen | src/railwarden/engine/controller.py:1129-1159 | between any points of a run the integration head stays or moves to a green descendant |
| Progress.LeastCandidateIsIntegrated | src/railwarden/engine/controller.py:1264-1282 | of the packages whose last task may be merged the one with the least id is integrated, by one call for its branch as it stands |
| Progress.WaitingTickChangesNothing | src/railwarden/engine/controller.py:1107-1116 | without approved plan or context a tick changes nothing, without `integrate` it attempts no merge |
| Progress.LiveWorkerIsLeftAlone | src/railwarden/engine/controller.py:716-720 | over a whole tick a task whose worker is alive and has left no result keeps its record |
| Progress.HandoffReachesLaunchIff | src/railwarden/engine/controller.py:338-349 | a handoff or pause is still there for the launch loop exactly if its worktree is clean and its branch is not merged; with a dirty worktree it is ready instead |
| Progress.DirtyReadyTaskIsBlocked | src/railwarden/provisioning/worktrees.py:58-63 | a ready task whose worktree is dirty is never launched |
| Progress.OpenDecisionSurvivesIff | src/railwarden/engine/controller.py:338-349 | in Hermes mode an open decision survives hydration exactly if its worktree is clean, its branch is not merged, and it has a commit to integrate or a dependency to wait for |
| Progress.NoSlotIsWasted | src/railwarden/engine/controller.py:1160-1228 | after every tick of a run that starts workers the limit is reached or no task waits, except for quota |
| Progress.NewBranchesContainHead | src/railwarden/provisioning/worktrees.py:74-81 | every branch a tick makes contains the integration head the tick ends with |
| Progress.CommandsMean | src/railwarden/cli/main.py:1379-1437 | approving and rejecting go through exactly for the first task so named, of a known package, that is in no other terminal status, and change that record only |
| Landings.LaunchedAfterDependenciesLanded | src/railwarden/scheduler/classifier.py:83-147 | when a package is launched, each direct dependency's branch has been contained in the integration branch in that tick or an earlier one |
| Landings.MergedTaskHasLanded | src/railwarden/engine/controller.py:338-349 | a task becomes merged, by hydration or integration, only in a tick in which its own package's branch is contained, unless its title begins with another id |
| Landings.LandedWasContained | src/railwarden/scheduler/classifier.py:83-99 | whatever counts as landed was contained at some tick before |
| Stalls.HydrateRaisesIff | src/railwarden/engine/controller.py:338-349 | hydration raises exactly for an invalid graph or a rejected task whose classification asks for a move |
| Stalls.StuckTickRaises | src/railwarden/engine/controller.py:1100-1125 | such a task makes every tick raise once plan and context are ready |
| Stalls.RejectedReadyPackageStalls | src/railwarden/engine/controller.py:344-349 | a concrete run, one rejection long, after which every tick raises |
| Stalls.CandidateListRaisesIff | src/railwarden/engine/controller.py:1264-1282 | listing candidates raises exactly if a task is ready for a merge whose package has no branch |
| Stalls.EarlyApprovalStalls | src/railwarden/cli/main.py:1427-1437 | a concrete run, one approval long, after which every integrating tick raises |
| Dag.RankedIffAcyclic | src/railwarden/scheduler/dag.py:13-47 | a measure for the unguarded recursions exists exactly for acyclic graphs |
| Dag.CycleSearch.Visit | src/railwarden/scheduler/dag.py:61-70 | the search terminates on every graph and reports only real cycles |
| Dag.ValidateDag | src/railwarden/scheduler/dag.py:50-73 | returns normally iff dependencies are known and nothing reaches itself; each error is true |
| Dag.Topological | src/railwarden/scheduler/dag.py:13-28 | a duplicate-free order of all packages, dependencies first, and exactly the one of the post-order walk from the sorted packages |
| Dag.OrderGoesByLeastIds | src/railwarden/scheduler/dag.py:13-28 | for every number of least ids a prefix of the order lists exactly what they need |
| Dag.OrderGoesByDependencies | src/railwarden/scheduler/dag.py:18-28 | within an id the order goes by that package's list of dependencies |
| Dag.SearchOrderIsCanonical | src/railwarden/scheduler/dag.py:18-28 | that order does not depend on the dict's own order |
| Dag.TransitiveDependencyPrecedes | src/railwarden/scheduler/dag.py:13-28 | transitive dependencies precede too |
| Dag.PathMemo.PathTo | src/railwarden/scheduler/dag.py:34-45 | the memoised search equals its recursive definition |
| Dag.LongestOfIsFirst | src/railwarden/scheduler/dag.py:40-42 | of several longest paths to its dependencies a package takes the first |
| Dag.LongestToIsChain | src/railwarden/scheduler/dag.py:34-45 | that is a chain from a package without dependencies |
| Dag.NoLongerChain | src/railwarden/scheduler/dag.py:34-45 | and no chain to the same package is longer |
| Dag.CriticalPath | src/railwarden/scheduler/dag.py:30-47 | a longest chain of the whole graph, the first in dict order |
| Paths.NormalizeRepoPath | src/railwarden/validation/paths.py:8-12 | the loop equals `Normalize` |
| Paths.NormalizeMeans | src/railwarden/validation/paths.py:8-12 | a path is whitespace, `./`s, its normal form and slashes, written with either slash, and whitespace |
| Paths.NormalizeIdempotentIff | src/railwarden/validation/paths.py:8-12 | normalising twice is normalising once exactly when cutting uncovers no whitespace |
| Paths.NormalizeIdempotentOnSpaceFree | src/railwarden/validation/paths.py:8-12 | so on all whitespace-free input |
| Paths.NormalizeNotIdempotent | src/railwarden/validation/paths.py:8-12 | a concrete path that changes twice |
| Paths.WithinIsComponentPrefix | src/railwarden/validation/paths.py:15-25 | the string test is the component test |
| Paths.WithinIsTransitive | src/railwarden/validation/paths.py:15-25 | containment is transitive |
| Paths.CommonPathNestsRoots | src/railwarden/validation/paths.py:15-25 | roots of a common path are nested |
| Paths.OwnedPathsAcceptedIff | src/railwarden/validation/paths.py:28-62 | exactly when changes are accepted, and what the errors name |
| Paths.ErrorsInOrder | src/railwarden/validation/paths.py:36-62 | which error is raised, exactly, and what it lists |
| Paths.DisjointOwnersDisjointChanges | src/railwarden/validation/paths.py:28-62 | packages without nested roots never change the same file |
| Checkpoints.Workspace.CreateCheckpointCommit | src/railwarden/runtime/checkpoints.py:38-106 | what is staged, listed, unstaged and committed, with rename sources the listing hides, error cases included |
| Checkpoints.CheckpointRefinesOwnership | src/railwarden/runtime/checkpoints.py:95-106 | every file the filter keeps is inside an owned root, and conversely for normal roots |
| Checkpoints.CheckpointTakesExactly | src/railwarden/runtime/checkpoints.py:51-57 | what a checkpoint commits, exactly: owned work is never left behind |
| Checkpoints.CheckpointEndsExactly | src/railwarden/runtime/checkpoints.py:46-59 | how a checkpoint ends, exactly, errors included |
| Checkpoints.CheckpointStaysOwnedIff | src/railwarden/runtime/checkpoints.py:51-106 | a checkpoint stays owned exactly if nothing is pending, or paths are owned and no rename source outside them is hidden |
| Checkpoints.RenameEscapesFilter | src/railwarden/runtime/checkpoints.py:90-106 | a concrete move into an owned path that commits the deletion outside it |
| Checkpoints.UnownedCheckpointCommitsAll | src/railwarden/runtime/checkpoints.py:51-53 | without owned paths everything is committed |
| Ownership.ResolveOwnedPathOverlaps | src/railwarden/planning/pipeline.py:482-508 | each package keeps, in order, exactly the paths it wins |
| Ownership.KeyOrderMeans | src/railwarden/planning/pipeline.py:511-515 | ids are ordered by the decimal number after the last dash, then by code points |
| Ownership.OneOwnerPerClaimedPath | src/railwarden/planning/pipeline.py:482-515 | every claimed path has exactly one owner, the greatest claimant, and nothing else is owned |
| Ownership.ResolutionIgnoresOrder | src/railwarden/planning/pipeline.py:482-515 | the result for a package does not depend on the order |
| Ownership.ResolutionIdempotent | src/railwarden/planning/pipeline.py:482-515 | resolving again changes nothing |
| Ownership.InferScaffoldOwnedPaths | src/railwarden/validation/contract.py:80-105 | owned paths grow by exactly the missing extras of a scaffold |
| Ownership.FreezeOwnership | src/railwarden/validation/contract.py:17-47 | the plan passes exactly if it is not empty, every package with an id has a path and no two share one; each error is true |
| Ownership.ExclusiveIffNothingReclaimed | src/railwarden/validation/contract.py:37-105 | after resolution no path is shared exactly if inference hands none back |
| Ownership.FreezeAcceptsIff | src/railwarden/validation/contract.py:17-105 | after resolution and inference the ownership part accepts exactly if nothing is handed back and every other package than a scaffold wins a path |
| Ownership.LosingEverythingIsRefused | src/railwarden/validation/contract.py:27-29 | a concrete plan refused because a package lost its only path |
| Ownership.ScaffoldInferenceUndoesResolution | src/railwarden/validation/contract.py:80-105 | a concrete plan that is refused |
| ModelRefs.NormalizedParsesBack | src/railwarden/runtime/model_refs.py:35-94 | parsing the printed form gives the reference back |
| ModelRefs.RefRoundTrip | src/railwarden/runtime/model_refs.py:35-94 | so for every whitespace-free reference without `%` and `+` |
| ModelRefs.NormalizedIgnoresKeyOrder | src/railwarden/runtime/model_refs.py:35-43 | the printed form does not depend on the dict's key order |
| ModelRefs.NormalizedMeans | src/railwarden/runtime/model_refs.py:35-43 | the printed form, with the options by ascending key |
| ModelRefs.PlainReferenceMeans | src/railwarden/runtime/model_refs.py:46-94 | what a reference without options is read as, or why it is refused |
| ModelRefs.UrlReferenceMeans | src/railwarden/runtime/model_refs.py:71-94 | the same with a base URL |
| ModelRefs.OptionsMean | src/railwarden/runtime/model_refs.py:57-68 | options are read after the rest is accepted, and only an unknown effort is refused |
| ModelRefs.LaterFieldWins | src/railwarden/runtime/model_refs.py:59 | of several options of one name the last counts; one without a value is skipped |
| ModelRefs.NormalizingIsIdempotent | src/railwarden/runtime/model_refs.py:35-94 | printing a parsed printed form prints the same |
| ModelRefs.ProfileRoundTrip | src/railwarden/runtime/session.py:50-123 | a profile is rebuilt by its own reference |
| ModelRefs.ProfileMeans | src/railwarden/runtime/session.py:113-134 | what a profile takes over from its reference, its transport and its key |
| ProcessRecord.ProcessFile.MergeLaunchRecord | src/railwarden/engine/controller.py:118-177 | the controller's read-merge-write as one atomic step |
| ProcessRecord.ProcessFile.WriteRunning | src/railwarden/processes/tmux_runner.py:176-222 | the runner's first write |
| ProcessRecord.ProcessFile.WriteExited | src/railwarden/processes/tmux_runner.py:234-240 | the runner's last write |
| ProcessRecord.MergeIdempotent | src/railwarden/engine/controller.py:118-177 | merging the same record twice is merging it once |
| ProcessRecord.MergeMeans | src/railwarden/engine/controller.py:118-177 | the merged record, key by key |
| ProcessRecord.InterleavingsKeep | src/railwarden/processes/tmux_runner.py:176-240 | for every interleaving status never falls, a pid never vanishes, a return code is never lost |
| ProcessRecord.NothingIsEverLost | src/railwarden/processes/tmux_runner.py:91-107 | the same between any two moments of a launch |
| ProcessRecord.SplitMergeKeepsIff | src/railwarden/engine/controller.py:931-953 | a split read and write loses nothing exactly if the runner wrote nothing in between |
| ProcessRecord.TornReadKeepsIff | src/railwarden/engine/controller.py:124-129 | a torn read is harmless exactly before the runner starts |
| ProcessRecord.SplitMergeLosesExit | src/railwarden/engine/controller.py:931-953 | a concrete split merge that loses the return code |
| ProcessRecord.TornReadLosesPid | src/railwarden/engine/controller.py:124-129 | a concrete torn read that erases the pid |
| Quota.QuotaStore.UpdateUsage | src/railwarden/runtime/quota.py:55-91 | the stored record after a report: tokens add up, a limit replaces, and the share is the reported one or what the total leaves of the limit |
| Quota.QuotaStore.AllowsStart | src/railwarden/runtime/quota.py:94-106 | a start is refused exactly if a share is stored below the threshold of a hard stop; a missing share always allows |
| Quota.UsageIsConserved | src/railwarden/runtime/quota.py:64-79 | used tokens are the start value plus all reports, and the share is a function of the total |
| Quota.RemainingNeverRises | src/railwarden/runtime/quota.py:67-68 | the remaining share never rises |
| Quota.RefusalIsFinal | src/railwarden/runtime/quota.py:94-106 | once a hard stop refuses, every later start is refused |
| Quota.ExplicitShareHoldsIff | src/railwarden/runtime/quota.py:67-77 | when an explicit share can be overwritten upwards |
| Quota.PlainReportLiftsRefusal | src/railwarden/runtime/quota.py:64-104 | a concrete refusal lifted by a plain report |

## Left out

- Controller.Kernel.ControllerTick: nothing is stated about a tick that lets an exception out; it leaves the ledger and the repository wherever the exception found them.
- Landings.MergedTaskHasLanded: says nothing for a task whose title begins with another package's id; `ForeignTaskIsMarked` shows why.
- Checkpoints.Workspace.CreateCheckpointCommit: names that Git prints quoted or that read as pathspec patterns when they are unstaged.
- Runs.ReviewGate: does not say that the merged commit is the reviewed one; the candidate's head is read again from the branch.
- Gates.ValidateCompletedPackage: names are as `diff-tree` prints them; the program refuses an owned file whose name is printed quoted.
- Runs.ControllerKeepsGreen: assumes that `reset --hard` works in every tick; `FailedResetLeavesRedHead` shows why. A suite that crashes ends its tick without a result.
- ModelRefs.RefRoundTrip: percent-decoding is a parameter that keeps text without `%` and `+`; what it does to others is not part of this model.
- ProcessRecord.InterleavingsKeep: takes the controller's read-merge-write as one step; the split is treated by the two exact conditions beside it.
- Hermes supervision: its tool calls move tasks by their own rules, so runs contain ticks, approvals and rejections only.
- Manual `retry` and the queue commands that set `review_passed` or integrate from the classification: they bypass the gates and the launch order on purpose.
- `execution_plan` and the choice of a provider by priority: ordering and filtering of lists; a launch is told its provider.
- Provider health, cooldown and session agents: a healthy probe clears the cooldown, so availability is taken as given at each launch.
- Workflow stage, evidence files, decision records, checkpoint metadata and handoff packets: written, never read back by the steps modelled.
- Log events other than creations and transitions, and the `limit` of `read_events`: they do not affect replay.
- File locks, atomic file replacement, JSON and YAML loading, subprocesses and tmux: one integration at a time is the answer `lockFree`; a task file is a list in memory.
- Schema validation of results and the conversion of odd `tests` values: one flag and a list of statuses in `Report`.
- The branch and worktree recorded in a task: equal to the package's own while the configuration does not change.
- `complete_worker_task` and `normalize_result`: three outcomes, taken as parameters, and whether the commands left the worktree dirty; they do not touch the task's status.
- Ignored files and ignore rules that differ between branches, Git hooks, hash collisions, and tags or remote names that shadow a branch.
- Text tests for scaffold packages: a flag of the package; non-ASCII digits in id suffixes and non-ASCII case folding.
- Quota shares are reals; rounding of floats is not modelled.

# Run queue, drain and integration: a verified model

The router queues coding tasks, lets drainers claim and execute them, judges what the worker did and
fast-forwards an accepted change onto the operator's branch. This project models that protocol and
the checks it relies on, and proves what they guarantee.

| file | models |
|---|---|
| `PosixPaths.dfy` | `PurePosixPath` parts, scope and deny tests, the repository-plus-path encoding, the change gate |
| `TaskRequests.dfy`, `RequestDocuments.dfy` | request validation and its stored form; which documents are accepted, key by key |
| `Policies.dfy`, `PolicyFiles.dfy` | policy files and their tighten-only fold; the fold in the files' own entries |
| `Lifecycles.dfy`, `StateStores.dfy` | the lifecycle table and the run store as a class |
| `RunProtocol.dfy` | the run store under concurrency: every statement a step, any actors, any crashes |
| `ClaimLaws.dfy` | claims in terms of the rows, and the store's calls as steps of that protocol |
| `TerminalRecords.dfy` | lifecycle and outcome of terminal runs, and crash recovery, under the same concurrency |
| `Scheduler.dfy`, `DrainProtocol.dfy` | batch selection; one drain call as a state machine under arbitrary interference |
| `DrainLoop.dfy` | the sequential and the batched drain loop as methods, and the refinement between them |
| `DrainTraces.dfy` | the batched loop as a run of the state machine in `DrainProtocol.dfy`, every foreign step of which is the environment's |
| `Executor.dfy` | the correction loop, the verdict pipeline, the join budget |
| `Acceptance.dfy` | acceptance in terms of the request's own commands and paths, the configuration's numbers and the oracles |
| `Integration.dfy`, `Gating.dfy` | concurrent fast-forward integrations over a commit graph; who may integrate |
| `QueueActors.dfy` | cancel, the integrate command and the lifecycle sync as single calls |
| `EndToEnd.dfy` | from the stored request of a run to the row a drain leaves |

Interleavings are lists of steps: a theorem about `At(s, steps, n)` is about every state every
interleaving can reach. Oracles (worker, tests, Git, provider, evidence files, process liveness) are
function or datatype parameters with arbitrary answers.

## Results that differ from what one might expect

- `finish` checks the transition in a SELECT and writes in an UPDATE that no longer checks. So a
  worker's write can undo a committed cancel, even back to `ready-for-review`
  (`RunProtocol.SplitFinishUndoesCancel`). Terminal states absorb in exactly the interleavings in
  which no call loses a race: between its check and its write no other call writes a terminal state
  different from its own to the same run (`RunProtocol.TerminalStaysExactly`). A second write of the
  same state may still replace the outcome; `TerminalRecords.RecordsStayExactly` is the condition for both.
  The theorems named `Guarded…`, `RunProtocol.FirstFinisherWins` and `Integration.NoMergeAfterCancel`
  state the hypothesis that check and write happen together. At-most-once execution needs no such
  hypothesis.
- `execute_task` can raise. A read-only request that names a test profile with commands does so because
  replacing the request's commands runs its validation again (`Executor.AcceptedRequestRaises`). Test
  output and worker output that cannot be decoded, and provider settings that are no text, raise past
  their handlers too, although `_invoke_worker` says that it never raises. `Executor.ExecuteTask` states
  exactly when an exception leaves. The batched drain blocks such a run and goes on to its next read of
  the provider; the sequential drain stops with the exception and leaves the row running. Hence, with a
  provider that stays readable, the two drains agree exactly when no pending run raises
  (`DrainLoop.BatchedRefinesSequential`).
- `drain` itself reads the provider and has no handler for the same settings: the exception leaves it,
  before any claim if the first read raises, and otherwise exactly when the read after a run or after a
  batch that was on time raises. Every run claimed before is closed and nothing is claimed afterwards
  (`DrainLoop.Drain`, `DrainBatched`, `DrainSequential`).
- Crash recovery at the start of `drain` has no handler for a refused finish. Of two drains that start
  together and find the same interrupted run, one may raise before it claims anything
  (`TerminalRecords.TwoRecoveriesCollide`); `TerminalRecords.RecoveryRefusedExactly` says when.
- The join budget counts the inline commands of the stored request. For a profile with `k` commands it
  is sufficient exactly when all attempts together exceed two full timeouts per attempt by no more than
  the 60 seconds of slack (`Executor.ProfileFitsBudgetExactly`); `Executor.ProfileOutlastsBudget` is an
  accepted run that outlasts it.
- "On failure the repository is untouched" (`integration.py` line 35) does not hold: reading HEAD again,
  recording it and sealing the evidence come after the merge and can fail. A failing call has moved HEAD
  exactly when the merge moves it and one of those steps fails (`QueueActors.IntegrateRun`). Then the row
  stays ready for review and the landed change can still be cancelled as discarded
  (`QueueActors.LandedThenDiscarded`).
- `git merge --ff-only` reports success, without moving HEAD, when the commit is already part of HEAD.
  An operator who merges a worker branch by hand while its integrator is past the base check gets two
  siblings integrated (`Integration.HandMergeAdmitsSibling`). At most one of several siblings is
  integrated in exactly the interleavings without such an idle second merge
  (`Integration.SiblingsExcludeExactly`), hence in all without hand merges
  (`Integration.AtMostOneSiblingIntegrated`).
- A comment calls an unreadable scope maximally conflicting (`task_queue.py` line 247). Its path
  conflicts with nothing in particular; it is kept apart because it is marked exclusive. The module
  docstring of the same file still describes drain as strictly sequential; the code also batches.

## Model

| member | source | states |
|---|---|---|
| PosixPaths.NormalizeIsFilter | src/claude_worker_router/models.py:253-264 | path normalization accepts exactly the relative paths without empty, "." or ".." components and returns them unchanged |
| PosixPaths.PrefixIsDirectory | src/claude_worker_router/scheduler.py:15-31 | between normal paths, lying at or under a path is being it or starting with it and a slash |
| PosixPaths.ConflictIsSharedFile | src/claude_worker_router/scheduler.py:15-31 | two scopes conflict if and only if some file path lies in both by the change gate's test |
| PosixPaths.DenyGatesAgree | src/claude_worker_router/executor.py:960-984 | the static gate refuses a scope if and only if every path strictly below it would be denied after the run |
| PosixPaths.ComposedConflict | src/claude_worker_router/task_queue.py:287-300 | composed scopes conflict if and only if the repository keys are equal and the raw scopes conflict |
| PosixPaths.ConflictIsPerRepository | src/claude_worker_router/task_queue.py:257-300 | with a key that separates the two repositories, composed scopes conflict iff it is one repository and some file lies in both scopes |
| PosixPaths.AcceptedChangesDisjoint | src/claude_worker_router/git_workspace.py:59-83 | changes that pass the gate under non-conflicting scopes share no file |
| TaskRequests.StripIdempotent | src/claude_worker_router/models.py:140-173 | stripping a task twice is stripping it once |
| TaskRequests.AcceptedIsValid | src/claude_worker_router/models.py:119-180 | what validation guarantees of every accepted request |
| RequestDocuments.AcceptedExactly | src/claude_worker_router/models.py:119-180 | which decoded documents are accepted, key by key, with the defaults for absent keys, and that the request is what the document says |
| RequestDocuments.StripCutsSpaces | src/claude_worker_router/models.py:140-173 | stripping removes spaces at both ends, all of them and nothing else |
| TaskRequests.StoredRequestRebuildsEqual | src/claude_worker_router/models.py:135-193 | any accepted request is rebuilt equal from its stored form, given only that path resolution is stable on its results |
| Policies.LoadPolicyFile | src/claude_worker_router/policy.py:171-222 | a file is refused when malformed; otherwise it yields what it states, with absent axes inherited |
| Policies.ResolveEffectivePolicy | src/claude_worker_router/policy.py:252-302 | the effective policy is the fold of the files that exist over the configuration floor, global before project |
| Policies.FilesFoldAsLayers | src/claude_worker_router/policy.py:252-302 | folding files is folding the layers they state |
| Policies.EffectiveIsGreatestLowerBound | src/claude_worker_router/policy.py:125-152 | the effective policy is the greatest policy below the floor and every layer |
| Policies.RefusedExactlyOnRelaxation | src/claude_worker_router/policy.py:110-152 | layers are refused exactly when one states a number above what is already folded; an absent axis never causes it |
| Policies.EffectiveBelowFloor | src/claude_worker_router/policy.py:252-302 | an accepted policy never exceeds the configuration floor on any axis |
| PolicyFiles.AcceptedExactly | src/claude_worker_router/policy.py:171-222 | which decoded files are accepted: only known tables and keys, positive numbers, normal deny paths |
| PolicyFiles.EffectiveByEntries | src/claude_worker_router/policy.py:252-302 | the effective policy is the greatest one below the configuration's numbers that obeys every number, deny path and sandbox demand of every file |
| Lifecycles.AllowedPairs | src/claude_worker_router/models.py:37-54 | the transition table, pair by pair |
| Lifecycles.ReachesIsClosure | src/claude_worker_router/models.py:27-64 | reachability in the table: terminal states absorb, pending and running are never re-entered from later states |
| StateStores.StateStore.InsertPending | src/claude_worker_router/state_store.py:111-143 | a safe new id gets a pending row; an unsafe or known id changes nothing |
| StateStores.StateStore.EnsureRow | src/claude_worker_router/state_store.py:145-182 | an unsafe id is refused, a known row is returned unchanged, an unknown run is tracked with the lifecycle of its status |
| StateStores.StateStore.ClaimNext | src/claude_worker_router/state_store.py:274-316 | no pending row has a higher priority, or the same and an earlier submission, than the claimed one; it becomes running with the claim's pid and epoch and nothing else changes |
| StateStores.StateStore.ClaimSpecific | src/claude_worker_router/state_store.py:327-364 | the row is won if and only if it is pending; otherwise nothing changes |
| StateStores.StateStore.Finish | src/claude_worker_router/state_store.py:218-247 | without interference: succeeds exactly on an allowed transition and then sets lifecycle, outcome and clears the pid |
| StateStores.StateStore.UpdateLifecycle | src/claude_worker_router/state_store.py:184-216 | succeeds exactly on an allowed transition; the outcome is kept |
| StateStores.StateStore.ReconcileInterrupted | src/claude_worker_router/state_store.py:380-414 | undisturbed: exactly the running rows whose process is gone become blocked, the count is theirs, and a second recovery finds none |
| RunProtocol.HandedAtMostOnce | src/claude_worker_router/state_store.py:285-364 | in every interleaving, with check and write split, each run is handed to at most one executor |
| ClaimLaws.TakenAtMostOnce | src/claude_worker_router/state_store.py:274-364 | in every interleaving at most one step is a claim of a run while its row is pending, and that is how often executors are handed the run |
| ClaimLaws.MissedClaim | src/claude_worker_router/state_store.py:344-364 | a claim that does not find its row pending, or at the head of the queue where that is asked, changes nothing at all |
| ClaimLaws.TakenRowStays | src/claude_worker_router/state_store.py:184-364 | once a run has left the queue its epoch never changes, and its row only by pid updates and by writes of checked transitions to it |
| ClaimLaws.ClaimNextIsStep | src/claude_worker_router/state_store.py:274-316 | the store's claim of the head, undisturbed, is the protocol's claim step |
| ClaimLaws.ClaimSpecificIsStep | src/claude_worker_router/state_store.py:327-364 | the store's conditional claim, undisturbed, is the protocol's claim step, and is won iff that takes the row |
| RunProtocol.NeverPendingAgain | src/claude_worker_router/models.py:37-54 | in every interleaving a run that left the queue never becomes pending again |
| RunProtocol.PendingHasNoEpoch | src/claude_worker_router/state_store.py:285-364 | in every interleaving a pending run carries no epoch, if none does at the start |
| RunProtocol.TerminalStaysExactly | src/claude_worker_router/state_store.py:228-247 | terminal states absorb in an interleaving iff no call writes after another call's different terminal write to the same run has come between its own check and write |
| TerminalRecords.RecordsStayExactly | src/claude_worker_router/state_store.py:184-247 | lifecycle and outcome of terminal runs stay in an interleaving iff no call writes after another call's terminal write to the same run, since its own check, with another state or another outcome |
| TerminalRecords.RecoveryRefusedExactly | src/claude_worker_router/state_store.py:380-414 | an exception leaves a recovery iff another call ended one of the found runs between the search and that run's check |
| TerminalRecords.TwoRecoveriesCollide | src/claude_worker_router/task_queue.py:115-130 | a concrete interleaving in which two drains find one interrupted run and the second recovery raises |
| RunProtocol.SplitFinishUndoesCancel | src/claude_worker_router/state_store.py:228-247 | a concrete interleaving in which a committed cancel becomes blocked or ready-for-review |
| RunProtocol.FinishIsCheckThenWrite | src/claude_worker_router/state_store.py:218-247 | finish without interference is the check step followed by a fresh write |
| RunProtocol.GuardedTerminalAbsorbs | src/claude_worker_router/state_store.py:228-247 | guarded: blocked, cancelled and integrated rows keep lifecycle and outcome for ever |
| RunProtocol.FirstFinisherWins | src/claude_worker_router/task_queue.py:599-606 | guarded: at most one write ever ends an execution, and the row never runs again after it |
| Scheduler.SortedPending | src/claude_worker_router/task_queue.py:263-266 | lists exactly the pending runs, once each, by falling priority and then by submission |
| Scheduler.SelectBatch | src/claude_worker_router/task_queue.py:252-306 | the pass with its closing flag and early break computes the greedy choice over the sorted queue; a chosen run whose evidence is unreadable or demands exclusive tests, itself or by its profile, is alone, and two chosen runs of one repository have no file under both their stated paths |
| Scheduler.SkippedByEvidence | src/claude_worker_router/task_queue.py:231-306 | a run passed over while slots remain must part, by the stored evidence, from a run chosen before it |
| Scheduler.GreedyCompatible | src/claude_worker_router/task_queue.py:272-306 | a batch has at most the limit, pairwise non-conflicting scopes, and an exclusive run only alone |
| Scheduler.SkippedOnlyForCause | src/claude_worker_router/task_queue.py:296-301 | a run passed over while slots remain conflicts with a run chosen before it, or one of the two must run alone |
| Scheduler.HeadIsChosen | src/claude_worker_router/task_queue.py:263-306 | the head of the queue is always chosen |
| Scheduler.BatchWritesDisjoint | src/claude_worker_router/task_queue.py:252-306 | two runs of a selection on one repository whose changes pass the gate under their stated paths changed disjoint files |
| DrainProtocol.LiveWorkersAreCompatible | src/claude_worker_router/task_queue.py:459-563 | in every reachable state of a drain call, under any interference, live workers do not conflict and none is exclusive beside another |
| DrainProtocol.LiveWorkersBounded | src/claude_worker_router/task_queue.py:459-563 | the live workers never outnumber the concurrency limit, stragglers of a wedge included |
| DrainProtocol.StoppedClaimsNothing | src/claude_worker_router/task_queue.py:525-563 | after a wedge, a provider change or an empty selection nothing more is claimed |
| DrainProtocol.ClaimsCarryFirstFingerprint | src/claude_worker_router/task_queue.py:430-464 | every claim of a batched call carries the fingerprint read at its start |
| DrainProtocol.NoClaimAfterChange | src/claude_worker_router/task_queue.py:434-464 | a re-read that differs stops the call with exit 5 and no claim follows |
| DrainProtocol.OwnEffectIsOneClaim | src/claude_worker_router/task_queue.py:309-464 | over any stretch of a call in which no other actor touches a run's row, the call claims it at most once, only from pending, and leaves it as it was otherwise, also when it stops with exit code 5 |
| DrainProtocol.BoundedOvertaking | src/claude_worker_router/task_queue.py:434-475 | undisturbed, a run that r pending runs precede or tie with is claimed by batch r + 1 |
| DrainProtocol.BacklogBoundsBatches | src/claude_worker_router/task_queue.py:434-475 | an undisturbed backlog of n runs takes at most n batches |
| DrainLoop.SettledIsClosed | src/claude_worker_router/task_queue.py:481-614 | a claimed row ends ready for review, blocked or cancelled, and another actor's earlier finish is kept |
| DrainLoop.ExecuteClaimRow | src/claude_worker_router/task_queue.py:481-614 | the first finisher wins; a forestalled result is reported from the row as externally finalized; a raising run is blocked |
| DrainLoop.ClaimRows | src/claude_worker_router/task_queue.py:309-341 | exactly the selected rows that are still pending are won, in order, with this drain's pid and epoch |
| DrainLoop.RunBatch | src/claude_worker_router/task_queue.py:459-563 | the store after one batch: rivals, claims, finished threads, wedged rows |
| DrainLoop.DrainBatched | src/claude_worker_router/task_queue.py:430-584 | terminates; every claimed run is closed with the epoch, claimed once, nothing else touched; which runs are reported, each as its row says unless a crash or wedge was forestalled; exit code 3 by the rows; exit code 5 and an escaping exception iff the read due after the last batch differs or raises; under any rivals each batch may run at once by the stored evidence; without rivals its batches work off the backlog |
| DrainLoop.BatchesCompatible | src/claude_worker_router/task_queue.py:231-341 | under any rivals each batch that is started has at most the limit, an exclusive run by its evidence only alone, and no file under the stated paths of two of its runs on one repository |
| DrainLoop.Recover | src/claude_worker_router/task_queue.py:115-130 | the recovery blocks the interrupted runs; it raises iff another actor finishes one of them first, and then has touched no other row |
| DrainTraces.ThreadsRunTogether | src/claude_worker_router/task_queue.py:459-563 | the protocol's theorem about live workers, carried over to the threads of every batch of the loop |
| DrainTraces.DrainRunsProtocol | src/claude_worker_router/task_queue.py:430-584 | the loop is a run of the protocol whose foreign steps are the rivals' moves before the claims, the finishes of live runs and the fingerprints read; it passes, in order, one state per batch in which exactly that batch's threads start on the rows the drain claimed, and ends with the drain's store and log |
| DrainLoop.DrainOnce | src/claude_worker_router/task_queue.py:177-223 | claims a head of the queue and settles it, or leaves it running when its execution raises; the reported step says what the row says |
| DrainLoop.DrainSequential | src/claude_worker_router/task_queue.py:387-428 | terminates; the same guarantees one run at a time, the first fingerprint on every claimed run included; every step says what its row says and the exit code is 3 iff a reported run's row is blocked; an exception ends it at a raising run, or iff the read due after the last run raises |
| DrainLoop.Drain | src/claude_worker_router/task_queue.py:371-584 | recovery first, one fingerprint for the whole call and on every run it claims, then the branch of the configured concurrency; a refused recovery or a raising first read ends it before any claim |
| DrainLoop.BatchedRefinesSequential | src/claude_worker_router/task_queue.py:400-584 | undisturbed, both drains leave the same lifecycle and outcome for every run iff no pending run raises; then both empty the queue and report the same runs |
| Executor.RunWorkerLoop | src/claude_worker_router/executor.py:535-624 | 1 to correction_limit + 1 attempts, one worker call each; every earlier attempt asked for a correction, the last decides or raises; the trace follows the grammar; the code after the loop is dead |
| Executor.RunAttempt | src/claude_worker_router/executor.py:549-617 | an attempt goes on to a correction iff its worker succeeded, its tests ended in ordinary failures and the limit is not reached; it raises iff the worker call or a launched test does; otherwise it yields the verdict |
| Executor.TraceCounts | src/claude_worker_router/executor.py:549-617 | in every trace corrections are attempts minus one and worker starts equal attempts |
| Executor.ExecutionFitsJoinBudget | src/claude_worker_router/task_queue.py:344-368 | for inline commands the limits of all phases fit the join budget less 60 seconds, also under a tightened timeout |
| Executor.ProfileFitsBudgetExactly | src/claude_worker_router/task_queue.py:344-368 | for profile commands: exactly when the longest run fits the budget the drain waits for, and exactly when it fits without the slack |
| Executor.ProfileOutlastsBudget | src/claude_worker_router/task_queue.py:358-368 | an accepted edit with two profile commands whose phases take 600 seconds where the drain waits 460 |
| Executor.AcceptedRequestRaises | src/claude_worker_router/executor.py:286-321 | a document validation accepts, for which every gate passes and `execute_task` raises |
| Executor.Preflight | src/claude_worker_router/executor.py:181-384 | the worker is reached iff every gate before it passes; exactly when an exception escapes instead |
| Executor.GateChanges | src/claude_worker_router/executor.py:410-452 | changes are kept iff no binary, in scope, outside every deny path and within both budgets; which denial is reported |
| Executor.Conclude | src/claude_worker_router/executor.py:462-491 | an unchanged provider and a written manifest are needed to keep a verdict; a scope violation is never masked; when a commit exists; exactly when an exception escapes |
| Executor.ExecuteTask | src/claude_worker_router/executor.py:133-491 | ready-for-review iff every gate, the loop's last attempt, the changes, the provider, the commit and the evidence all accept; a commit exists exactly when files changed and is the one Git made; the reported reason, tests and changes of every ending; an exception leaves iff a step that is reached raises |
| Acceptance.WorkerReachedExactly | src/claude_worker_router/executor.py:181-384 | the worker is reached iff the host, every inline and profile command's binary, the profile, the policy fold, the scope against every denied root and the workspace allow it, spelled out |
| Acceptance.AcceptedExactly | src/claude_worker_router/executor.py:286-491 | ready-for-review spelled out over the commands the run is tested with, the files it changed and the provider |
| Acceptance.FailingAttempt | src/claude_worker_router/executor.py:549-617 | an attempt asks for a correction iff it is an edit whose worker succeeds and whose commands all end, at least one in an ordinary failure |
| Acceptance.BudgetsOfTheConfiguration | src/claude_worker_router/executor.py:257-358 | the enforced limits never exceed the configuration's own, obey every entry of the policy files, and are the configuration's when there is none |
| Acceptance.BudgetIsTight | src/claude_worker_router/task_queue.py:344-368 | an inline run that exhausts its corrections takes all of the join budget but the slack |
| Executor.AcceptedNeverRaises | src/claude_worker_router/executor.py:133-491 | a run that satisfies every condition of acceptance raises at no step |
| Integration.HeadOnlyDescends | src/claude_worker_router/integration.py:201-226 | in every interleaving HEAD only moves to descendants |
| Integration.MergeLandsOnlyTheChange | src/claude_worker_router/integration.py:115-216 | a merge that moves HEAD moves it from the recorded base, which is the worktree's base, to its child the worker commit, although the base check precedes the lock |
| Integration.MergeSucceedsExactly | src/claude_worker_router/integration.py:201-212 | under the lock the merge succeeds iff HEAD still is the recorded base or already contains the commit |
| Integration.SiblingsExcludeExactly | src/claude_worker_router/integration.py:187-226 | at most one of several siblings is integrated in exactly the interleavings in which no locked integrator merges a commit that HEAD already contains beside an integrated sibling |
| Integration.HandMergeAdmitsSibling | src/claude_worker_router/integration.py:115-226 | a concrete interleaving with a hand merge between base check and lock that integrates two siblings |
| Integration.AtMostOneSiblingIntegrated | src/claude_worker_router/integration.py:115-226 | of all runs whose worker commits share a parent at most one is ever integrated, in every interleaving without hand merges |
| Integration.NoMergeAfterCancel | src/claude_worker_router/integration.py:61-74 | guarded: no integration started after a committed cancel ever merges that run |
| Gating.EnteredWhenReady | src/claude_worker_router/integration.py:61-74 | in every interleaving an integrator that is inside entered at a step at which its run was untracked or ready for review, and has not left since |
| Gating.NoMergeAfterTerminal | src/claude_worker_router/integration.py:61-74 | guarded: once a run is blocked, cancelled or integrated, no integrator outside ever merges it |
| QueueActors.CancelRun | src/claude_worker_router/task_queue.py:634-725 | cancels exactly the runs that are not terminal, names exactly what was cancelled, and otherwise changes nothing |
| QueueActors.IntegrateRun | src/claude_worker_router/integration.py:31-228 | succeeds iff every ordered guard passes, the lock is free, the merge fast-forwards and every later step succeeds; which guard refuses first; whatever lands is a ready edit with non-empty, all passing tests and no escalation; a failing call moves HEAD iff the merge moves it and a later step fails; the lock is freed, the evidence stays unsealed after a failed start |
| QueueActors.IntegrateCommand | src/claude_worker_router/cli.py:260-281 | HEAD has moved and the tracked row does not say so iff the merge moves HEAD and a later step or a statement of the sync fails |
| QueueActors.LandedThenDiscarded | src/claude_worker_router/integration.py:214-224 | a concrete failing call that moves HEAD; the retry is refused and the landed run can be cancelled |
| QueueActors.MarkIntegratedSync | src/claude_worker_router/task_queue.py:728-759 | succeeds iff the record loads, every statement it needs succeeds and the run is unknown, ready for review or integrated; then the row is integrated and no other row changes; a failure changes nothing but may leave an unknown run tracked |
| EndToEnd.ExecuteClaimed | src/claude_worker_router/task_queue.py:133-148 | a claimed run crashes iff its request cannot be rebuilt or its execution raises, and deserves review iff it is accepted |
| EndToEnd.WithinBudget | src/claude_worker_router/task_queue.py:344-368 | a run whose phases keep their timeouts takes no longer than the drain waits for it, with inline commands always, with profile commands when the attempts exceed two timeouts each by no more than the slack |
| EndToEnd.DrainJobs | src/claude_worker_router/task_queue.py:371-614 | after an undisturbed drain over runs within their limits no thread was taken for wedged, a run is ready for review iff its stored request is accepted, every other run of the backlog is blocked, each with the outcome it deserves; a sequential drain with a raising run halts at one, with the runs before it judged and the rest untouched |

## Left out

- Subprocesses, signals, process groups, clocks, locks on files and the database's own locking: oracles or atomic steps.
- Redirecting Git: commits are numbered in creation order, so acyclicity is by construction. The operator may commit on HEAD, commit on other branches and fast-forward HEAD by hand; resetting HEAD to a commit that is no descendant is not a step.
- An actor of RunProtocol makes one call at a time; a new check drops what it had checked before.
- An exception that a timeline event raises belongs to the raising answer of the step it reports.
- `started_at` and `finished_at` stamps, summaries, prompts, event details and printing. `created_at` is an integer with the order of the stored text.
- `set_outcome`, which nothing calls; listing, showing and cleaning up runs; evidence file formats and manifests, of which only success or failure is kept.
- TOML and JSON text; requests and policy files are decoded values. Policy numbers are reals: NaN and infinities are not modelled.
- Hashes: the repository key is a function parameter, assumed to separate repositories only where a statement says so.
- Stored requests that are JSON but no object: reading their scope or counting their commands raises out of a batched drain. Submission stores objects only; the model's evidence is an object or unreadable.
- Symlink resolution: the scan's verdict is an oracle. The loops that collect Git's changed files and line counts are oracles too.
- `RunResult` is a value that the pipeline reassigns, not a shared object: nothing else holds a reference to it while it is built.
- DrainLoop.RunBatch: runs the threads of a batch one after the other and treats `finish` as one guarded step, because they touch different rows; interleavings with split steps are the subject of RunProtocol. Other actors move pending and running rows before the claims and may finish each claimed row once; new submissions during the call, on which termination depends, and later moves of rows the drain has settled are not modelled. The worker's pid updates appear only there.
- DrainTraces.DrainRunsProtocol: speaks of calls without `--once`; the protocol itself has the steps of both.
- DrainLoop.DrainSequential: says nothing about the queue order beyond each claim taking a head of the queue (`DrainLoop.DrainOnce`).
- DrainProtocol.LiveWorkersAreCompatible: speaks of one drain call; two drain calls do not look at each other's running rows, in the source as here.
- Integration.AtMostOneSiblingIntegrated: assumes no hand merge of an unintegrated worker commit, because without that it does not hold; the exact condition is in `Integration.SiblingsExcludeExactly`.
- QueueActors.IntegrateRun: is one undisturbed call; what other actors do between its guards and its merge is in Integration.

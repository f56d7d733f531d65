# FlowForge, verified

A Dafny model of FlowForge's engine: the scheduler that runs a pipeline's tasks, the graph it runs them on, and the
components that decide what the scheduler is told. Everything is proved for all inputs, all runs or all reachable states.

- **Graph** (`Digraph`, `CycleFinder`, `Kahn`, `DagBuilder`, `Descendants`): building a dependency graph from named
  nodes and edges, its accessors by id, finding a cycle by an iterative colour search, the deterministic topological
  order, reachability.
- **Scheduler, as a step relation** (`Domain`, `ReadyQueues`, `ResourcePools`, `SchedulerModel`, `SchedulerInvariant`,
  `SchedulerSteps`, `SchedulerTheorems`, `SchedulerProgress`, `SchedulerHistory`, `SchedulerRuns`,
  `SchedulerDeterminism`): six kinds of steps
  (launch, cache hit, inline failure, process finished, retry promoted, cancellation begun), one invariant kept by all of
  them, and the theorems about whole runs. The invariant ties together the dependency counters, the ready queue, the
  running count, the reservations, the attempt history and the SKIPPED set.
- **Scheduler, as a class** (`SchedulerEngine`, `SchedulerSetup`, `SchedulerRefinement`, `SchedulerExamples`): the source's methods on the
  source's fields, with its loops. Every method is proved to perform steps of the relation, so each theorem about runs is a
  theorem about the class; a ghost log holds the steps taken. `SchedulerRefinement` holds the facts that tie the methods to
  the steps.
- **Scheduler and cache** (`TaskFiles`, `TaskKeys`, `CachedRuns`, `SchedulerReruns`): the class looks its tasks up in a real
  cache store and stores its successes there; what the cache remembers of a run, what a second run makes of it, and how the
  keys follow the files.
- **Process runner** (`ProcessRunner`, `LineSplitter`): the reactor's command queue, children, signals and exit reports;
  the cutting of output into lines. `SchedulerWithRunner` lets scheduler and runner take their steps in any interleaving,
  tied together by handles and reports, and proves what the scheduler's theorems assume of the runner.
- **Cache** (`CacheKeys`, `AmbiguousKeys`, `CacheStores`, `TextOrder`, `Sequences`, `Sha256`): the text under the cache key,
  the store over whole histories, and streaming SHA-256 against sections 5.1.1, 5.3.3 and 6.2.2 of FIPS 180-4.
- **Rendering** (`AsciiTree`): the textual dependency tree and the level of every task.

What the outside world decides is a parameter: process outcomes, the files at every look at them, clock readings, retry
delays, when a cancel arrives, how a stream is cut into reads. The order in which events arrive is arbitrary. The one thing
that some theorems ask of the runner is that it reports a process as cancelled only after somebody asked for a cancel:
`HonestScript` says so of the events that are fed in, `HonestRunner` of the steps taken. This runner keeps it
(`SchedulerWithRunner.WholeSystemVerdict` needs no such assumption).

## Where the code and its promises differ

- `is_valid_transition` has no READY to FAILED entry, yet a missing input or a stuck queue takes that transition.
  `SchedulerExamples.ReadyToFailedHappens` gives the input; `SchedulerHistory.TableHoldsExactly` proves that the table holds
  for a step if and only if the step is not an inline failure.
- The schema declares the pair of task and attempt number unique, yet a retry resolved without a launch reuses the last
  number. `SchedulerExamples.NumberRepeatHappens` gives the run; `SchedulerHistory.NumberRepeatsExactly` proves when it happens.
- docs/execution-model.md:45 says that dependents of a CANCELLED task are SKIPPED. The code leaves them PENDING, and the
  pipeline could end SUCCEEDED with tasks unfinished, if the runner reported a cancelled process without a request.
  `SchedulerExamples.UnrequestedCancelEndsSucceeded` gives the run, `SchedulerTheorems.SettledIsTerminalExactly`,
  `LeftPendingExactly` and `SucceededMeansAllExactly` the exact conditions, and `SchedulerWithRunner.TogetherKeepsInv` proves
  that this runner never does it.
- The comment on the cache key calls its text unambiguous. Of a pair of tasks in which no field holds a line feed that is so:
  their texts are equal if and only if they agree on everything the key covers (`CacheKeys.BlobExactly`), up to an equals sign
  inside an environment entry (`CacheKeys.BlobInjective`, and exactly when in `CacheKeys.EqualsSignCollidesExactly`). Of a single
  task it is hardly ever so: some different task shares its text, unless it has no arguments, no environment entries and no
  inputs, and none of its fields holds a line feed and a tag that could pass for the start of another field
  (`AmbiguousKeys.AmbiguousExactly`, the exact condition). `CacheKeys.LineFeedCollides`, `ArgumentCollides`,
  `EnvironmentCollides` and `InputCollides` give failing families.
- The comment in the lookup speaks of declared outputs, but the outputs recorded in the entry are what is checked. A served
  entry guarantees a set of declared paths, whatever else is on disk, if and only if each of them was recorded
  (`CacheStores.HitMeansPresentExactly`); `CacheStores.DeclaredLaterMayBeMissing` gives an entry that is served while an output
  declared later is missing. What the scheduler records are the paths declared at that moment
  (`TaskFiles.SnapshotRecordsDeclared`).
- Delivered lines depend on where reads end once an unterminated line exceeds the cap; `LineSplitter.BoundariesInvisibleExactly`
  gives the exact condition, `LineSplitter.LongLineIsCut` a failing family.
- A failed read closes the stream without delivering the partial line: a closed stream has delivered every byte if and only if
  it was read to its end or nothing was held back (`LineSplitter.ClosedAccountsExactly`, with the failing family
  `LineSplitter.FailedReadLoses`).

- Shutting the runner down overrides an outcome that a deadline had fixed (`ProcessRunner.FirstSignalFixes`), and a launch that
  slips in while the shutdown is being carried out is accepted but never reported: `ProcessRunner.ShutdownMayLoseLaunch` gives the
  run, `ProcessRunner.EndReportsAllExactly` the exact condition.

## Model

| member | source | states |
|---|---|---|
| `CycleFinder.FindCycle` | src/core/dag/dag.cpp:31-76 | An empty result if and only if the graph is acyclic (with a ranking as certificate); otherwise a closed walk of real edges, simple apart from its repeated endpoint. |
| `CycleFinder.Explore` | src/core/dag/dag.cpp:40-74 | The search from one white node terminates with a cycle, or with everything it reached finished and no node white again. |
| `CycleFinder.Reconstruct` | src/core/dag/dag.cpp:56-67 | Climbing parents from the top of the stack always arrives at the grey node, because grey nodes are exactly the stack, and the nodes passed form a simple cycle. |
| `CycleFinder.CycleRefutesAcyclic` | src/core/dag/dag.cpp:142-158 | A reported cycle is a reason to reject: a graph with one is not acyclic. |
| `Kahn.TopologicalOrder` | src/core/dag/dag.cpp:173-193 | On a ranked graph the heap loop emits every node, each time the least-numbered node whose predecessors are all emitted. |
| `Kahn.Relax` | src/core/dag/dag.cpp:184-192 | After one node is emitted, the counters again count unemitted predecessors and the heap again holds exactly the available nodes. |
| `Kahn.KahnOrderCovers` | src/core/dag/dag.cpp:173-193 | The order lists every node exactly once. |
| `Kahn.KahnOrderRanks` | src/core/dag/dag.cpp:173-193 | Positions in the order grow along every edge. |
| `Kahn.KahnOrderUnique` | src/core/dag/dag.cpp:173-174 | Two graphs with the same edges have the same order, however their edges are listed. |
| `DagBuilder.AddEdge` | src/core/dag/dag.cpp:106-136 | One edge record: adjacency in both directions still mirrors and represents the edges read so far without repetition, and the error list grows by exactly this record's error. |
| `DagBuilder.Build` | src/core/dag/dag.cpp:80-212 | Success if and only if ids are unique, endpoints known, no edge is a self-dependency and no named cycle exists; the result then represents exactly the named edges, with its order, roots, leaves, index and adjacency by id; on failure which errors, phase by phase, and for a cycle a real one, simple apart from its repeated endpoint. |
| `DagBuilder.AccessorsShowEdges` | src/core/dag/dag.cpp:195-242 | Asked by id, the built graph shows exactly the edges it was built from, in both directions and each once; an unknown id has none. |
| `DagBuilder.LeavesExactly` | src/core/dag/dag.cpp:163-171 | The leaves are exactly the tasks that are the source of no edge. |
| `DagBuilder.OrderIgnoresEdgeListing` | src/core/dag/dag.cpp:106-136 | Two builds from the same nodes and the same set of edges, in any order and with any repetition, have the same topological order. |
| `Descendants.TransitiveDependents` | src/core/dag/dag.cpp:254-282 | The result holds exactly the strict descendants of the task, each once, in the order of the node list; it is empty for an unknown id. |
| `ReadyQueues.PreferTotal` | src/core/scheduler/scheduling_policy.cpp:5-13 | Entries of different tasks are ordered one way and only one way. |
| `ReadyQueues.PreferTransitive` | src/core/scheduler/scheduling_policy.cpp:5-13 | The preference is transitive. |
| `ReadyQueues.InsertKeepsOrder` | src/core/scheduler/ready_queue.cpp:7-14 | Pushing a task that is not queued keeps the queue sorted best first and free of repeated ids. |
| `ReadyQueues.RemoveIdMembers` | src/core/scheduler/ready_queue.cpp:28-36 | Removing an id takes out that entry and no other. |
| `ReadyQueues.RemoveIdKeepsOrder` | src/core/scheduler/ready_queue.cpp:28-36 | Removal keeps the queue sorted. |
| `ReadyQueues.ReadyQueue.Push` | src/core/scheduler/ready_queue.cpp:7-14 | The new queue is the old one with the entry at its place. |
| `ReadyQueues.ReadyQueue.PopBest` | src/core/scheduler/ready_queue.cpp:16-20 | The entry taken is preferred over all that stay. |
| `ReadyQueues.ReadyQueue.Remove` | src/core/scheduler/ready_queue.cpp:28-36 | Whether the id was queued, and the queue without it. |
| `ReadyQueues.ReadyQueue.Drain` | src/core/scheduler/ready_queue.cpp:38-43 | All entries in order, and an empty queue. |
| `ResourcePools.ResourcePool.TryReserve` | src/core/resources/resource_pool.cpp:9-21 | Reserves all three amounts if and only if all three still fit, otherwise nothing. |
| `ResourcePools.ResourcePool.Release` | src/core/resources/resource_pool.cpp:23-28 | Subtracts each amount, clamped at zero. |
| `ResourcePools.ReleaseUndoesReserve` | src/core/resources/resource_pool.cpp:9-28 | Releasing what was reserved restores the pool. |
| `SchedulerSteps.StepKeepsInv` | src/core/scheduler/scheduler.cpp:201-508 | Every step of every kind keeps the whole invariant: counters, queue, waiting retries, running count, reservations, history, skipping. |
| `SchedulerTheorems.SeededInv` | src/core/scheduler/scheduler.cpp:192-199 | The invariant holds once the roots are queued. |
| `SchedulerTheorems.ExecKeepsInv` | src/core/scheduler/scheduler.cpp:95-187 | The invariant holds after every run of any length. |
| `SchedulerTheorems.CounterIsFullScan` | src/core/scheduler/scheduler.cpp:446-460 | The counter equals the number of direct dependencies that are not success-like; it is zero exactly when a full scan would find all of them done. |
| `SchedulerTheorems.AncestorsSucceeded` | src/core/scheduler/scheduler.cpp:446-460 | A task that is neither PENDING, SKIPPED nor CANCELLED has only success-like ancestors. |
| `SchedulerTheorems.SkippedExactly` | src/core/scheduler/scheduler.cpp:463-483 | At every point, SKIPPED tasks are exactly the strict descendants of FAILED ones. |
| `SchedulerTheorems.FailuresAreIndependent` | src/core/scheduler/scheduler.cpp:408-423 | No FAILED task descends from another. |
| `SchedulerTheorems.SkipMeetsOnlyPending` | src/core/scheduler/scheduler.cpp:463-483 | Everything below a failing task is PENDING or SKIPPED, not queued and not waiting: the guard for RUNNING tasks and the removal from the queue never act. |
| `SchedulerTheorems.LeftPendingExactly` | src/core/scheduler/scheduler.cpp:401-404 | In a settled run that is not cancelling, a task is left PENDING exactly when a CANCELLED task and no FAILED task is above it. |
| `SchedulerTheorems.SettledIsTerminalExactly` | src/core/scheduler/scheduler.cpp:569-579 | A settled run has every task terminal if and only if it is cancelling or every task below a CANCELLED one is also below a FAILED one. |
| `SchedulerTheorems.SucceededMeansAllExactly` | src/core/scheduler/scheduler.cpp:174-181 | A settled run with verdict SUCCEEDED had every task succeed if and only if no task is CANCELLED. |
| `SchedulerTheorems.HonestRunsCancelNothing` | src/core/scheduler/scheduler.cpp:401-404 | If the runner reports cancellation only after it was begun, no task is CANCELLED before that. |
| `SchedulerTheorems.CompleteRunVerdict` | src/core/scheduler/scheduler.cpp:109-187 | If no cancelled process is reported before cancellation begins (`HonestRunner`), then at the end of every run all tasks are terminal, and the verdict is SUCCEEDED exactly when no cancel happened and every task is SUCCEEDED or CACHED, although only the failed count is inspected. |
| `SchedulerRuns.Conservation` | src/core/scheduler/scheduler.cpp:201-225 | In every reachable state the running count is the number of RUNNING tasks and within the limit; used cpu, memory and gpu are the sums over RUNNING tasks and within capacity. |
| `SchedulerRuns.ReleaseNeverClamps` | src/core/resources/resource_pool.cpp:23-28 | Whichever task finishes next, releasing its reservation returns exactly what it took. |
| `SchedulerRuns.ReadyIsQueuedOrWaiting` | src/core/scheduler/scheduler.cpp:591-603 | READY exactly when in the queue once or behind a retry timer, never both. |
| `SchedulerRuns.OnlyAfterDependencies` | src/core/scheduler/scheduler.cpp:446-460 | READY, RUNNING, SUCCEEDED, CACHED or FAILED only after all transitive dependencies are success-like. |
| `SchedulerRuns.UncancelledOutcome` | src/core/scheduler/scheduler.cpp:408-483 | The end of every run without cancellation under an honest runner (`HonestRunner`): SKIPPED exactly below FAILED, no FAILED below FAILED, everything else success-like. |
| `SchedulerDeterminism.Deterministic` | docs/execution-model.md:81-86 | Two complete uncancelled runs of one pipeline whose reports and inline resolutions go the same way for each task and attempt leave every task in the same state, with the same results recorded, and the same verdict, even if slots, capacity, requirements and priorities differ. |
| `SchedulerDeterminism.SameFateSameOutcome` | docs/execution-model.md:81-86 | The same, said of the recorded histories. |
| `SchedulerDeterminism.EndDecided` | src/core/scheduler/scheduler.cpp:408-423 | At the end of such a run a task was skipped without an attempt, or is in the state its last attempt left; it never gave up on a retryable failure with attempts left. |
| `SchedulerRuns.CancelledRun` | src/core/scheduler/scheduler.cpp:488-508 | After cancellation begins nothing is launched, queued or promoted; what was not in flight is terminal at once and unchanged; what was in flight ends SUCCEEDED or CANCELLED; the pipeline ends CANCELLED. |
| `SchedulerProgress.StepShrinks` | src/core/scheduler/scheduler.cpp:293-328 | Every step lowers a measure over task states and remaining attempts. |
| `SchedulerProgress.RunsAreBounded` | src/core/scheduler/scheduler.cpp:109-187 | No run is longer than the measure of its first state. |
| `SchedulerProgress.LaunchesBounded` | include/flowforge/domain/retry_policy.hpp:31-38 | A whole run launches at most as many processes as the attempt budgets add up to. |
| `SchedulerProgress.NoDeadlock` | src/core/scheduler/scheduler.cpp:109-135 | Whenever the run is not settled, some step other than a cancellation can happen. |
| `SchedulerProgress.MaximalRunsSettle` | src/core/scheduler/scheduler.cpp:109-187 | A run that cannot be continued is settled. |
| `SchedulerProgress.StuckMeansTooBig` | src/core/scheduler/scheduler.cpp:227-245 | The stuck branch fires only when every queued task exceeds the whole capacity. |
| `SchedulerProgress.CheckedNeverStuck` | src/core/validation/pipeline_validator.cpp:284-300 | If the validator's resource checks pass for every task, the stuck branch is not enabled. |
| `SchedulerProgress.DrainUnreachable` | src/core/scheduler/scheduler.cpp:227-245 | With checked tasks, no run contains the stuck drain. |
| `SchedulerHistory.StepMoves` | src/core/domain/enums.cpp:103-125 | Every state change is in the transition table, except READY to FAILED, which exactly the inline failures make. |
| `SchedulerHistory.TableHoldsExactly` | src/core/domain/enums.cpp:103-125 | A step obeys the table if and only if it is not an inline failure. |
| `SchedulerHistory.TerminalForever` | src/core/domain/enums.cpp:83-97 | A terminal state never changes in the rest of the run. |
| `SchedulerHistory.HistoryShape` | src/core/scheduler/scheduler.cpp:539-559 | At most as many records as attempts allowed, numbered from one without gaps, all but the last retryable failures, and numbers unique exactly when the last one was not resolved inline after a launch. |
| `SchedulerHistory.NumberRepeatsExactly` | src/core/storage/schema.cpp:61 | A step makes numbers repeat if and only if it resolves inline a task that had been launched. |
| `SchedulerHistory.ActsInPolicyOrder` | src/core/scheduler/scheduler.cpp:201-225 | When an entry is acted on, every entry preferred over it does not fit the remaining resources. |
| `SchedulerHistory.AfterCancel` | src/core/scheduler/scheduler.cpp:488-508 | From a cancelling state, every later step is a process finishing, no task newly becomes FAILED or SKIPPED, and no task is launched again; a report still appends its attempt record. |
| `SchedulerHistory.CancelSettlesAllButRunning` | src/core/scheduler/scheduler.cpp:488-508 | Beginning cancellation makes everything but RUNNING tasks terminal and leaves terminal and RUNNING tasks alone. |
| `SchedulerHistory.AllCached` | src/core/scheduler/scheduler.cpp:269-280 | A state reached by cache hits alone (nothing running, launched, waiting or failed) whose queue is empty is settled with every task CACHED; `LaunchPhase` shows when the cache's contents lead there. |
| `SchedulerExamples.MissingInputLeavesTable` | src/core/scheduler/scheduler.cpp:257-267 | Whenever the launch phase looks at the front of the queue, a missing input takes that task along a transition outside the table. |
| `SchedulerExamples.ReadyToFailedHappens` | src/core/scheduler/scheduler.cpp:257-267 | A two-task pipeline whose first task misses its input takes a transition outside the table. |
| `SchedulerExamples.UnrequestedCancelEndsSucceeded` | src/core/scheduler/scheduler.cpp:401-404 | A run with a cancelled report nobody asked for ends SUCCEEDED with a PENDING task. |
| `SchedulerExamples.NumberRepeatHappens` | src/core/scheduler/scheduler.cpp:539-559 | A run whose attempt numbers repeat. |
| `SchedulerRefinement.CountStates` | src/core/domain/run_state.cpp:58-94 | Each counter is the number of tasks in that state. |
| `SchedulerSetup.Create` | src/core/scheduler/scheduler.cpp:24-71 | A scheduler if and only if every node of the graph has a definition, with the tasks in node order; otherwise a node that has none. |
| `SchedulerSetup.Assign` | src/core/scheduler/scheduler.cpp:56-63 | Every node gets the first definition with its id; the search stops at the first node without one. |
| `SchedulerEngine.Scheduler.constructor` | src/core/scheduler/scheduler.cpp:24-71 | All tasks PENDING with counters equal to in-degrees; concurrency at least one. |
| `SchedulerEngine.Scheduler.SeedReady` | src/core/scheduler/scheduler.cpp:192-199 | The result is a seeded state: exactly the roots are queued. |
| `SchedulerEngine.Scheduler.MarkState` | src/core/scheduler/scheduler.cpp:513-537 | Node and task run change state together and nothing else changes. |
| `SchedulerEngine.Scheduler.RecordAttempt` | src/core/scheduler/scheduler.cpp:539-559 | One record is appended, with the last launch's number or one. |
| `SchedulerEngine.Scheduler.ReleaseReservation` | src/core/scheduler/scheduler.cpp:561-567 | A held reservation is returned once. |
| `SchedulerEngine.Scheduler.SkipDownstream` | src/core/scheduler/scheduler.cpp:463-483 | The stack search marks exactly the strict descendants SKIPPED, terminates, and never touches the queue. |
| `SchedulerEngine.Scheduler.StoreOutcome` | src/core/scheduler/scheduler.cpp:428-444 | A success that the cache takes part in is written under the key its inputs give now, with its declared outputs as they are now; otherwise nothing is written. |
| `SchedulerEngine.Scheduler.OnTaskSucceeded` | src/core/scheduler/scheduler.cpp:425-461 | A success that did not come from the cache is stored there; then each dependent's counter drops by one, and exactly those that reach zero while PENDING are made READY and queued in order. |
| `SchedulerEngine.Scheduler.StartProcess` | src/core/scheduler/scheduler.cpp:293-329 | One more attempt, RUNNING, one more slot in use. |
| `SchedulerEngine.Scheduler.Look` | src/core/scheduler/scheduler.cpp:248-271 | Inputs are missing exactly when a declared one is; otherwise it is a hit exactly when the cache takes part and holds an entry under the task's key whose outputs validate. The cache changes as one lookup changes it. The key may be any function of the files; `TaskKeys.Declared` supplies the source's. |
| `SchedulerEngine.Scheduler.TryStart` | src/core/scheduler/scheduler.cpp:248-291 | Missing inputs fail the entry, else an entry that validates resolves it, else it is launched if it fits; blocked exactly when it needs resources that do not fit, with the scheduler's state unchanged. What happened is one legal step. |
| `SchedulerEngine.Scheduler.ScanOnce` | src/core/scheduler/scheduler.cpp:207-225 | Acts on the first entry that is not blocked, or proves that none fits. |
| `SchedulerEngine.Scheduler.LaunchPhase` | src/core/scheduler/scheduler.cpp:201-246 | Ends with all slots full or nothing that fits, never with a blocking wait ahead and neither a process nor a timer pending; if every task's current key has an entry whose outputs validate, one call caches the whole graph without a launch. |
| `SchedulerEngine.Scheduler.FailStuck` | src/core/scheduler/scheduler.cpp:227-245 | Drains the queue: every queued task fails as unschedulable, best entry first, each as a legal step. |
| `SchedulerEngine.Scheduler.OnTaskFailed` | src/core/scheduler/scheduler.cpp:408-423 | Retry behind a timer or final failure with skipping: one legal report, then possibly promotions. |
| `SchedulerEngine.Scheduler.HandleProcessFinished` | src/core/scheduler/scheduler.cpp:370-406 | The report becomes one legal step with the kind that the outcome and the output check imply. |
| `SchedulerEngine.Scheduler.PromoteBackoffReady` | src/core/scheduler/scheduler.cpp:591-603 | Afterwards no timer that is due is pending; while cancelling nothing happens. |
| `SchedulerEngine.Scheduler.EarliestRetryDeadline` | src/core/scheduler/scheduler.cpp:581-589 | The least deadline of a waiting task, none if and only if none waits. |
| `SchedulerEngine.Scheduler.CancelRun` | src/core/scheduler/scheduler.cpp:488-508 | One legal step, and termination is asked for exactly the RUNNING tasks. |
| `SchedulerEngine.Scheduler.AllSettled` | src/core/scheduler/scheduler.cpp:569-579 | True if and only if nothing is running, the queue is empty and no retry waits. |
| `SchedulerEngine.Scheduler.HandleEvent` | src/core/scheduler/scheduler.cpp:137-154 | Any event, in any order: a report of a RUNNING task is one legal report with the kind that its outcome and the files imply, a first cancel request one legal cancellation, a log line nothing. |
| `SchedulerEngine.Scheduler.HandleBatch` | src/core/scheduler/scheduler.cpp:131-155 | A whole batch: cancelling afterwards exactly if it was before or the batch asks for it; a batch that logs nothing held nothing of interest. |
| `SchedulerEngine.Scheduler.Turn` | src/core/scheduler/scheduler.cpp:109-135 | One pass of the loop: if it does not end the run, a process is in flight or a timer is pending before the wait. |
| `SchedulerEngine.Scheduler.Run` | src/core/scheduler/scheduler.cpp:95-187 | For every script of events: if the loop ends, the state is settled and the verdict is read off it; if moreover the script reports cancelled processes only after a cancel request (`HonestScript`), every task is terminal, and SUCCEEDED is returned exactly when no cancel happened and all tasks succeeded. The loop ends after at most as many rounds as the first state's measure plus the rounds in which nothing was reported, no timer was due and nobody newly asked for a cancel. Without a request in the script cancellation never begins. If every task is served from the cache, the first round ends the run SUCCEEDED, all CACHED, without a launch. The cache remembers every success. |
| `CachedRuns.QuietFilesServe` | src/core/scheduler/scheduler.cpp:269-280 | If the files stay as they are and each task's current key is served now, every task is served from now on. |
| `CachedRuns.ServedLook` | src/core/cache/cache_store.cpp:62-87 | Then each look is a hit, and the next looks will be hits as well: serving one task spoils no other task's entry. |
| `CachedRuns.NextRunServed` | docs/caching.md:49-57 | After a run whose tasks all succeeded with the cache on, if nobody changed the outputs recorded during the run or the inputs and outputs since, every task of the next run is served. |
| `SchedulerReruns.RunTwice` | docs/caching.md:49-57 | Two runs one after the other over one cache: if the first succeeds and its inputs and recorded outputs are left alone, the second ends SUCCEEDED in its first round, every task CACHED, with no launch. |
| `TaskKeys.TextFollowsFiles` | docs/caching.md:49-60 | For line-feed-free tasks whose inputs have different names without separators, the text under the key changes if and only if some input looks different: its checksum where one is wanted, its size or modification time otherwise, or whether it is there. |
| `TaskKeys.SameIdentityExactly` | src/core/artifacts/artifact.cpp:10-25 | The identity of an input changes exactly when what a probe finds of it changes. |
| `TaskKeys.UndisturbedUnchanged` | src/core/scheduler/scheduler.cpp:428-444 | With the source's keys, inputs that look the same and outputs that validate are all that the next run needs to find its entries again. |
| `TaskFiles.SnapshotValidExactly` | src/core/scheduler/scheduler.cpp:428-440 | What a success records validates right away if and only if all declared outputs are present. |
| `TaskFiles.SnapshotRecordsDeclared` | src/core/scheduler/scheduler.cpp:428-440 | What a success records are exactly the paths that the task declares at that moment. |
| `ProcessRunner.StepKeepsInv` | src/core/process/posix_process_runner.cpp:183-233 | Every reactor step keeps each handle in exactly one place, the active count equal to queued launches plus live children, and signals and forced outcomes consistent. |
| `ProcessRunner.ReportedExactlyOnce` | src/core/process/posix_process_runner.cpp:94-111 | In every run each accepted launch is queued, alive, or reported exactly once. |
| `ProcessRunner.IdleExactly` | src/core/process/posix_process_runner.cpp:125 | The active count is zero exactly when every accepted launch has been reported. |
| `ProcessRunner.ReportOrigin` | src/core/process/posix_process_runner.cpp:564-601 | Each report comes from a launch that failed, or from a reaped child with both streams closed, with that child's outcome. |
| `ProcessRunner.ChildMoves` | src/core/process/posix_process_runner.cpp:358-373 | In any step a live child's signal stage stays or rises by one, a forced outcome stays, streams stay closed, a wait status stays; it disappears only with its report. Only a shutdown does more: it kills every child that was not reaped. |
| `ProcessRunner.FirstSignalFixes` | src/core/process/posix_process_runner.cpp:517-536 | Whoever signals first, deadline or request, fixes the outcome that is eventually reported, unless a shutdown turns it into a cancellation. |
| `ProcessRunner.RunJustified` | src/core/process/posix_process_runner.cpp:517-536 | A forced outcome always has a reason in the run: a request of that kind, a deadline that had passed, or a shutdown. |
| `ProcessRunner.CancelledWasRequested` | src/core/process/posix_process_runner.cpp:358-373 | A process is reported cancelled only if its cancellation was requested or the runner was told to shut down. |
| `ProcessRunner.EndReportsAllExactly` | src/core/process/posix_process_runner.cpp:166-181 | When the loop ends, every accepted launch has been reported exactly once if and only if none was accepted after the commands were last taken. |
| `ProcessRunner.ShutdownMayLoseLaunch` | src/core/process/posix_process_runner.cpp:202-213 | A run in which an accepted launch is never reported. |
| `ProcessRunner.Reactor.Launch` | src/core/process/posix_process_runner.cpp:94-111 | A fresh handle, one more active, the launch queued; refused once the runner is stopping. |
| `ProcessRunner.Reactor.RequestShutdown` | src/core/process/posix_process_runner.cpp:79-92 | The shutdown is queued behind earlier commands. |
| `ProcessRunner.Reactor.HandleShutdown` | src/core/process/posix_process_runner.cpp:202-213 | The runner is stopping, and every child that was not reaped is killed as cancelled. |
| `ProcessRunner.Reactor.RequestTerminate` | src/core/process/posix_process_runner.cpp:113-123 | The request is queued behind earlier commands. |
| `ProcessRunner.Reactor.DrainCommands` | src/core/process/posix_process_runner.cpp:183-217 | Carries out all queued commands in order, one step each. |
| `ProcessRunner.Reactor.HandleTerminate` | src/core/process/posix_process_runner.cpp:358-373 | Signals only a live child that was not signalled before; anything else is left alone. |
| `ProcessRunner.Reactor.ReapChildren` | src/core/process/posix_process_runner.cpp:538-562 | What was observed of each unreaped child, and nothing else, as legal steps. |
| `ProcessRunner.Reactor.EnforceDeadlines` | src/core/process/posix_process_runner.cpp:517-536 | Each child escalates by deadline or grace period exactly as its stage says, as legal steps. |
| `ProcessRunner.Reactor.FinalizeChildren` | src/core/process/posix_process_runner.cpp:564-601 | Exactly the finished children are reported and forgotten. |
| `ProcessRunner.Reactor.Turn` | src/core/process/posix_process_runner.cpp:166-181 | One pass of the loop, with both exits, is a run of legal steps after which no finished child remains; the loop ends exactly when the runner is stopping and has no child. |
| `ProcessRunner.Reactor.PollOnce` | src/core/process/posix_process_runner.cpp:438-484 | Each stream that polling finds ended is closed by one legal step. |
| `ProcessRunner.Reactor.LoopOnce` | src/core/process/posix_process_runner.cpp:166-181 | A whole pass is a run of legal steps; it polls only if the loop goes on. |
| `SchedulerWithRunner.TogetherKeepsInv` | src/core/scheduler/scheduler.cpp:293-329 | In every interleaving of the scheduler's launches, terminate requests and handled reports with the reactor's own steps, both sides follow their step relations, RUNNING tasks and handles match, terminate requests are made only while cancelling, and no process is reported cancelled before cancellation begins. |
| `SchedulerWithRunner.RunningExactly` | src/core/scheduler/scheduler.cpp:317-329 | RUNNING tasks correspond one to one to the launches that are queued, alive, or reported and not yet handled. |
| `SchedulerWithRunner.ReportFindsRunning` | src/core/scheduler/scheduler.cpp:370-378 | The next report that the scheduler handles always concerns a task that is RUNNING. |
| `SchedulerWithRunner.SettledMeansIdle` | src/core/scheduler/scheduler.cpp:569-579 | When the run is settled the runner is idle and every report has been handled. |
| `SchedulerWithRunner.WholeSystemVerdict` | src/core/scheduler/scheduler.cpp:109-187 | Scheduler and runner together, with no assumption about either: a settled run has every task terminal; SUCCEEDED exactly when no cancel was requested and every task is SUCCEEDED or CACHED, FAILED exactly when no cancel was requested and some task is not. |
| `SchedulerWithRunner.WholeSystemOutcome` | src/core/scheduler/scheduler.cpp:408-483 | The end of every uncancelled run of scheduler and runner together, with no assumption about either: SKIPPED exactly below FAILED, no FAILED below FAILED, everything else success-like. |
| `SchedulerWithRunner.WholeSystemDeterministic` | docs/execution-model.md:81-86 | Two such runs in which each attempt of each task goes the same way end alike, however the two sides interleave. |
| `LineSplitter.Stream.EmitLines` | src/core/process/posix_process_runner.cpp:375-401 | The find-and-erase loop does what a character-by-character reading does, then cuts an overlong tail; the tail stays within the cap. |
| `LineSplitter.Stream.Drain` | src/core/process/posix_process_runner.cpp:404-436 | Reads until a result ends it; what was delivered is determined by the results read; closed exactly on end or error. |
| `LineSplitter.Stream.DrainOften` | src/core/process/posix_process_runner.cpp:404-436 | Over several calls, the stream stands where the results of all calls together put it. |
| `LineSplitter.BoundariesInvisibleExactly` | src/core/process/posix_process_runner.cpp:375-436 | The delivered lines do not depend on read boundaries if and only if no read before the last leaves an unterminated tail over the cap. |
| `LineSplitter.LongLineIsCut` | src/core/process/posix_process_runner.cpp:375-401 | A line without a line feed that brings more than the cap before its last read is not delivered whole, though one read of it would be. |
| `LineSplitter.NothingLost` | src/core/process/posix_process_runner.cpp:375-401 | For every chunking, putting line feeds and removed carriage returns back yields the stream; a line without its line feed is over the cap. |
| `LineSplitter.LinesUnique` | src/core/process/posix_process_runner.cpp:381-393 | The delivered lines are lines of the stream under the declarative definition, and it has no others. |
| `LineSplitter.DrainedToTheEnd` | src/core/process/posix_process_runner.cpp:404-436 | At end of stream the partial line is delivered verbatim and nothing is held back, however many calls it took. |
| `LineSplitter.ClosedAccountsExactly` | src/core/process/posix_process_runner.cpp:415-434 | Once the stream is closed, the delivered lines account for every byte read if and only if it closed at its end or nothing was held when reading failed. |
| `LineSplitter.FailedReadLoses` | src/core/process/posix_process_runner.cpp:432-434 | A text without a line feed, read before reading fails, is never delivered. |
| `Sequences.SortForgetsOrder` | src/core/cache/cache_key.cpp:36 | For any total order, sorted arrangements are equal exactly for equal multisets. |
| `Sequences.AscendingUnique` | src/core/cache/cache_key.cpp:48 | For any total order, a multiset has one ascending arrangement, whatever the sorting algorithm. |
| `CacheKeys.ComputeBlob` | src/core/cache/cache_key.cpp:12-51 | The appending loops produce the encoding of the tagged records. |
| `CacheKeys.ComputeCacheKey` | src/core/cache/cache_key.cpp:10-53 | The key is the prefix and the digest of that text. |
| `CacheKeys.BlobExactly` | src/core/cache/cache_key.cpp:12-51 | Without line feeds, texts are equal if and only if type, program, script, arguments, directory and the multisets of environment texts and inputs are equal. |
| `CacheKeys.BlobInjective` | src/core/cache/cache_key.cpp:12-51 | With names free of equals signs, the environment entries themselves are determined as a multiset. |
| `CacheKeys.OrderIgnored` | src/core/cache/cache_key.cpp:31-51 | Permuting environment entries or inputs never changes the text. |
| `AmbiguousKeys.AmbiguousExactly` | src/core/cache/cache_key.cpp:12-51 | Some different task shares the text of a given one if and only if the given one has arguments, environment entries or inputs, or a field in which a line feed and a tag imitate the start of another field: the script's in program, the script's, an argument's, an entry's or the directory's in script, the directory's or an input's in the working directory. |
| `AmbiguousKeys.SameBlobExactly` | src/core/cache/cache_key.cpp:12-51 | Two tasks, whatever their fields hold, share the text if and only if they are of one kind and their program, script part and directory part run together alike. |
| `AmbiguousKeys.SameThree` | src/core/cache/cache_key.cpp:12-51 | Where no part imitates the marks between them, the three parts can be told from the text. |
| `CacheKeys.LineFeedCollides` | src/core/cache/cache_key.cpp:16-26 | A failing family: a script tag inside the program moves the boundary between program and script. |
| `CacheKeys.ArgumentCollides` | src/core/cache/cache_key.cpp:27-29 | An argument that holds a line feed and an argument tag can always be split in two without changing the text. |
| `CacheKeys.EnvironmentCollides` | src/core/cache/cache_key.cpp:31-39 | The same for environment entries, wherever sorting leaves the two halves side by side. |
| `CacheKeys.InputCollides` | src/core/cache/cache_key.cpp:43-51 | The same for inputs, wherever sorting leaves the two halves side by side. |
| `CacheKeys.EqualsSignCollidesExactly` | src/core/cache/cache_key.cpp:31-39 | Without line feeds, another command with another multiset of environment entries has the same text if and only if some entry holds an equals sign in its name or value. |
| `CacheStores.CacheStore.Lookup` | src/core/cache/cache_store.cpp:62-87 | Serves the entry exactly when all its recorded outputs are in place; touches a served entry, deletes a stale one. |
| `CacheStores.CacheStore.Store` | src/core/cache/cache_store.cpp:89-98 | Writes only successes, and only when enabled; a rewritten entry keeps its origin and hit count. |
| `CacheStores.HoldsExactly` | src/core/cache/cache_store.cpp:62-98 | In every history a key holds an outcome exactly when some operation wrote it and none later wrote again or found it stale. |
| `CacheStores.ServedExactly` | src/core/cache/cache_store.cpp:62-87 | A lookup serves exactly the current outcome, exactly when its outputs are in place. |
| `CacheStores.OnlySuccesses` | src/core/cache/cache_store.cpp:89-98 | In every history every stored entry has exit code zero. |
| `CacheStores.StaleForGood` | src/core/cache/cache_store.cpp:76-83 | An entry found stale is not served again, even if the files come back, until the key is written again. |
| `CacheStores.ValidMeansPresentExactly` | src/core/cache/cache_store.cpp:49-59 | Outputs that validate somewhere guarantee a set of paths, whatever files validate them, if and only if each path is the path of a recorded output. |
| `CacheStores.HitMeansPresentExactly` | src/core/cache/cache_store.cpp:62-87 | In every history, a served entry guarantees that a set of declared paths is present if and only if each of them is recorded in the entry. |
| `CacheStores.DeclaredLaterMayBeMissing` | src/core/cache/cache_store.cpp:76-83 | An entry with a recorded output is served while an output declared later is missing. |
| `Sha256.Hasher.constructor` | src/core/util/sha256.cpp:10-33 | The constants and the initial state of the standard, nothing fed. |
| `Sha256.Hasher.ProcessBlock` | src/core/util/sha256.cpp:35-83 | The in-place schedule, rounds and additions compute the standard's compression of the buffered block. |
| `Sha256.Hasher.Update` | src/core/util/sha256.cpp:85-99 | The object stands for exactly the bytes fed so far, followed by the new ones. |
| `Sha256.Hasher.HexDigest` | src/core/util/sha256.cpp:101-123 | The padding loop terminates and the result is the hexadecimal fold over the padded bytes fed; the object starts over. |
| `Sha256.Sha256Hex` | src/core/util/sha256.cpp:125-129 | The digest of the text, which below 2^61 bytes is the standard's. |
| `Sha256.HashFile` | src/core/util/sha256.cpp:131-148 | For every chunking, the digest of the concatenation; nothing if and only if opening or reading failed. |
| `Sha256.AbsorbAppend` | src/core/util/sha256.cpp:85-99 | Folding over a whole number of blocks and then the rest is folding over everything. |
| `Sha256.LengthRoundTrip` | src/core/util/sha256.cpp:110-114 | The length field reads back as the bit length. |
| `Sha256.PadInjective` | src/core/util/sha256.cpp:101-115 | Different messages below 2^61 bytes never pad to the same blocks. |
| `AsciiTree.Renderer.RenderTree` | src/core/engine/ascii_graph.cpp:29-61 | The recursion terminates on unexpanded nodes and appends the text of the node's tree. |
| `AsciiTree.RenderDependencyTree` | src/core/engine/ascii_graph.cpp:95-100 | The text of the trees of all roots. |
| `AsciiTree.EveryNodeOpenedOnce` | src/core/engine/ascii_graph.cpp:46-53 | Every node is expanded exactly once; a line is starred exactly when an earlier line shows its node. |
| `AsciiTree.OneLinePerDependency` | src/core/engine/ascii_graph.cpp:57-60 | A root has one line, any other node one line for each of its dependencies. |
| `AsciiTree.RootsPlusEdges` | src/core/engine/ascii_graph.cpp:95-100 | The tree has as many lines as roots and distinct edges together. |
| `AsciiTree.ComputeLevels` | src/core/engine/ascii_graph.cpp:12-27 | The level of a node is the number of edges on a longest path that ends in it. |

## Left out

- Filesystem probing and path normalisation: files are a map from path to size, modification time and digest.
- SQLite, JSON text, migrations, configuration, command line, console output, log storage: foreign libraries or presentation; the cache repository is a map, and its payload is kept as a value instead of JSON text. Pruning and clearing the cache are not modelled.
- fork, exec, pipes, poll, signals and waitpid: their results are inputs of the reactor's steps.
- Shutdown during a run: `SchedulerWithRunner` takes the runner to outlive the run.
- Mutexes, condition variables and atomics: commands and events are sequences swapped in batches; that the active counter is raised just before its command is queued is one step here.
- Clock overflow, the largest representable time point and the floating-point backoff delay: time is an unbounded integer and every delay is possible.
- The 32-bit packing of a pair of node numbers into one edge key, and 64-bit overflow in the pool: numbers are unbounded.
- SchedulerEngine.Scheduler.StartProcess: models the attempt, the state and the slot; the call to the runner, its handle and the callbacks are in `SchedulerWithRunner`.
- Observers, timestamps, durations and message strings: no step depends on them. Streams always have a receiver for their lines.
- Scheduling policies other than the default one.
- Eventual reporting by the operating system: termination is stated as a bound on the number of steps and the absence of a dead end, not as fairness.
- Collision resistance of SHA-256: equal texts give equal keys; the converse is not a theorem.
- SchedulerEngine.Scheduler.HandleEvent: ignores the report of a task that is not RUNNING; the source has no such test, and needs none (`SchedulerWithRunner.ReportFindsRunning`).
- SchedulerEngine.Scheduler.HandleProcessFinished: asks that the reported task is RUNNING, for the same reason.
- AsciiTree.RenderDependencyTree: covers the dependency tree; the title, the level listing and the message for an empty pipeline are not part of its text.
- Sha256.Hasher.ProcessBlock: the eight final additions are one simultaneous assignment here instead of eight in a row.

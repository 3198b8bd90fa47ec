# DAGent scheduler core: a Dafny model

DAGent runs a graph of tasks with worker processes. Everything it knows durably is an append-only
event log with tables derived from it; the rest is a handful of in-memory registries that a crash
clears. This project models the parts of the scheduler on which its guarantees rest and proves what
they promise over every input and every run. `dafny verify dfyconfig.toml` checks all of it.

| file | models |
|---|---|
| `Wrappers`, `Sets`, `States` | option and result types; finite sets and sequences; the task states and their legal moves |
| `Store` | `store/events.py`: the log, the tables, the one state-write path, both replay folds, and the database as an object whose methods change it |
| `ExecutionLease` | `execution_lease.py`: acquire, renew, release, recover, validate |
| `AttemptLog`, `StoreSchema` | what the log says of the attempts, and the constraints of `store/schema.sql`, over whole runs |
| `StoreRuns` | any interleaving of task, attempt, audit and lease operations, accepted or rejected, from the empty database |
| `Graph`, `DependencyGraph`, `Preflight` | the two Kahn passes, the critical path, and the downstream depth of `scheduler/adaptive.py` |
| `Settlement` | `advance_dependency_states`: the fixpoint loop over blocked rows, and freedom from deadlock |
| `Scopes`, `Conflicts` | write-scope overlap, union-find with path halving, serialisation groups |
| `Recovery`, `Supervisor` | the bounded recovery decision and the supervisor's menu |
| `Triage` | triage and recovery of one task as a state machine with a crash or an exception between any two writes |
| `TriageOutcomes` | how every delivery ends: retried, handed to a person, or as the decision on record says |
| `TriageSafety` | one recovery per cause, with the exact condition; the retry, nudge and launch caps |
| `TriageCalls` | which deliveries lead to a supervisor call, and when a cause is called for twice |
| `TriageChildren` | child attempts across crashes |
| `TriageRuns` | concrete runs on which triage does less than its comments say |
| `Reconcile` | `scheduler/reconcile.py`: exactness and idempotence of the restart pass |
| `WorkerFence` | `_validate_worker_lease`: stale worker output is never applied |
| `HealthyWatcher` | the heartbeat of a lease: a worker that keeps writing is heard |
| `Worktrees` | the FIFO pool of worktrees and the slot bookkeeping around it |

Operations that change state are methods of classes (`Store.Database`, `Conflicts.Forest`,
`WorkerFence.Scheduler`, `Worktrees.WorktreePool`, `Worktrees.Registry`) or methods over the
database; each is proved equal to a function on values, and the runs are runs of those functions.
Triage is a state machine over values: each `Continue` step is one committed write together with
the reads that decide it, `Crash` clears the in-memory state, `Abort` is an exception that leaves the
handler. Supervisor answers, worker signals, git, process liveness and clocks are arbitrary.

## Where the code falls short of its comments

Each of these is a lemma; the code is modelled as it is.

- A re-dispatched `restart` never takes up the child its crashed predecessor created
  (`src/dagent/scheduler/core.py:567-570` says it does): the update at line 1555 marks the child
  before the test at lines 551-564 looks at it. `TriageChildren.EveryLaunchMakesAnAttempt` shows the
  reuse branch is never taken in any run, `TriageRuns.CrashMakesSecondChild` gives the run.
- The supervisor can be called twice for one cause. A delivery leads to a call exactly when the guard
  lets it in and neither a deterministic path, nor an open intervention, nor a persisted decision
  resolves the cause (`TriageCalls.DeliveryCallsIff`), so a second call happens exactly when such a
  delivery names a cause that was called for (`TriageCalls.SecondCallIff`). One way there is a crash
  after the interrupted intervention is closed and before the task leaves triage
  (`TriageRuns.CrashCallsSupervisorTwice`); another is a duplicate that arrives after a person answered
  the escalation (`TriageRuns.DuplicateAfterAnswerCallsAgain`). Among the deliveries the call sites
  make only the one after a restart can do it (`TriageCalls.OnlyARestartCallsAgain`).
- After stall, `wait`, and the worker's exit, the exit is dropped as a duplicate and no later exit or
  stall report moves the task (`TriageRuns.WaitThenExitStrands`; `TriageRuns.ExitLostIff` says when an exit is lost).
- The guard against handling a cause twice lets a decided cause through while its task is in triage,
  and the deterministic crash path behind it does not look at decisions. The handler alone, given an
  arbitrary duplicate, can therefore recover one cause twice (`TriageRuns.TwoRecoveriesOfOneCause`),
  exactly when a *sharp* delivery occurs: the task is in triage, the cause was decided, and the crash
  path would go ahead (`TriageSafety.SecondRecoveryIffSharp`). Its call sites make no such delivery:
  each hands over a signal it has just recorded, or the cause that put the task in triage, and over
  every run of those each cause has at most one recovery (`TriageSafety.CallSitesRecoverOnce`).
- Only a line renews a worker's lease, and only when a third of the stall threshold has passed since the
  last renewal. A worker silent for at most the lease time less that interval is always heard
  (`HealthyWatcher.HealthyWorkerIsHeard`), and the bound is sharp (`HealthyWatcher.LongerSilenceIsLost`): with
  the default 300 seconds for both lease and threshold, the next line after more than 200 silent seconds may be
  rejected although the watchdog still tolerates the silence (lines 756 and 1897 of `src/dagent/scheduler/core.py`).
- `close` empties the list of slots and not the queue, so a pool opened again can queue a slot twice
  (`Worktrees.ReopenedQueue` gives the exact condition).

## Model

| member | source | states |
|---|---|---|
| Store.Database.InsertTask | src/dagent/store/events.py:119-168 | the task row, its edges and its event are written together, or a duplicate id, unknown or repeated prerequisite or bad delivery mode leaves everything as it was |
| Store.Database.Move | src/dagent/store/events.py:171-205 | the state-write path: rejects forbidden columns, unknown tasks, illegal moves and an update that empties a required column without a trace, otherwise writes row and event in one step |
| Store.Database.InsertAttempt | src/dagent/store/events.py:324-354 | an attempt with a new id, a number unused in its task and an existing parent gets its whole row and its audit event, or nothing is written |
| Store.Database.ChangeAttempt | src/dagent/store/events.py:357-375 | the named columns of a known attempt change, others stay; unknown columns, an empty update, an unknown attempt and an emptied required column are errors without a trace |
| Store.Replay | src/dagent/store/events.py:208-260 | the loop over the events computes the task fold |
| Store.ReplayLeaseRows | src/dagent/store/events.py:263-303 | the loop over the events computes the lease fold |
| Store.ChainPassesThrough | src/dagent/store/events.py:79-85 | where a legal chain of moves ends tells which states it entered before, in order; a delivered task was queued, running and delivering |
| Store.TerminalIsLast | src/dagent/store/events.py:79-85 | a terminal state ends every legal chain |
| StoreRuns.ReplayRebuildsTables | src/dagent/store/events.py:208-303 | after any run of accepted and rejected operations both folds of the log equal the live task and lease tables, column for column |
| AttemptLog.ReplayRebuildsAttempts | src/dagent/store/events.py:324-375 | after any run the attempts table is, column for column, what the creation and update events of the log say |
| AttemptLog.NewTaskReads | src/dagent/store/events.py:119-168 | what every column of a new task reads, its edges, and that no other row changed |
| StoreSchema.SchemaAfterRun | src/dagent/store/schema.sql:4-80 | after any run no required column of a task or attempt is empty, delivery modes are legal, and edges, tasks and parents refer to known rows, no edge twice |
| StoreSchema.PrerequisitesArePresent | src/dagent/scheduler/core.py:169-178 | so settlement never fails on a database that only these operations wrote |
| StoreRuns.StepIsSound | src/dagent/execution_lease.py:97-120 | a rejected operation leaves tables and log exactly as they were, including an acquire that reclaimed before it failed; every operation keeps replay, fencing and legal chains |
| StoreRuns.TaskHistory | src/dagent/store/events.py:171-205 | after any run the state changes of each task form one legal chain from blocked, a terminal change is the last one, and the row's state is where the chain ends |
| StoreRuns.GenerationsAfterRun | src/dagent/execution_lease.py:190-240 | after any run the generations of an attempt are exactly 1..n, each once, and only number n can be active |
| StoreRuns.FencedForever | src/dagent/execution_lease.py:243-342 | once released or recovered, a lease is never validated, renewed, released or recovered into anything else by any later run |
| StoreRuns.SupersededForever | src/dagent/execution_lease.py:190-240 | a lease with a newer generation beside it is fenced now and after any run |
| StoreRuns.ExpiredStep | src/dagent/execution_lease.py:164-301 | past its expiry a row leaves active only through recover or the reclaim inside acquire; renewing or releasing it is rejected without a trace |
| StoreRuns.ExpiredForever | src/dagent/execution_lease.py:164-301 | expiry is irrevocable while the clock does not run back before it was seen |
| StoreRuns.AttemptIdentityForever | src/dagent/store/events.py:305-331 | an attempt is never removed, and its task, number and every column that may not be updated stay as created, in any run |
| StoreRuns.AttemptNumbersAreDistinct | src/dagent/store/schema.sql:79 | after any run no two attempts of a task share a number |
| ExecutionLease.Acquire | src/dagent/execution_lease.py:190-240 | busy, unknown attempt, bad argument and duplicate id are errors that change nothing; otherwise an expired owner is recovered and the next generation is active |
| ExecutionLease.Renew | src/dagent/execution_lease.py:255-280 | only a current, active, unexpired token moves the expiry, with its event |
| ExecutionLease.Release | src/dagent/execution_lease.py:283-302 | closes an active unexpired lease; repeating on a closed one is harmless; an expired active one is an error |
| ExecutionLease.Recover | src/dagent/execution_lease.py:304-342 | fences the exact generation without its owner; repeating is harmless |
| ExecutionLease.AcquireSucceedsIff | src/dagent/execution_lease.py:190-240 | acquiring succeeds exactly with a name, a positive or absent ttl, a known attempt and an unused id, and when every active lease of the attempt has expired |
| ExecutionLease.AcquiredRows | src/dagent/execution_lease.py:190-240 | the whole row inserted, the expired row recovered with its reason, and every other row and table as it was |
| ExecutionLease.ReleasedIsOver | src/dagent/execution_lease.py:283-302 | releasing a valid lease with a reason closes its row with that reason and time and one event; from then on none of its tokens validates, and its attempt can be acquired at any time |
| ExecutionLease.ReleaseSucceedsIff | src/dagent/execution_lease.py:283-302 | releasing succeeds exactly with a reason and the owner's token of a row that is closed or unexpired, and writes exactly when that row is active |
| ExecutionLease.RecoveredIsOver | src/dagent/execution_lease.py:304-342 | recovering an active row by its generation does the same, whoever owns it |
| ExecutionLease.RecoverSucceedsIff | src/dagent/execution_lease.py:304-342 | recovering succeeds exactly with a reason and the exact generation of a row of that attempt, and writes exactly when it is active |
| ExecutionLease.OneHolder | src/dagent/execution_lease.py:243-252 | at most one token of an attempt validates, whatever the two clock readings |
| ExecutionLease.HolderExcludes | src/dagent/execution_lease.py:205-216 | while a token validates, acquiring its attempt fails and changes nothing |
| ExecutionLease.AcquiredIsHeld | src/dagent/execution_lease.py:190-240 | the new lease is the next generation, validates exactly until its expiry, and every earlier token of the attempt is out |
| ExecutionLease.RenewedIsHeld | src/dagent/execution_lease.py:255-280 | renewing succeeds exactly with a valid token and a positive or absent ttl, and the token then validates exactly until the new expiry |
| ExecutionLease.AcquireKeeps | src/dagent/execution_lease.py:190-240 | acquire keeps generations gapless with only the newest active, and no closed lease changes |
| Graph.KahnDecides | src/dagent/scheduler/core.py:129-142 | what an exhausted Kahn pass leaves over is exactly the tasks whose prerequisite chains lead into a cycle |
| DependencyGraph.ValidateDependencyGraph | src/dagent/scheduler/core.py:104-142 | accepts exactly closed acyclic graphs; otherwise names exactly the ids that edges name and no task has, or exactly the tasks whose chains lead into a cycle, in order |
| DependencyGraph.KahnPass | src/dagent/scheduler/core.py:129-137 | the counter loop visits a task exactly when its chains avoid every cycle |
| Preflight.TopologicalOrderOf | src/dagent/workflow_preflight.py:231-251 | returns an order that respects every edge if and only if the graph is acyclic; the error names exactly the tasks leading into a cycle, sorted, and names the first of them as declared |
| Preflight.GreedyIsLeast | src/dagent/workflow_preflight.py:234-243 | the returned order is the lexicographically least of all topological orders |
| Preflight.CriticalPath | src/dagent/workflow_preflight.py:456-495 | each depth is the node count of the longest prerequisite chain ending there, and the path is a real chain that no other chain exceeds; it ends at the earliest deepest task and goes back each time to the deepest prerequisite, the smallest id among equals |
| Preflight.Deepest | src/dagent/workflow_preflight.py:489 | the earliest task of the order among the deepest ones |
| Preflight.DownstreamAgrees | src/dagent/scheduler/adaptive.py:10-13 | the memoised depth in the opposite direction has the length of the critical path as its maximum |
| Settlement.SettleOne | src/dagent/scheduler/core.py:159-241 | one blocked row: queued, blocked, left waiting, or the missing prerequisite, with the events of each case |
| Settlement.AdvanceDependencyStates | src/dagent/scheduler/core.py:145-243 | the loop ends; a settled result is the least fixpoint; it fails exactly when a blocked task has an absent prerequisite; false means nothing was written, true that something was; a call at rest returns false; a task ends dependency_blocked exactly when it leads to a dead end; every state change names as its cause the event before it, which says why; the log still rebuilds the tables |
| Settlement.SettleStepIsSound | src/dagent/scheduler/core.py:159-241 | settling one row keeps replay, fencing and legal chains |
| Settlement.BlockingIffUndeliverable | src/dagent/scheduler/core.py:60 | a prerequisite blocks exactly when no legal sequence of moves leads it to delivered any more, or when it waits for a person and people count as blocking |
| Settlement.DoomedIff | src/dagent/scheduler/core.py:145-243 | a blocked task is in the least fixpoint exactly when a walk through blocked tasks leads from it to one that can no longer be delivered, or to one with all prerequisites delivered whose interface check fails |
| Settlement.RestIsLeastFixpoint | src/dagent/scheduler/core.py:145-243 | justified moves that leave nothing to decide are exactly the least fixpoint |
| Settlement.ScanOrderDoesNotMatter | src/dagent/scheduler/core.py:145-152 | two settled results from one database agree on every state, whatever the scan order |
| Settlement.NoDeadlock | src/dagent/scheduler/core.py:478-491 | on an acyclic graph, at rest with nothing in flight and people counted as blocking, the team is settled |
| Settlement.DaemonWaitsOnlyForPeople | src/dagent/scheduler/core.py:185-190 | when people do not block, a task left blocked waits through blocked tasks for one that needs a person |
| Conflicts.LiteralPairsAreExact | src/dagent/workflow_preflight.py:278-296 | without globs the pairs are exactly the tasks that write a common path |
| Conflicts.CommonWritersAreGrouped | src/dagent/workflow_preflight.py:278-341 | tasks that write a common path, globs included, are in one group, the one of lower rank first |
| Conflicts.CommonWritersAreOrdered | src/dagent/workflow_preflight.py:323-340 | once serialised, the later of two such tasks waits for the earlier |
| Scopes.OverlapIsConservative | src/dagent/workflow_preflight.py:254-275 | two scopes, globs included, that can cover one path are reported as overlapping |
| Scopes.LiteralOverlapIsExact | src/dagent/workflow_preflight.py:254-264 | without globs the answer is yes exactly when some path is covered by both |
| Scopes.GlobOverlapIsPrefixComparison | src/dagent/workflow_preflight.py:265-275 | with a glob the answer is yes exactly when the literal prefixes are comparable |
| Scopes.OverlapIsSymmetric | src/dagent/workflow_preflight.py:254-275 | overlap does not depend on the order of the two scopes |
| Conflicts.Forest.Find | src/dagent/workflow_preflight.py:298-302 | path halving ends at the node's root and leaves every node's root as it was |
| Conflicts.Forest.Union | src/dagent/workflow_preflight.py:304-307 | the two classes become one under the left root, every other root stays |
| Conflicts.MergeFollowsEdge | src/dagent/workflow_preflight.py:309-310 | merging along a pair keeps same root equivalent to connected by pairs |
| Conflicts.ConflictGroups | src/dagent/workflow_preflight.py:278-341 | the groups are exactly the connected components of at least two tasks of the overlap graph, members and groups in rank order, each with exactly the scopes some member writes and another member's scope overlaps |
| Conflicts.GroupsDisjoint | src/dagent/workflow_preflight.py:311-334 | no task is in two groups |
| Conflicts.SerialisationIsAcyclic | src/dagent/workflow_preflight.py:323-340 | serialising every group in the recommended order on top of the dependencies leaves the graph acyclic |
| Recovery.ClassifiedIff | src/dagent/recovery.py:54-70 | an event that names a class has it; otherwise type and cause decide, class by class |
| Recovery.ParseClassInvertsName | src/dagent/recovery.py:12-22 | reading a class inverts spelling it, and nothing else reads as a class |
| Recovery.ActionIff | src/dagent/recovery.py:73-109 | exactly when each action is chosen |
| Recovery.RelaunchedIff | src/dagent/recovery.py:54-109 | from the event to the relaunch: exactly which failures are retried, budget permitting |
| Recovery.RefusalIsStable | src/dagent/recovery.py:73-109 | a decision that does not relaunch stays so as retries and earlier repairs grow, and one that relaunches has budget left |
| Supervisor.ComputeAllowedActions | src/dagent/supervisor/actions.py:7-35 | the list holds exactly the actions the menu allows for this trigger, budget, mode and session |
| TriageSafety.HandledMeans | src/dagent/scheduler/core.py:1376-1390 | the guard finds an event exactly when the cause has a recovery, and the persisted lookup exactly when it has a decision |
| TriageSafety.OneRecoveryPerCause | src/dagent/scheduler/core.py:1362-1608 | over every run with duplicate and overlapping signals, crashes and failures anywhere, in which a task found in triage is handed the cause that put it there or one without a decision, each cause has at most one recovery in the log, and every recovered cause is a recorded signal |
| TriageSafety.SitedRunsAreOrderly | src/dagent/scheduler/core.py:369-374 | first deliveries and restarts, which are all the call sites make, satisfy that condition |
| TriageSafety.CallSitesRecoverOnce | src/dagent/scheduler/core.py:1362-1608 | over every run of the deliveries the call sites make each cause has at most one recovery |
| TriageSafety.OrderlyRunsAreSpared | src/dagent/scheduler/core.py:369-374 | deliveries that find a task in triage with the cause that put it there, or with one without a decision, are never sharp |
| TriageSafety.SecondRecoveryIffSharp | src/dagent/scheduler/core.py:1387-1425 | after any run without a sharp delivery, the next delivery can be carried on to a second recovery of its cause if and only if it is sharp |
| TriageSafety.RefusedStays | src/dagent/scheduler/core.py:1037-1120 | a cause the protocol and public paths refused stays refused as the log and the retry count grow |
| TriageSafety.CapsHold | src/dagent/scheduler/core.py:1037-1608 | over every run and every supervisor: retries within the budget, nudge decisions within theirs, launches at most one plus retries plus human answers |
| TriageOutcomes.EveryDeliveryEnds | src/dagent/scheduler/core.py:1413-1608 | over every run, a delivery that found the task in triage and is carried on undisturbed: exactly when it makes a new attempt, goes to a person, fails the task, or lets the worker go on |
| TriageOutcomes.RetryableIff | src/dagent/scheduler/core.py:1037-1120 | the three deterministic paths go ahead exactly for a nonzero exit of the newest attempt, a first incomplete result, or a public failure not given up, with the switch on and budget left |
| TriageOutcomes.RetryableIsRelaunched | src/dagent/scheduler/core.py:1037-1120 | such a failure ends running with one more attempt, current and started, one more retry, and exactly one recovery more, of its cause; log, attempts and interventions are spelled out |
| TriageOutcomes.StuckGoesToPerson | src/dagent/scheduler/core.py:1426-1454 | a hopeless failure, or one with an intervention left open, ends with a person, without a retry or a new attempt |
| TriageOutcomes.RecordIsCarriedOut | src/dagent/scheduler/core.py:1455-1608 | otherwise the newest decision on record is carried out if the menu still offers it, else a person is asked; the supervisor is not |
| TriageOutcomes.AnswerIsCarriedOut | src/dagent/scheduler/core.py:1480-1608 | without a record the supervisor is called once, its answer is recorded and its intervention ended, and the same ends follow |
| TriageOutcomes.LetInIff | src/dagent/scheduler/core.py:1371-1393 | exactly which deliveries the guard lets in, and that the others change nothing |
| TriageOutcomes.FailureIsRetried | src/dagent/scheduler/core.py:1003-1120 | over every run, a crash, a first incomplete result or a public failure of the current attempt, reported and delivered with budget left, is retried |
| TriageOutcomes.RepeatedFailureIsEscalated | src/dagent/scheduler/core.py:1413-1425 | a check that fails as enough earlier attempts failed, on an unchanged tree, goes to a person |
| TriageOutcomes.OrphanIsLetIn | src/dagent/scheduler/reconcile.py:61-88 | a task found running without a process goes to triage for a cause that is let in and is not retried unasked |
| TriageOutcomes.MenuHolds | src/dagent/supervisor/actions.py:7-35 | over every run only a question is nudged and only a stall waited out, nothing is abandoned and no task fails unless the menu allows it, and one protocol repair at most is made |
| TriageSafety.DeliveryResolves | src/dagent/scheduler/core.py:1413-1608 | a delivery the guard lets in, carried on without a crash or an exception, frees the lock within thirteen writes whatever the supervisor and the workers do, and the task has then left triage |
| TriageCalls.DeliveryCallsIff | src/dagent/scheduler/core.py:1413-1490 | with the lock free, a delivery can be carried on to a supervisor call for its cause if and only if the guard lets it in and nothing short of the supervisor resolves it |
| TriageCalls.OneCallPerCause | src/dagent/scheduler/core.py:1426-1436 | over every run without such a delivery of a cause already called for, each cause has at most one call |
| TriageCalls.SecondCallIff | src/dagent/scheduler/core.py:1426-1454 | after such a run the next delivery can be carried on to a second call if and only if it is one |
| TriageCalls.OnlyARestartCallsAgain | src/dagent/scheduler/core.py:369-374 | among the deliveries the call sites make, one that calls again finds the task in triage for that very cause |
| TriageChildren.EveryLaunchMakesAnAttempt | src/dagent/scheduler/core.py:535-602 | in every run a launch from triage finds no created child to take up and makes a new attempt |
| TriageRuns.CrashMakesSecondChild | src/dagent/scheduler/core.py:1550-1585 | on a run of the deliveries the call sites make, one decision, a crash, and its redelivery leave three attempts where two were meant |
| TriageRuns.CrashCallsSupervisorTwice | src/dagent/scheduler/core.py:1431-1454 | a run of the deliveries the call sites make on which the supervisor is called twice for one cause |
| TriageRuns.DuplicateAfterAnswerCallsAgain | src/dagent/scheduler/core.py:1371-1393 | such a run leads to a running task, relaunched after a person answered, for which a duplicate of the old question calls the supervisor again |
| TriageRuns.ExitLostIff | src/dagent/scheduler/core.py:1003-1020 | a running task's exit is dropped if and only if its attempt already reported an exit or a stall |
| TriageRuns.StallLostIff | src/dagent/scheduler/core.py:1003-1025 | a stall is dropped under the same condition unless the worker is being waited for; otherwise it is recorded and ends the wait |
| TriageRuns.WaitThenExitStrands | src/dagent/scheduler/core.py:1007-1025 | such a run, stall, wait and exit, leads to a running task that no further exit or stall report moves |
| TriageRuns.StrandedForever | src/dagent/scheduler/core.py:1007-1020 | under any sequence of exits, stalls and events triage does not read, such a task keeps every row and gains only those events |
| TriageRuns.TwoRecoveriesOfOneCause | src/dagent/scheduler/core.py:1387-1425 | a property of the handler given an arbitrary duplicate: with two retries the deliveries the call sites make reach a state in which an arbitrary duplicate of a decided cause gets a second recovery |
| Reconcile.ReconcileAll | src/dagent/scheduler/reconcile.py:31-89 | the loop over the rows read at the start computes the pass, stopping at an unknown attempt |
| Reconcile.ReconcileRow | src/dagent/scheduler/reconcile.py:36-89 | one row: skipped, cleared, sent to verifying or to triage, in the order of the writes |
| Reconcile.ClaimIsNewest | src/dagent/scheduler/reconcile.py:44-49 | the claim acted on is of this attempt or of none, and the newest such |
| Reconcile.ClaimedRowCause | src/dagent/scheduler/reconcile.py:50-59 | a dead task goes to verifying with its newest done claim as the cause |
| Reconcile.ExitedRowTrace | src/dagent/scheduler/reconcile.py:61-88 | otherwise an exit event is recorded, triage names it as its cause, and the attempt keeps exit, interruption, end time, candidate and uncommitted work |
| Reconcile.ReconcileIsExact | src/dagent/scheduler/reconcile.py:31-132 | no task stays running with a dead session; it went to verifying exactly when a done claim counts for it, else to triage; exactly the active leases of orphans are recovered, holders unchanged; an open slot got exactly one release event; exactly the attempts of dead unclaimed tasks note the exit; a dead task carries on the recorded candidate or the head of its branch; every other lease, attempt, task row and column is as before |
| Reconcile.ReconcileRoutes | src/dagent/scheduler/reconcile.py:31-89 | read off the columns and events: a running task whose session is gone goes to verifying if its attempt, or nobody in particular, claimed to be done, else to triage; no such task keeps an active lease or an open slot |
| Reconcile.ReconcileReleases | src/dagent/scheduler/reconcile.py:108-132 | a slot gets one release event exactly when it was acquired by the current attempt of such a task and never released |
| Reconcile.ClaimedRowCandidate | src/dagent/scheduler/reconcile.py:50-59 | a dead task with a claim carries the candidate its current attempt recorded into verifying, and every other column as it was |
| Reconcile.ExitedRowCandidate | src/dagent/scheduler/reconcile.py:66-88 | one without carries the head of its candidate branch into triage, if there is one, and every other column as it was |
| Reconcile.ReconcileIsIdempotent | src/dagent/scheduler/reconcile.py:31-132 | with the same processes alive a second pass writes no event and changes no row |
| Reconcile.PassReconciles | src/dagent/scheduler/reconcile.py:31-89 | the pass completes exactly when every dead unclaimed task names a known attempt |
| Reconcile.PassIsSound | src/dagent/scheduler/reconcile.py:31-132 | after the pass both folds of the log still equal the tables, with leases fenced and chains legal |
| WorkerFence.Scheduler.ValidateWorkerLease | src/dagent/scheduler/core.py:721-766 | the guards in their order, the due renewal, and the rejection event |
| WorkerFence.AcceptedIffCurrent | src/dagent/scheduler/core.py:731-760 | a line counts exactly when its lease is the registered one, active, unexpired at each clock reading, and held for the latest attempt |
| WorkerFence.AcceptedIsNewest | src/dagent/scheduler/core.py:754-760 | an accepted line holds the newest generation and the only active lease of its attempt |
| WorkerFence.OldWatcherIsSilenced | src/dagent/scheduler/core.py:725-752 | after teardown, recovery, restart or a newer attempt, no line of the old watcher counts after any further run |
| WorkerFence.ExpiredWatcherIsSilenced | src/dagent/execution_lease.py:164-169 | once its lease was seen expired, no later line of a watcher counts while the clock does not run back |
| WorkerFence.TeardownMakesStale | src/dagent/scheduler/core.py:2018-2030 | a teardown or a restart makes the captured lease stale at once |
| WorkerFence.RecoveryMakesStale | src/dagent/execution_lease.py:304-342 | so does recovering the lease |
| WorkerFence.NewerAttemptMakesStale | src/dagent/store/events.py:324-354 | so does creating a newer attempt of the task |
| WorkerFence.RejectedChangesNothing | src/dagent/scheduler/core.py:699-719 | a rejected line leaves its audit event and nothing else |
| HealthyWatcher.AcceptedLineBeats | src/dagent/scheduler/core.py:755-766 | an accepted line renews row and registered lease for the full time, and notes the beat, exactly when the interval has passed since the last one; otherwise it changes nothing |
| HealthyWatcher.HealthyWorkerIsHeard | src/dagent/scheduler/core.py:721-766 | over every run in which nobody takes its lease away, each line of a worker that is never silent for longer than the lease time less the interval is accepted, whatever happens elsewhere |
| HealthyWatcher.LongerSilenceIsLost | src/dagent/scheduler/core.py:753-766 | a current worker whose last line came just before the next renewal was due loses its next line after any longer silence |
| HealthyWatcher.LaunchStartsHealthy | src/dagent/scheduler/core.py:586-607 | a launch that gets its lease starts a worker in that condition |
| Worktrees.WorktreePool.Open | src/dagent/worker/worktree_pool.py:56-74 | slots are listed and queued in order up to the first one git cannot add |
| Worktrees.WorktreePool.Acquire | src/dagent/worker/worktree_pool.py:83-104 | the oldest free slot, or blocked; a failed checkout keeps it out of the queue |
| Worktrees.WorktreePool.Release | src/dagent/worker/worktree_pool.py:106-127 | to the back of the queue, unless git cannot detach it |
| Worktrees.Registry.Launch | src/dagent/scheduler/core.py:608-669 | which registries hold the slot after each way a launch can end |
| Worktrees.Registry.FinishTeardown | src/dagent/scheduler/core.py:2018-2060 | the slot goes back, or is lost with a failed release or a missing worktree |
| Worktrees.LaunchConservesIff | src/dagent/scheduler/core.py:609-619 | a checkout conserves the slots if and only if the task held none |
| Worktrees.SlotsAreConserved | src/dagent/worker/worktree_pool.py:1-16 | over every run in which no task is launched while it holds a slot, each slot is queued once, held by one task, or lost, and occupancy stays within the pool |
| Worktrees.SlotsAddUp | src/dagent/worker/worktree_pool.py:44-127 | queue, holders and losses add up to the number of slots |
| Worktrees.LaunchThenTeardown | src/dagent/worker/worktree_pool.py:83-127 | a launch and a teardown without failure take the oldest free slot and put it at the end of the queue, and leave everything else as it was |
| Worktrees.NothingIsLost | src/dagent/worker/worktree_pool.py:1-16 | while git and spawning work, over every such run no slot is lost and a launch is refused exactly while the whole pool is at work |
| Worktrees.ReopenedQueue | src/dagent/worker/worktree_pool.py:120-129 | opening again queues no slot twice if and only if no slot of the pool was left in the queue |

## Left out

- Identifiers are numbers with their order, times are integers, payloads are datatypes; ULIDs, JSON and timestamp formats are not part of this model.
- SQLite: each transaction is one step with rollback, its constraints are checked as it would check them, and one scheduler process writes; two concurrent writers of one task are not modelled.
- Git, subprocesses and process groups: an oracle answers for each call; worktree contents, patches and delivery are not part of this model.
- The supervisor's prompts and parsing, the workers, the verifier, interface and node verification: arbitrary answers, or one boolean per task.
- The asyncio machinery of teardown and shutdown, exception groups and transports: only its effect on leases and slots is kept.
- The time windows of the watchdog; a resumed verification or delivery may take up any failure recorded for the current attempt, where the source takes the newest.
- Scheduling scores and `choose_task`, `effective_limit`, verification costs, path and schema checks of the preflight: easy case analysis or floating point.
- End-to-end mutual exclusion of overlapping writers: the scheduler reads the plan key `conflicts` (`src/dagent/scheduler/core.py:312`), the compiler writes `conflict_groups` (`src/dagent/workflow_preflight.py:521`).
- Intervention outcome labels, feedback texts and timing events, which no modelled decision reads.
- StrandedForever: ranges over exits, stalls and events triage does not read; a timeout report cannot come either, because the teardown (`src/dagent/scheduler/core.py:1975-1980`) drops the watchdog clock, a registry the model does not hold.
- OneRecoveryPerCause: assumes orderly deliveries, because the handler alone does not promise it; SecondRecoveryIffSharp gives the exact condition, and CallSitesRecoverOnce shows that the call sites meet it.
- HealthyWorkerIsHeard: takes the offset between the wall clock and the monotonic clock as constant, up to the delay before a renewal; a step of the wall clock is not modelled.
- EveryDeliveryEnds: speaks of deliveries carried on without a crash, an exception or another step in between; what holds with those is stated by CallSitesRecoverOnce and CapsHold.
- ReplayRebuildsAttempts: ranges over runs in which only create_attempt and update_attempt log attempt events; the source has no such fold of its own.
- ReconcileIsExact: leaves open which candidate a claimed task carries when another dead task names the same current attempt and its exit is noted first; the order of the rows decides.
- CapsHold: fixes the retry budget, the nudge budget and the recovery switches for the whole run, as one scheduler process does.
- EveryLaunchMakesAnAttempt: models one task with its lock; launches of other tasks only share the pool and the slots, which Worktrees models.
- Triage is a machine over values for one task and not a class: the handler's position between two writes is a value, so a crash there is a step.
- CrashMakesSecondChild: does not claim that the first child runs; it stays without a worker.
- ConflictGroups: names tasks by their rank in the recommended order, numbers the conflicts by their position, and gives the contested scopes as a set where the source sorts them.
- TopologicalOrderOf: keeps the sorted ready list as a set whose least element is taken next.
- OverlapIsConservative: leaves open what a bracket expression of a glob admits; the text of the bracket and the character tried decide.
- OverlapIsConservative: paths and scopes have the form the preflight normalises them to, a non-empty name with at most one trailing slash.
- Acquire: blank means spaces, tabs and line ends; other Unicode white space is not part of this model.
- SlotsAreConserved: leaves out runs in which a task is launched during its own teardown; LaunchConservesIff shows that such a launch forgets a slot.
- AcceptedIffCurrent: takes the renewal interval as a number; the source computes it from the stall threshold.

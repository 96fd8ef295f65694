# Verified model of the parser_serve control plane

A Dafny model of the control plane that hands parsing work to workers, with proofs about
every run of it. The modules:

- `TaskState`, `Records`, `Lifecycle`: the transition tables, the task, stage, worker and
  backend rows, the public validators, and what each operation does to one task.
- `PipelineDag`: the depth-first dependency check, over the graph model that deadlock
  freedom and causality are stated on.
- `Selection`, `Router`: choosing worker, backend, runtime and device; turning a pipeline
  definition into a stage plan.
- `Protocol`: the store and all actions (create, route, lease, renew, start, progress,
  complete, requeue, cancel, retry, and changes of workers, backends and pipelines by others).
  What a query returns is part of an action, so results hold for every row order and for
  every set of rows that other transactions keep locked.
- `TaskInvariant`, `Movement`, `SystemInvariant`: the inductive invariant and its
  preservation by every action; no transition guard raises on a reachable state.
- `Operations`, `Effects`, `Fencing`, `Termination`, `Requeue`, `Capacity`, `Liveness`,
  `Leases`, `Standing`, `Replaying`, `Unservable`, `Idempotency`: what follows over whole
  runs. `Scenes`, `BlockedPass` and `LostFailure` build concrete runs from the empty control
  plane.
- `Scheduler`: the imperative form of the scheduler and the task repository, a class whose
  loops and local counters are proved to compute the protocol steps.
- `Callbacks`, `CallbackRuns`, `CallbackLaws`, `CallbackService`: the outbox and delivery
  machine, its results over whole runs, its steps in terms of the rows, and the repository,
  dispatcher and retention loops.
- `Dashboard`, `Paging`: percentiles, bucketed series and keyset cursors.

Every modelled method is one atomic transaction; a raised exception is a fault value, and
the transaction is rolled back. Time is a real number that does not fall from one scheduler action to the next,
floats are reals, identifiers are numbers, digests are injective constructors, and lease
tokens come from a counter. Nothing here was executed.

## Where the code does not do what one would expect

- A requeue pass raises a conflict when a selected stage follows a selected stage of the
  same task that is out of attempts and not optional: the earlier one fails the task and
  cancels the later one. `Requeue.PassRaisesIff` is the exact condition,
  `BlockedPass.BlockedRun` a run from the empty control plane in which it happens, and
  `Requeue.BlockedStaysBlocked` shows that the rolled-back pass raises again as long as the
  same rows are selected in that order.
- A late callback result still carries the current sequence after a manual resend, because
  a resend does not raise the sequence; it then uses up the resend. The exact condition, which
  the caller can look up, is `CallbackRuns.ResendSafeIff`: the attempt of the latest claim is
  stored. `CallbackRuns.LateResultRun` is a run in which it is not.
- A dispatcher pass keeps the time at which it started. If it claims a delivery that
  another process materialised later, as listing callbacks does with its own clock, the row
  fails the public validator; `CallbackRuns.ValidIffClockCaughtUp` is the exact condition
  over runs, and `CallbackRuns.StaleClockRun` is such a run.
- A failure callback is dropped when the task is retried by hand before the event is
  materialised: `CallbackRuns.FailureDeliveredIff` is the exact condition,
  `CallbackRuns.FailureLostForever` shows that it is never made up for, and
  `LostFailure.LostFailureRun` is such a run.
- The router accepts a backend for a source by category or by MIME type; the scheduler lets
  the MIME patterns of the advertised capability decide alone when there are any. A stage
  planned by category whose candidates all carry other MIME patterns is never handed out as
  long as workers advertise what is registered: `Router.CandidateSelectable` is the exact
  condition for one candidate, `Unservable.WaitingForever` the consequence over runs, and
  `Unservable.UnservableRun` such a run.

## Model

| member | source | states |
|---|---|---|
| `PipelineDag.DepthFirstCheck.constructor` | parser_serve/schema/pipeline.py:130-132 | the search starts with nothing visited, over a graph closed under dependencies |
| `PipelineDag.DepthFirstCheck.Visit` | parser_serve/schema/pipeline.py:134-143 | one recursive visit terminates; on success `visiting` is restored, the stage and everything below it is visited and the finishing order stays topological; on failure the graph has a cycle |
| `PipelineDag.ValidateDag` | parser_serve/schema/pipeline.py:116-146 | accepts exactly the definitions with unique names, known dependencies and no cycle; each rejection names its reason; acceptance yields a topological order |
| `PipelineDag.AcyclicIffOrdered` | parser_serve/schema/pipeline.py:130-146 | a closed dependency graph is acyclic if and only if a topological order of all stages exists |
| `PipelineDag.MinimalElement` | parser_serve/schema/pipeline.py:130-146 | in an acyclic graph every nonempty set of stages has one that waits for nothing in the set |
| `PipelineDag.OrderFalls` | parser_serve/schema/pipeline.py:130-146 | along any chain of dependencies the position in a topological order strictly falls |
| `PipelineDag.GraphClosed` | parser_serve/schema/pipeline.py:121-130 | dependencies are all known if and only if the graph built from the definition is closed |
| `TaskInvariant.BackoffRecurrence` | parser_serve/control/scheduler.py:999-1004 | the retry delay is the initial delay on the first attempt, and from then on the multiple of the one before, up to the maximum: the whole sequence |
| `TaskInvariant.BackoffBounds` | parser_serve/control/scheduler.py:999-1004 | the retry delay lies between the initial and the maximum delay and never falls from one attempt to the next |
| `TaskInvariant.MeanExact` | parser_serve/control/scheduler.py:1112-1123 | the recomputed progress times the number of stages is the sum of 100 for each done stage and of the reported progress of the others |
| `TaskInvariant.FailOrRetrySettles` | parser_serve/control/scheduler.py:982-1032 | failing a held stage never trips a guard; it is pending again iff attempts remain and failed iff they are used up and the stage is not optional; the lease is gone and the attempt kept |
| `TaskInvariant.ReconcileKeeps` | parser_serve/control/scheduler.py:1041-1109 | after any settling of a held stage, reconciliation never raises, restores the task invariant, moves the task along the transition table, and fails the task exactly when the stage failed, abandoning the open siblings |
| `TaskInvariant.CompletionOutcome` | parser_serve/control/scheduler.py:455-511 | an accepted completion is on record and releases the lease; success keeps the reported result, failure is available again exactly after its backoff, is skipped, or fails with the reported error, which the failed task carries; the task fails in exactly the last case, its progress is the mean over the stages and its end is dated |
| `TaskInvariant.CompleteKeeps` | parser_serve/control/scheduler.py:455-511 | a completion succeeds exactly when it applies for the first time or replays the recorded one; it keeps the task invariant and raises only lease and conflict faults |
| `TaskInvariant.ExpireKeeps` | parser_serve/control/scheduler.py:565-574 | expiring a held stage never raises and keeps the task invariant |
| `TaskInvariant.GrantKeeps` | parser_serve/control/scheduler.py:269-301 | granting a ready stage of an open task never trips a guard and keeps the task invariant |
| `TaskInvariant.RenewKeeps` | parser_serve/control/scheduler.py:344-374 | a renewal keeps the task invariant and fails only on a wrong or expired lease |
| `TaskInvariant.StartKeeps` | parser_serve/control/scheduler.py:376-416 | a start keeps the task invariant, leaves the task running, and never trips a guard |
| `TaskInvariant.ProgressKeeps` | parser_serve/control/scheduler.py:418-453 | a progress report keeps the task invariant |
| `TaskInvariant.CancelKeeps` | parser_serve/persistence/tasks.py:405-450 | cancelling fails exactly on a terminal task, follows the table and keeps the task invariant |
| `TaskInvariant.RetryKeeps` | parser_serve/persistence/tasks.py:452-498 | a manual retry succeeds exactly on a failed or cancelled task, follows the table and keeps the task invariant |
| `TaskInvariant.ProgressBounds` | parser_serve/control/scheduler.py:1112-1123 | the mean progress is a percentage, and 100 once every stage is done |
| `TaskInvariant.RecordsValid` | parser_serve/schema/task.py:109-145 | every task that meets the invariant, with all its stages, meets the full public validators |
| `TaskInvariant.SucceededIffDone` | parser_serve/control/scheduler.py:1073-1090 | a routed task has succeeded if and only if every stage is succeeded or skipped |
| `TaskInvariant.NeverStuck` | parser_serve/control/scheduler.py:797-804 | deadlock freedom: a routed task that is not terminal has a held stage or a pending stage whose dependencies are all done |
| `TaskInvariant.AncestorsDone` | parser_serve/control/scheduler.py:797-804 | dependency causality over whole chains: everything a handed-out stage transitively depends on is succeeded or skipped |
| `Lifecycle.LastResultMeans` | parser_serve/control/scheduler.py:1082-1090 | the task result is that of the last stage that has one, and absent exactly when no stage has one |
| `TaskInvariant.CarriedError` | parser_serve/control/scheduler.py:1050-1061 | in every valid state the error of a failed task is the error of its failed stage |
| `Lifecycle.FirstFailed` | parser_serve/control/scheduler.py:1050-1057 | the failed stage that reconciliation finds is the first one |
| `Operations.RenewIff` | parser_serve/control/scheduler.py:344-374 | a renewal succeeds exactly for the live holder; then its token is good for a full lease period, the reply says until when, and no other stage changed; otherwise no row changes |
| `Operations.StartIff` | parser_serve/control/scheduler.py:376-416 | a start succeeds exactly for the live holder of a leased stage, leaves stage and task running and the lease held, keeps the first start time of the task and reports the rows; otherwise no row changes |
| `Operations.ProgressIff` | parser_serve/control/scheduler.py:418-453 | a report succeeds exactly for the live holder of a running stage, makes the task progress the mean over the stages, moves no status and reports the rows; otherwise no row changes |
| `Operations.CancelIff` | parser_serve/persistence/tasks.py:405-450 | succeeds exactly for an unfinished task; done stages stay as they are, every other stage is cancelled without lease or completion record, its worker and device staying on record |
| `Operations.RetryIff` | parser_serve/persistence/tasks.py:452-498 | succeeds exactly for a failed or cancelled task, whose row is blank again; done stages stay, every other stage is pending with no attempt, token or completion on record, its device and availability staying |
| `Operations.CreateIff` | parser_serve/persistence/tasks.py:266-324 | with no key in use, creation stores a blank pending task with its request exactly when a named pipeline exists, and touches no other task |
| `Operations.RouteIff` | parser_serve/control/router.py:53-180 | when routing succeeds, for each fault exactly when it is raised, and the plan it leaves: one fresh stage per definition, in place, and the task bound to the pipeline |
| `Operations.CompletionReply` | parser_serve/control/scheduler.py:1142-1151 | an accepted completion answers with the stage status, task status, task progress and lease as stored |
| `Operations.ReplayReply` | parser_serve/control/scheduler.py:1142-1151 | a replayed completion answers with the rows as they stand |
| `Operations.ReleaseMeans` | parser_serve/control/scheduler.py:1125-1140 | a released worker goes online exactly if it was enabled and busy and holds nothing; nothing else changes |
| `Operations.CompletionReleases` | parser_serve/control/scheduler.py:505-509 | after an accepted completion its worker is online exactly if it was enabled and busy and holds nothing more |
| `TaskState.TaskTableShape` | parser_serve/domain/task_state.py:9-30 | nothing leaves success, finished tasks only go back to pending, and every other status is entered only from where it must |
| `TaskState.StageTableShape` | parser_serve/domain/task_state.py:32-64 | the same for stages |
| `Operations.ValidIffHeld` | parser_serve/control/scheduler.py:948-964 | the lease check passes for the live holder of the stage and for nobody else |
| `Movement.CompleteMoves` | parser_serve/control/scheduler.py:455-511 | an accepted completion moves every stage of the task along the stage table, releases the completed one and lowers its remaining work |
| `Movement.ExpireMoves` | parser_serve/control/scheduler.py:565-574 | an expiry moves every stage of the task along the stage table, releases the expired one and lowers its remaining work |
| `Movement.StartMoves` | parser_serve/control/scheduler.py:376-416 | a start moves stages along the table and lowers the remaining work |
| `Movement.CancelMoves` | parser_serve/persistence/tasks.py:405-450 | the unguarded stage writes of a cancellation follow the stage table |
| `Movement.RetryMoves` | parser_serve/persistence/tasks.py:452-498 | the unguarded stage writes of a manual retry reset failed and cancelled stages only |
| `Movement.AbandonKept` | parser_serve/control/scheduler.py:1062-1072 | the unguarded cancellation of siblings follows the stage table |
| `SystemInvariant.StepKeeps` | parser_serve/control/scheduler.py:111-582 | every action keeps the system invariant, and no task or stage transition guard raises |
| `SystemInvariant.RunKeeps` | parser_serve/control/scheduler.py:111-582 | the system invariant holds throughout every feasible run, whatever rows the queries return |
| `SystemInvariant.GuardsNeverRaise` | parser_serve/domain/task_state.py:9-97 | in no reachable state does a transition guard raise |
| `SystemInvariant.ReachableStates` | parser_serve/persistence/tasks.py:158-226 | every reachable task and stage meets the public validators, and the published status events replay along the table to the stored status |
| `SystemInvariant.ReachableTask` | parser_serve/control/scheduler.py:1041-1109 | every reachable routed task has coupled and causal stages, has succeeded iff all stages are done, and is never stuck |
| `SystemInvariant.LeaseStepKeeps` | parser_serve/control/scheduler.py:111-342 | a lease call keeps the invariant and trips no guard |
| `SystemInvariant.CompleteStepKeeps` | parser_serve/control/scheduler.py:455-511 | a completion keeps the invariant and trips no guard |
| `SystemInvariant.RequeueStepKeeps` | parser_serve/control/scheduler.py:538-582 | a requeue pass keeps the invariant and trips no guard |
| `SystemInvariant.RouteStepKeeps` | parser_serve/control/router.py:53-180 | routing keeps the invariant |
| `SystemInvariant.CreateStepKeeps` | parser_serve/persistence/tasks.py:237-324 | creating a task keeps the invariant, the uniqueness of idempotency keys included |
| `SystemInvariant.PutLog` | parser_serve/control/scheduler.py:1099-1109 | publishing exactly the status changes keeps the event log replayable |
| `SystemInvariant.RequeueOneKeeps` | parser_serve/control/scheduler.py:565-574 | one turn of the requeue loop on a held stage keeps the invariant and releases the stage |
| `Effects.StillStep` | parser_serve/control/scheduler.py:344-582 | no action other than create, route, lease and retry issues a token or lets a stage gain work |
| `Effects.StepTokens` | parser_serve/control/scheduler.py:269-285 | a token in a later state was in the same place before or is newer than every token issued so far |
| `Fencing.FencedForever` | parser_serve/control/scheduler.py:948-964 | once a stage no longer holds a token, for whatever reason, every later call under that token changes no row, over every run |
| `Fencing.SpentForever` | parser_serve/control/scheduler.py:1035-1039 | a token that no stage holds any more stays spent for the rest of the run |
| `Fencing.SpentCallIdle` | parser_serve/control/scheduler.py:948-964 | a renew, start, progress or complete call under a spent token changes no row |
| `Fencing.LeavingSpends` | parser_serve/control/scheduler.py:1035-1039 | a token that leaves its stage, by completion, expiry, requeue or cancellation, is spent |
| `Fencing.CompletionSpends` | parser_serve/control/scheduler.py:476-505 | an effective completion spends its token and is the one on record |
| `Fencing.AtMostOneCompletion` | parser_serve/control/scheduler.py:463-511 | over a whole run each token has at most one effective completion |
| `Fencing.ReplayIdle` | parser_serve/control/scheduler.py:466-482 | replaying the recorded completion changes no row and reports the state as it stands |
| `Fencing.ConflictingCompletionRefused` | parser_serve/control/scheduler.py:466-482 | while a completion is on record any other one is refused and changes no row |
| `Replaying.ReplayUntilForgotten` | parser_serve/control/scheduler.py:466-482 | over every run a recorded completion can be replayed until the stage is leased again, cancelled while open, or reset |
| `Replaying.SuccessReplaysForever` | parser_serve/control/scheduler.py:466-482 | a successful completion can be replayed at any later point of the run |
| `Fencing.HolderCanComplete` | parser_serve/control/scheduler.py:463-511 | a live holder of a running stage is never blocked by an older completion |
| `Termination.WorkFalls` | parser_serve/control/scheduler.py:982-1032 | a weighted sum of remaining attempts and status never rises and falls with every change of status or attempt |
| `Termination.StepAdvances` | parser_serve/control/scheduler.py:111-582 | every action but a manual retry of the task moves it on, and its attempts grow by exactly the leases handed out |
| `Termination.LeaseBudget` | parser_serve/control/scheduler.py:279 | over any run without manual retry the leases of a task are exactly its gain in attempts, at most the sum of its maximum attempts |
| `Termination.FiniteWork` | parser_serve/control/scheduler.py:982-1032 | over any run without manual retry the actions that move a stage are bounded by the initial measure, and done stages stay done |
| `Requeue.PassRaisesIff` | parser_serve/control/scheduler.py:538-582 | a pass raises the conflict exactly when a selected stage follows a selected, exhausted, non-optional stage of its task; a raising pass changes no row |
| `Requeue.PassSettles` | parser_serve/control/scheduler.py:565-582 | a pass that finishes keeps the invariant, leaves no selected stage held, and every stage of the store is where expiry and its siblings put it |
| `Requeue.BlockedStaysBlocked` | parser_serve/control/scheduler.py:538-574 | selecting the same rows again after a blocked pass raises again |
| `BlockedPass.BlockedRun` | parser_serve/control/scheduler.py:988-990 | a feasible run from the empty control plane that creates and routes a task, hands out both its stages and ends in a pass that raises |
| `Requeue.ExpireEffect` | parser_serve/control/scheduler.py:565-574 | exactly what one expiry does: its stage is available again after its backoff, is skipped, or fails with TIMEOUT, which the task then carries; siblings are abandoned exactly on failure |
| `Requeue.AbandonMeans` | parser_serve/control/scheduler.py:1062-1072 | an open sibling of a failed stage is cancelled and its lease cleared, its completion record kept; any other stays |
| `Requeue.PassReleases` | parser_serve/control/scheduler.py:575-582 | after a pass that finishes, a worker that held a selected stage is online if it was enabled and busy and holds nothing; nobody else changes |
| `Capacity.GrantCounts` | parser_serve/control/scheduler.py:269-280 | a grant adds one stage to its worker and device and to no other |
| `Capacity.CountsExact` | parser_serve/control/scheduler.py:168-187 | the grouped query counts the stages held on each device |
| `Capacity.CountsFollow` | parser_serve/control/scheduler.py:278 | incrementing the local device dictionary keeps it equal to the true counts |
| `Capacity.LeaseHolds` | parser_serve/control/scheduler.py:121-130 | a lease call adds exactly the stages it returns, within the free slots, and touches no other worker |
| `Capacity.LeaseWithinCapacity` | parser_serve/control/scheduler.py:121-130 | a lease call never raises the active count above the larger of the old count and the limit |
| `Capacity.FreeSlotsMeans` | parser_serve/control/scheduler.py:122-127 | one more stage may be handed out exactly below the number asked for and below the limit |
| `Capacity.PollRefusedIff` | parser_serve/control/scheduler.py:118-120 | a poll is refused exactly for a worker that is unknown, disabled, or neither online nor busy |
| `Capacity.LeaseMarksBusy` | parser_serve/control/scheduler.py:337-339 | a poll that had a slot marks the worker busy exactly when it now holds all it may |
| `Capacity.CapacityOverRuns` | parser_serve/control/scheduler.py:121-130 | over whole runs a worker never holds more than it started with or its limit allows; only its own lease call adds stages |
| `Capacity.LeaseEven` | parser_serve/control/scheduler.py:217-342 | a lease call whose grants share one memory floor keeps the fitting devices of every runtime within one stage of each other |
| `Liveness.OfferIffPreferred` | parser_serve/control/scheduler.py:217-264 | the gates of the lease loop let a ready stage through for the elected worker and for no other |
| `Liveness.OfferUnique` | parser_serve/control/scheduler.py:641-719 | as soon as one worker is eligible for a ready stage, exactly one worker is offered it |
| `Liveness.LeaseComplete` | parser_serve/control/scheduler.py:217-342 | a call that returns fewer leases than asked for and than the limit allows leaves no row of its queue that is still offered to the worker |
| `Liveness.OfferedIsServed` | parser_serve/control/scheduler.py:217-342 | a poll that lists a ready stage anywhere in its queue and is offered it hands something out, and either leases that stage, uses up its slots, or leaves the stage to another worker that is now ahead |
| `Liveness.OfferBack` | parser_serve/control/scheduler.py:217-264 | a stage that is offered after a grant in the same call was offered before it |
| `Liveness.CanProgress` | parser_serve/control/scheduler.py:189-342 | an unfinished routed task has a held stage or a ready one; if some worker is eligible for the ready one, every poll of the elected worker that lists it, its backoff being over, serves it in the sense of `OfferedIsServed` |
| `Leases.LeasesTrue` | parser_serve/control/scheduler.py:189-342 | every lease returned was for a pending stage whose backoff is over, describes its row as stored, is good for a full lease period, and was admitted: dependencies done, labels met, a planned backend the worker serves, on a fitting device |
| `Standing.StandsStep` | parser_serve/control/scheduler.py:344-582 | before it expires, any action leaves a lease standing, completes it, or ends its task |
| `Standing.LeaseStandsOverRuns` | parser_serve/control/scheduler.py:344-582 | over every run, until it expires, only its own completion or the end of its task takes a lease from its worker |
| `Standing.LeasedCanFinish` | parser_serve/control/scheduler.py:376-511 | from the lease call that returns it, at any later point of any run before a lease expires: its completion has taken effect, its task has ended, or the worker can start the leased stage and complete the running one |
| `Idempotency.KeyInUse` | parser_serve/persistence/tasks.py:254-264 | with the key in use creation returns its one holder for the same request, refuses any other, and changes no row |
| `Idempotency.CreateOnce` | parser_serve/persistence/tasks.py:237-264 | after a keyed creation every later creation under the key, anywhere in the run, replays it or is refused |
| `Scheduler.StageScheduler.AcquireLeases` | parser_serve/control/scheduler.py:111-342 | the lease method with its snapshot counts does what the lease step, which asks afresh for every stage, specifies, and keeps the invariant |
| `Scheduler.StageScheduler.OfferAll` | parser_serve/control/scheduler.py:217-335 | the loop with local counters and the device dictionary computes the specified sequence of grants |
| `Scheduler.StageScheduler.Consider` | parser_serve/control/scheduler.py:219-264 | the gates, in source order and on the local counters, compute the specified offer |
| `Scheduler.StageScheduler.HandOut` | parser_serve/control/scheduler.py:269-301 | the field writes of a grant, under a fresh token |
| `Scheduler.StageScheduler.Renew` | parser_serve/control/scheduler.py:344-374 | new state and reply are those of the renew step; the invariant is kept |
| `Scheduler.StageScheduler.Start` | parser_serve/control/scheduler.py:376-416 | new state and reply are those of the start step; the invariant is kept |
| `Scheduler.StageScheduler.Progress` | parser_serve/control/scheduler.py:418-453 | new state and reply are those of the progress step; the invariant is kept |
| `Scheduler.StageScheduler.Complete` | parser_serve/control/scheduler.py:455-511 | new state and reply are those of the complete step; the invariant is kept |
| `Scheduler.StageScheduler.SweepAll` | parser_serve/control/scheduler.py:563-574 | the requeue loop computes the specified sweep, or the fault of the first turn that raises |
| `Scheduler.StageScheduler.RequeueExpired` | parser_serve/control/scheduler.py:538-582 | new state and reply are those of the requeue step, rolled back as a whole on a raise; the invariant is kept |
| `Scheduler.StageScheduler.ReleaseWorkerIfIdle` | parser_serve/control/scheduler.py:1125-1140 | an enabled busy worker without held stages goes back online, nothing else changes |
| `Scheduler.StageScheduler.Cancel` | parser_serve/persistence/tasks.py:405-450 | new state and reply are those of the cancel step; the invariant is kept |
| `Scheduler.StageScheduler.Retry` | parser_serve/persistence/tasks.py:452-498 | new state and reply are those of the retry step; the invariant is kept |
| `Scheduler.StageScheduler.Create` | parser_serve/persistence/tasks.py:237-324 | new state and reply are those of the create step; the invariant is kept |
| `Scheduler.StageScheduler.Route` | parser_serve/control/router.py:53-180 | new state and reply are those of the route step; the invariant is kept |
| `Scheduler.DependenciesSatisfied` | parser_serve/control/scheduler.py:797-804 | the dictionary of statuses answers whether every dependency is succeeded or skipped |
| `Scheduler.ReconcileTask` | parser_serve/control/scheduler.py:1041-1109 | the loops of reconciliation compute the specified task row or fault |
| `Scheduler.AbandonOpen` | parser_serve/control/scheduler.py:1062-1072 | every open sibling, and only those, is cancelled and released |
| `Scheduler.FindResult` | parser_serve/control/scheduler.py:1082-1090 | the backward search finds the last result |
| `Scheduler.UpdateTaskProgress` | parser_serve/control/scheduler.py:1112-1123 | the running sum computes the mean progress |
| `Scheduler.PreferredCongruent` | parser_serve/control/scheduler.py:660-670 | the election depends on the active counts of the accepting workers only, so a snapshot with the caller's own count suffices |
| `Scheduler.DeviceCongruent` | parser_serve/control/scheduler.py:847-898 | device selection depends on the reservations only through their counts |
| `Selection.AvailableWorkerRuntimes` | parser_serve/control/scheduler.py:806-845 | exactly the runtimes of devices that are neither saturated nor below the memory floor |
| `Selection.FitsMeans` | parser_serve/control/scheduler.py:866-885 | a device fits exactly when it has the runtime, its memory in use is below the cap and the memory floor is free, by the reported figures or else the registered ones |
| `Selection.PressureMeans` | parser_serve/control/scheduler.py:879-894 | the load of a device is the higher of its memory share and its utilisation |
| `Selection.DeviceLaw` | parser_serve/control/scheduler.py:887-898 | the selected device has the fewest reservations, then the lightest load, then the smallest identifier |
| `Selection.DeviceSelected` | parser_serve/control/scheduler.py:847-898 | a device is selected exactly when one fits |
| `Selection.SelectDeviceId` | parser_serve/control/scheduler.py:847-898 | the loop computes the selected device |
| `Selection.AvailableHasDevice` | parser_serve/control/scheduler.py:806-898 | the two saturation tests agree: a runtime is available if and only if device selection finds a device for it |
| `Selection.BalanceKept` | parser_serve/control/scheduler.py:847-898 | reserving the selected device keeps fitting devices of every runtime within one reservation |
| `Selection.FindBackend` | parser_serve/control/scheduler.py:584-639 | the loop computes the selected backend and runtime |
| `Selection.SelectFromFirst` | parser_serve/control/scheduler.py:584-639 | the choice is the first planned candidate that the worker can run, and there is none exactly when no candidate can be run |
| `Selection.ServesMeans` | parser_serve/control/scheduler.py:605-638 | a candidate is run on the earliest runtime of the stage that backend, worker and advertised capability share, if it is enabled, advertised and handles the source |
| `Selection.HandlesMeans` | parser_serve/control/scheduler.py:620-629 | MIME patterns decide alone when there are any, by a concrete type covered by both; otherwise the category does |
| `Selection.SelectedRuntime` | parser_serve/control/scheduler.py:584-639 | the selected runtime is required by the stage and available on the worker |
| `Selection.LoadBusiest` | parser_serve/control/scheduler.py:731-793 | the load is one of the signals (slots in use, CPU, reported tasks, least loaded device) and none is higher |
| `Selection.DeviceLoadMeans` | parser_serve/control/scheduler.py:777-787 | a device that reported counts with the higher of its signals, one that did not counts as idle |
| `Selection.ScoreExact` | parser_serve/control/scheduler.py:793-795 | the score is the weight times the free share, of which a twentieth is always left |
| `Selection.ScoreBounds` | parser_serve/control/scheduler.py:722-795 | the score lies between a twentieth of the weight and the weight |
| `Selection.ScoreFalls` | parser_serve/control/scheduler.py:722-795 | a busier worker never scores higher |
| `Selection.LoserStaysLoser` | parser_serve/control/scheduler.py:641-719 | a worker that loses an election does not win it by taking on more work |
| `Selection.LeastLoadMeans` | parser_serve/control/scheduler.py:750-790 | the device load is attained by a compatible device and is least among them |
| `Selection.WorkerSchedulingScore` | parser_serve/control/scheduler.py:722-795 | the loop computes the score |
| `Selection.RankCandidates` | parser_serve/control/scheduler.py:663-711 | exactly the candidates that pass the gates are ranked, each under its key |
| `Selection.Winner` | parser_serve/control/scheduler.py:714-718 | the winner has the best key and the least identifier among those that share it |
| `Selection.RequestingWorkerIsPreferred` | parser_serve/control/scheduler.py:641-719 | the method answers whether the caller is the elected worker |
| `Selection.ElectionLaw` | parser_serve/control/scheduler.py:664-719 | a worker is elected exactly when it may take the job and is ahead of every other that may: an earlier runtime of the stage decides, then the higher score, then the higher weight, then the fewer stages held, then the smaller identifier |
| `Selection.EligibleIff` | parser_serve/control/scheduler.py:664-698 | who may take the job: accepts leases, has a slot and the labels, and can run a candidate |
| `Selection.ElectionUnique` | parser_serve/control/scheduler.py:641-719 | with at least one eligible worker exactly one is elected |
| `Selection.ElectedPassesGates` | parser_serve/control/scheduler.py:219-264 | the elected worker passes every gate of its own lease loop, device selection included |
| `Selection.OverlapIff` | parser_serve/persistence/registry.py:62-67 | two MIME patterns overlap if and only if some type without wildcards is covered by both |
| `Router.GroupEnabled` | parser_serve/persistence/registry.py:276-301 | the grouping dictionary yields the enabled backends in the order of the names, table order within a name |
| `Router.EnabledProperties` | parser_serve/persistence/registry.py:276-301 | exactly the enabled backends with a listed name, none twice |
| `Router.BuildPlan` | parser_serve/control/router.py:88-166 | the loop over the definitions computes the specified plan or fault |
| `Router.BuildStage` | parser_serve/control/router.py:89-140 | one turn of the loop computes the specified stage row or fault |
| `Router.PlanImage` | parser_serve/control/router.py:88-166 | planning fails exactly when some stage has no candidate; otherwise every definition has its stage at its own position |
| `Router.PlanKeepsGraph` | parser_serve/control/router.py:141-166 | the planned stages carry the dependency graph that was checked and are valid pending rows |
| `Router.PlanExact` | parser_serve/control/router.py:97-140 | the candidates are exactly the enabled, listed, suitable backends; the runtimes exactly the union of theirs cut by the stage and by a demanding task |
| `Router.PlannedStage` | parser_serve/control/router.py:141-164 | a planned stage is a valid pending row with the fields of its definition and its first candidate as backend |
| `Router.AllowedExactly` | parser_serve/control/router.py:232-249 | no runtime twice, and exactly the offered ones that the stage and a demanding task allow |
| `Router.PreferenceOnlyPermutes` | parser_serve/control/router.py:232-249 | a preference only reorders the runtimes: the preferred ones first in the order of the task, the others in the order they had |
| `Router.PreferFirstStable` | parser_serve/control/router.py:115-127 | sorting by preference permutes the candidates, preferred first, each class in its old order |
| `Router.UsableMeans` | parser_serve/control/router.py:89-114 | which backends a stage may use, in terms of the rows: enabled, named by the stage and the task, by category or MIME type, with a runtime that all allow |
| `Router.CandidateOrder` | parser_serve/control/router.py:89-96 | without a preference the candidates stand in the order of the selector, then of the table |
| `Router.PreferredCandidateOrder` | parser_serve/control/router.py:115-127 | with a preference those that run on a named runtime come first, each class in the order of the selector and the table |
| `Router.AllowedOrder` | parser_serve/control/router.py:232-249 | without a preference the planned runtimes stand in the order in which the candidates first offer them |
| `Router.RuntimesInTurn` | parser_serve/control/router.py:131-136 | the offered runtimes are those of the candidates one after the other, each in its own order |
| `Router.PipelineSupportsMeans` | parser_serve/persistence/registry.py:97-108 | a pipeline takes a source of its categories that, if it has MIME patterns, shares a concrete type with one |
| `Router.CandidateProperties` | parser_serve/control/router.py:97-114 | which backends are candidates, none of them twice |
| `Router.CandidateKeepsRuntime` | parser_serve/control/router.py:218-249 | every candidate keeps at least one of the planned runtimes |
| `Router.CandidateSelectable` | parser_serve/control/scheduler.py:605-639 | a worker that offers a planned candidate as registered, alone, is elected for the stage if and only if the candidate's own capability handles the source by the scheduler's rule; then it runs the stage on that candidate and has a device for it |
| `Router.UnhandledRefused` | parser_serve/control/scheduler.py:620-628 | while capabilities are advertised as registered, a source that no candidate handles is refused on every runtime |
| `Unservable.NeverOffered` | parser_serve/control/scheduler.py:584-639 | a stage none of whose candidates handles the source is offered to no worker that advertises what is registered |
| `Unservable.WaitingForever` | parser_serve/control/scheduler.py:584-639 | over every run with such tables the stage is never handed out and its task never succeeds |
| `Unservable.UnservablePlan` | parser_serve/persistence/registry.py:85-95 | a concrete plan: routed by category, refused by MIME for every worker that advertises what is registered |
| `Unservable.UnservableRun` | parser_serve/control/router.py:97-140 | a feasible run from the empty control plane that ends in such a stage |
| `Router.RouteKeeps` | parser_serve/control/router.py:53-180 | routing an unrouted pending task gives a valid routed task, and fails only for the documented reasons |
| `Callbacks.StepKeeps` | parser_serve/persistence/callbacks.py:181-544 | publish, materialise, claim, record, resend and retention keep the outbox invariant |
| `Callbacks.RunKeeps` | parser_serve/persistence/callbacks.py:181-544 | the outbox invariant holds throughout every feasible run |
| `Callbacks.RowsKept` | parser_serve/schema/callback.py:141-158 | claim, stale exhaustion, result and resend each keep the row invariant of a delivery |
| `Callbacks.MaterializeKeeps` | parser_serve/persistence/callbacks.py:181-250 | materialising marks exactly the selected events, adds pending deliveries for selected events only, and creates no source event |
| `CallbackLaws.CallbackOfEvent` | parser_serve/persistence/callbacks.py:96-170 | each selected event makes the callback of its own kind and no other, exactly for a subscribed task, and for a failure exactly while the task has an error |
| `CallbackLaws.AddedRows` | parser_serve/persistence/callbacks.py:229-247 | every added delivery is pending, unattempted, dated now, and belongs to the task of its event |
| `CallbackRuns.MaterializeExact` | parser_serve/persistence/callbacks.py:212-247 | a selected event has a delivery of a kind exactly when it maps to that kind |
| `CallbackLaws.DueIff` | parser_serve/persistence/callbacks.py:384-432 | a delivery is due exactly when it is pending, its retry time has come, or it was claimed a claim timeout ago with attempts left; it is given up exactly when so claimed with none left |
| `CallbackLaws.AtLeastOnce` | parser_serve/persistence/callbacks.py:376-442 | in every reachable outbox every pending, waiting or claimed delivery has a time from which on a claim takes it again or gives it up |
| `CallbackLaws.ClaimRows` | parser_serve/persistence/callbacks.py:395-440 | the rows that a claim and a given-up claim leave |
| `CallbackLaws.ResultLaw` | parser_serve/persistence/callbacks.py:491-511 | under the current sequence: succeeded iff delivered, waiting for its retry time iff retryable with attempts left, failed otherwise, with code and summary stored; under any other sequence nothing moves |
| `CallbackLaws.SuccessBacked` | parser_serve/persistence/callbacks.py:454-514 | over every run a delivery is succeeded only on a delivered attempt of its current sequence, and after one only a resend reopens it |
| `CallbackLaws.RetryDelayRecurrence` | parser_serve/persistence/callbacks.py:498-502 | retry delays start at the initial one and double from attempt to attempt up to the maximum |
| `CallbackLaws.ResendIff` | parser_serve/persistence/callbacks.py:516-544 | a resend is refused exactly for an open delivery; a finished one starts afresh under its old sequence |
| `CallbackLaws.DeletedWasOld` | parser_serve/control/retention.py:227-251 | what retention deletes is older than the retention time, and is handled or no source of callbacks |
| `CallbackLaws.PublishMeans` | parser_serve/persistence/callbacks.py:546-560 | a published event is stored under the next identifier, not yet handled, and nothing else changes |
| `CallbackRuns.ClaimBudget` | parser_serve/persistence/callbacks.py:407-442 | between manual resends the claims of a delivery are exactly its gain in attempts, at most its maximum |
| `CallbackRuns.ClaimsIncrease` | parser_serve/persistence/callbacks.py:435-440 | claims of one delivery get strictly increasing sequences, resent or not |
| `CallbackRuns.AttemptsUnique` | parser_serve/persistence/models.py:538-544 | in every reachable state attempt rows are unique by delivery and sequence, and no outstanding claim can break that |
| `CallbackRuns.ResultFenced` | parser_serve/persistence/callbacks.py:491-511 | over every run, once a newer claim of the delivery exists, the result of an older one changes no delivery, whenever it arrives |
| `CallbackRuns.ResendSafeIff` | parser_serve/persistence/callbacks.py:516-544 | in every reachable outbox, a resent delivery waits for its own claim whatever else happens if and only if the attempt of its latest claim is already stored |
| `CallbackRuns.RunAccounted` | parser_serve/persistence/callbacks.py:407-511 | over every run the latest claim of a delivery is either out with a dispatcher or on record |
| `CallbackRuns.ResendConsumedIff` | parser_serve/persistence/callbacks.py:516-544 | the same over the rest of a run: a pending delivery that nobody claims or resends stays pending if and only if no result with its current sequence arrives |
| `CallbackRuns.LateResultRun` | parser_serve/persistence/callbacks.py:491-511 | a feasible run from the empty outbox in which a late result uses up a resend |
| `CallbackRuns.ValidIffClockCaughtUp` | parser_serve/schema/callback.py:141-158 | over every run, a delivery made in it meets the public validator if and only if the last act that wrote its row had a clock not behind its creation |
| `CallbackRuns.StaleClockRun` | parser_serve/control/callbacks.py:277-305 | a feasible run, materialised at 10 and claimed at 5, that ends in a row the validator refuses |
| `CallbackRuns.DeliveriesValid` | parser_serve/schema/callback.py:141-158 | with a clock that does not run backwards every reachable delivery meets the public validator |
| `CallbackRuns.ClaimedOncePerPass` | parser_serve/control/callbacks.py:300-387 | two claims of one delivery at the same dispatcher time have a resend, or an action with an older clock, in between |
| `CallbackRuns.NeverLost` | parser_serve/control/retention.py:227-251 | a source event that was waiting is still waiting or was marked processed before anything could delete it |
| `CallbackRuns.OneDeliveryPerEvent` | parser_serve/persistence/callbacks.py:190-204 | over any run from the empty outbox an event has at most one delivery, and was marked processed by then, whether or not it has been deleted since |
| `CallbackRuns.NoNewSources` | parser_serve/persistence/callbacks.py:546-560 | only publishing creates source events |
| `CallbackRuns.FailureDeliveredIff` | parser_serve/persistence/callbacks.py:142-150 | materialising delivers a subscribed failure event exactly while its task still stands failed, and the event is never selected again |
| `CallbackRuns.FailureLostForever` | parser_serve/persistence/callbacks.py:190-250 | a failure event materialised after its task left the failed state has no delivery at any later point of any run |
| `CallbackRuns.RetryLosesFailure` | parser_serve/persistence/tasks.py:466-472 | the same failure event is delivered if materialised before a manual retry and is left without a delivery if after |
| `LostFailure.LostFailureRun` | parser_serve/persistence/tasks.py:452-498 | a run of control plane and outbox together, from empty, with the published events equal to the log: lease, start, failing completion, manual retry, materialise, after which no continuation delivers the failure |
| `CallbackService.CallbackStore.Materialize` | parser_serve/persistence/callbacks.py:181-250 | the loop with its task cache computes the specified outbox and returns the new deliveries |
| `CallbackService.CallbackStore.ClaimNext` | parser_serve/persistence/callbacks.py:376-442 | returns none exactly when every delivery is finished, waits for its time, was claimed less than a claim timeout ago or is out of attempts; otherwise claims the oldest due one; gives up the oldest stale last attempt, and none exactly when there is none |
| `CallbackService.CallbackStore.Oldest` | parser_serve/persistence/callbacks.py:400-432 | the first row by creation time and identifier |
| `CallbackService.CallbackStore.Record` | parser_serve/persistence/callbacks.py:454-514 | stores the attempt; under the current sequence the delivery is succeeded, waiting or failed as the response says, under any other it stays |
| `CallbackService.CallbackStore.Retry` | parser_serve/persistence/callbacks.py:516-544 | reopens a finished delivery, refuses an open one, ignores an unknown one |
| `CallbackService.CallbackStore.DeleteExpired` | parser_serve/control/retention.py:154-155 | deletes exactly the selected events and never an unprocessed source event |
| `CallbackService.CallbackStore.RunOnce` | parser_serve/control/callbacks.py:276-387 | one pass claims no delivery twice, stores exactly one attempt per claim and counts them, an attempt being delivered exactly when the task is still configured and the transport delivered; it leaves no claim open and stops early only when nothing is due |
| `CallbackService.CallbackStore.Attend` | parser_serve/control/callbacks.py:301-386 | one turn of the batch: claim, deliver, record, after which the delivery rests |
| `Dashboard.PercentileLinear` | parser_serve/control/dashboard.py:58-67 | the percentile at k of n - 1 parts is the kth value in order, and in between it is linear |
| `Dashboard.PercentileBounds` | parser_serve/control/dashboard.py:58-67 | a percentile lies between the least and the greatest value, which are reached at 0 and 1 |
| `Dashboard.PercentileMonotone` | parser_serve/control/dashboard.py:58-67 | percentiles rise with the percentage |
| `Dashboard.AtMonotone` | parser_serve/control/dashboard.py:62-67 | interpolation in a sorted list is monotone in the position |
| `Dashboard.TaskSummary` | parser_serve/control/dashboard.py:195-223 | the status groups partition the tasks, the success rate is a proportion, the averages and the percentiles are those of the durations, and p50, p95 and p99 are in order |
| `Dashboard.AverageExact` | parser_serve/control/dashboard.py:54-55 | the average times the number of values is their sum |
| `Dashboard.AverageBounds` | parser_serve/control/dashboard.py:54-55 | an average lies between any bounds of its values |
| `Dashboard.DurationsExact` | parser_serve/control/dashboard.py:48-51 | execution and waiting times are those of exactly the tasks that have them, in milliseconds and never negative |
| `Dashboard.CountStatusExact` | parser_serve/control/dashboard.py:196-196 | a status count is the number of tasks in that status |
| `Dashboard.BucketHolds` | parser_serve/control/dashboard.py:79-81 | a bucket holds the times from its timestamp up to the next; earlier times fall into the first |
| `Dashboard.BucketsCover` | parser_serve/control/dashboard.py:384-388 | the buckets reach the end of the window and the last begins before it |
| `Dashboard.BucketInRange` | parser_serve/control/dashboard.py:79-81 | every time before the end of the window has its bucket in the list |
| `Dashboard.SeriesConserves` | parser_serve/control/dashboard.py:378-420 | the points of a series add up to the number of times counted |
| `Dashboard.TallyExact` | parser_serve/control/dashboard.py:392-406 | a point counts the times that fall into its bucket |
| `Dashboard.EndedExact` | parser_serve/control/dashboard.py:394-406 | the succeeded and failed series count each task that ended that way before the end of the window once |
| `Dashboard.TaskSeries` | parser_serve/control/dashboard.py:378-420 | each point counts its bucket; the submitted series sums to the tasks, the succeeded and failed series to the matching tasks completed before the end |
| `Paging.ListingLaw` | parser_serve/persistence/events.py:57-109 | the plain query lists exactly the rows that pass every filter given, by the field and in the direction asked for, ties by identifier |
| `Paging.PageLength` | parser_serve/persistence/events.py:98-104 | a page is no longer than its limit and shorter only when nothing is left |
| `Paging.UnknownCursor` | parser_serve/persistence/events.py:72-75 | a cursor that names no row lists nothing |
| `Paging.SortedExactly` | parser_serve/persistence/events.py:57-71 | the plain query lists exactly the matching rows in strict order |
| `Paging.CursorContinues` | parser_serve/persistence/events.py:72-109 | listing after a listed row, with any limit, continues the plain query right behind it, in both directions and for both sort fields |
| `Paging.ReadPages` | parser_serve/persistence/events.py:50-109 | reading page after page with any limit of at least one concatenates to exactly the plain sorted query |
| `Paging.NoDuplicates` | parser_serve/persistence/events.py:104-109 | no row is listed twice |

## Left out

- HTTP routes, the MCP server, SDK clients, the web UI, wake-up queues, storage backends and the parsers themselves: no hard state.
- SQL, sessions and row locks: a query result is a parameter of the action; interleavings inside one method are not modelled.
- Stage identifiers: a stage is named by its task and position, and the stages of a task are kept in position order, which the ORM relationship does not promise; the first failed and the last result are those of that order.
- Cryptography and randomness: digests are injective, tokens and identifiers are fresh numbers.
- Fields that nothing modelled reads: `backend_version`, stage timeouts and parameters, trace contexts, client references, callback URLs and secrets.
- `source_metadata` lookup for uploaded files and URLs: the metadata comes with the create request.
- `_select_pipeline`: the chosen pipeline is a parameter constrained by its filter; its ordering by priority and version is not modelled, nor are unpublished test pipelines.
- `WorkerRepository` registration, heartbeat and update: one environment action that may replace a worker row by any valid one.
- `PipelineRepository.publish`, backend and pipeline management: environment actions that may replace the tables by any valid ones.
- `RetentionService` on uploads and artifacts, with the clearing of `result_uri` on task and stage rows: only the event part is modelled.
- `CallbackTransport`: the answer to an attempt is a parameter.
- The rollback of a whole materialise call after a uniqueness conflict with a concurrent one: materialising is one atomic step.
- Dashboard worker, storage, callback, backend and runtime summaries: plain sums.
- Live tailing of events while new ones arrive: only a fixed table is paged.
- Floating-point rounding: scores, progress, delays and percentiles are exact reals.
- `events.py` event types: numbered in their own order, since only equality and order are used.

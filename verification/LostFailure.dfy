/**
 A run of the control plane and the outbox together: a stage fails, the task is retried by
 hand before the failure event is materialised, and the failure callback is lost.
 */
module LostFailure {
  import opened Common
  import opened TaskState
  import opened Records
  import opened Lifecycle
  import opened TaskInvariant
  import opened Protocol
  import opened SystemInvariant
  import opened Fencing
  import opened Operations
  import opened Leases
  import opened Scenes
  import opened BlockedPass
  import Callbacks
  import CallbackRuns

  const FAILURE := StatusEvent(0, TaskStatus.Running, TaskStatus.Failed)

  function Failing(token: Token): CompleteRequest {
    CompleteRequest(0, token, false, None, None)
  }

  // ---------- the scheduler's side ----------

  /** The task is running one stage, which the worker holds on its only attempt. */
  ghost predicate Running(s: Store, l: Lease) {
    && l.stage == STAGES[0] && HasStage(s, l.stage) && StageAt(s, l.stage).status.Running?
    && s.tasks[0].status.Running? && Exhaustible(StageAt(s, l.stage)) && HoldsLease(s, l.stage, 0, l.token, 0.0)
  }

  ghost predicate Exhaustible(s: Stage) {
    s.attempt == s.spec.maximumAttempts && !s.spec.optional
  }

  lemma StartedStep(s: Store, l: Lease)
    requires Inv(s) && s.clock == 0.0 && l.stage == STAGES[0] && Describes(s, l, 0) && OnLastAttempt(s, STAGES[0])
    requires l.expiresAt == LeaseExpiry(s, 0.0)
    ensures Running(StepStart(s, l.stage, 0, l.token, 0.0).store, l)
    ensures StepStart(s, l.stage, 0, l.token, 0.0).store.clock == 0.0
  {
    LeaseLasts(s);
    hide Inv;
    StartIff(s, l.stage, 0, l.token, 0.0);
    StartedRow(s, l.stage, l.token);
  }

  lemma LeaseLasts(s: Store)
    requires Inv(s)
    ensures 0.0 < LeaseExpiry(s, 0.0)
  {
  }

  lemma StartedRow(s: Store, r: StageRef, token: Token)
    requires HasStage(s, r)
    ensures var done := StepStart(s, r, 0, token, 0.0);
      && done.store.clock == 0.0
      && (done.reply.Execution? ==>
            && HasStage(done.store, r) && StageAt(done.store, r).spec == StageAt(s, r).spec
            && StageAt(done.store, r).attempt == StageAt(s, r).attempt)
  {
  }

  /** A failing completion of the last attempt fails the task and publishes the change. */
  lemma FailedStep(s: Store, l: Lease)
    requires Inv(s) && s.clock == 0.0 && Running(s, l)
    ensures var n := StepComplete(s, l.stage, Failing(l.token), 0.0).store;
      && 0 in n.tasks && n.tasks[0].status.Failed? && n.clock == 0.0 && n.log == s.log + [FAILURE]
  {
    hide Inv, CompleteStage, TaskInv, StageInv;
    StageHolds(s, l.stage);
    HolderCanComplete(s, l.stage, Failing(l.token), 0.0);
    CompletionOutcome(s.tasks[0], l.stage.position, Failing(l.token), s.clock, 0.0);
    hide Idle;
  }

  lemma RetriedStep(s: Store)
    requires Inv(s) && s.clock == 0.0 && 0 in s.tasks && s.tasks[0].status.Failed?
    ensures var n := StepRetry(s, 0, 0.0).store;
      && 0 in n.tasks && n.tasks[0].status.Pending? && s.log <= n.log
  {
    hide Inv;
    RetryIff(s, 0, 0.0);
    RetriedLog(s);
  }

  lemma RetriedLog(s: Store)
    ensures s.log <= StepRetry(s, 0, 0.0).store.log
  {
    hide RetryTask;
  }

  /** From the empty control plane: the failure is published, and the task is pending again. */
  lemma RetriedRun(s: Store) returns (actions: seq<Action>, k: nat)
    requires Initial(s) && s.clock == 0.0
    ensures Feasible(s, actions) && |actions| == 9 && actions[7].Complete? && actions[8] == Retry(0, 0.0)
    ensures var n := Run(s, actions);
      Inv(n) && 0 in n.tasks && n.tasks[0].status.Pending? && k < |n.log| && n.log[k] == FAILURE
  {
    hide Run, Feasible, Inv, OnLastAttempt, Describes, Running, StepStart, StepComplete, StepRetry;
    InitialInv(s);
    var leases := LeasedRun(s);
    var l := leases[0];
    var start, fail, retry := Start(l.stage, 0, l.token, 0.0), Complete(l.stage, Failing(l.token), 0.0), Retry(0, 0.0);
    StartedStep(Run(s, Leasing()), l);
    Longer(s, Leasing(), start);
    var started := Leasing() + [start];
    RunKeeps(s, started);
    FailedStep(Run(s, started), l);
    Longer(s, started, fail);
    var failed := started + [fail];
    k := |Run(s, started).log|;
    RunKeeps(s, failed);
    RetriedStep(Run(s, failed));
    Longer(s, failed, retry);
    actions := failed + [retry];
    RunKeeps(s, actions);
  }

  // ---------- the outbox's side ----------

  /** The published status events, in order. */
  function Published(log: seq<StatusEvent>): seq<Callbacks.Act> {
    seq(|log|, i requires 0 <= i < |log| =>
      Callbacks.PublishEvent(Callbacks.StatusChanged(log[i].current), Some(log[i].task), 0.0))
  }

  /** The outbox holds exactly the published events, none of them handled. */
  ghost predicate Holds(o: Callbacks.Outbox, log: seq<StatusEvent>) {
    && o.nextEvent == |log| && o.deliveries == map[] && (forall e :: e in o.events <==> 0 <= e < |log|)
    && (forall e :: 0 <= e < |log| ==>
          o.events[e] == Callbacks.Event(Callbacks.StatusChanged(log[e].current), Some(log[e].task), false, 0.0))
  }

  lemma {:induction false} PublishedRun(c: Callbacks.Settings, log: seq<StatusEvent>)
    ensures Callbacks.Feasible(c, CallbackRuns.EMPTY_OUTBOX, Published(log))
    ensures Holds(Callbacks.Run(c, CallbackRuns.EMPTY_OUTBOX, Published(log)), log)
  {
    if log == [] {
      CallbackRuns.EmptyFeasible(c);
      assert Published(log) == [];
    } else {
      var n := |log| - 1;
      PublishedRun(c, log[..n]);
      var last := Callbacks.PublishEvent(Callbacks.StatusChanged(log[n].current), Some(log[n].task), 0.0);
      assert Published(log) == Published(log[..n]) + [last];
      CallbackRuns.Longer(c, CallbackRuns.EMPTY_OUTBOX, Published(log[..n]), last);
    }
  }

  lemma Selectable(o: Callbacks.Outbox, log: seq<StatusEvent>, k: nat, tasks: map<TaskId, Callbacks.Subscription>)
    requires Holds(o, log) && k < |log| && log[k] == FAILURE
    requires 0 in tasks && tasks[0].events == Some({Callbacks.FailedCallback})
    ensures Callbacks.Materializable(o, k) && CallbackRuns.FailureEvent(o, k, tasks)
  {
  }

  /**
   From the empty control plane and the empty outbox: the events of the run are published,
   the failure is materialised after the manual retry for a task subscribed to it, and no
   continuation of the run ever delivers it.
   */
  lemma LostFailureRun(s: Store, c: Callbacks.Settings)
    returns (actions: seq<Action>, k: nat, acts: seq<Callbacks.Act>)
    requires Initial(s) && s.clock == 0.0
    ensures Feasible(s, actions)
    ensures var log := Run(s, actions).log;
      && k < |log| && log[k] == FAILURE && |acts| == |log| + 1 && acts[..|log|] == Published(log)
    ensures 0 in Run(s, actions).tasks
    ensures acts[|acts| - 1] == Callbacks.Materialize(
      [k], map[0 := Callbacks.Subscription(Run(s, actions).tasks[0], Some({Callbacks.FailedCallback}))], 1, 0.0)
    ensures Callbacks.Feasible(c, CallbackRuns.EMPTY_OUTBOX, acts)
    ensures forall more :: Callbacks.Feasible(c, CallbackRuns.EMPTY_OUTBOX, acts + more) ==>
      CallbackRuns.Undelivered(Callbacks.Run(c, CallbackRuns.EMPTY_OUTBOX, acts + more), k)
  {
    hide Run, Feasible, Inv, Callbacks.Run, Callbacks.Feasible, Holds, CallbackRuns.Undelivered, TaskInv;
    actions, k := RetriedRun(s);
    var n := Run(s, actions);
    var tasks := map[0 := Callbacks.Subscription(n.tasks[0], Some({Callbacks.FailedCallback}))];
    var start, last := Published(n.log), Callbacks.Materialize([k], tasks, 1, 0.0);
    PublishedRun(c, n.log);
    var o := Callbacks.Run(c, CallbackRuns.EMPTY_OUTBOX, start);
    Selectable(o, n.log, k, tasks);
    CallbackRuns.Longer(c, CallbackRuns.EMPTY_OUTBOX, start, last);
    acts := start + [last];
    TaskHolds(n, 0);
    forall more | Callbacks.Feasible(c, CallbackRuns.EMPTY_OUTBOX, acts + more)
      ensures CallbackRuns.Undelivered(Callbacks.Run(c, CallbackRuns.EMPTY_OUTBOX, acts + more), k)
    {
      var all := acts + more;
      assert all[..|start|] == start && all[|start|] == last && all[..|all|] == all;
      CallbackRuns.EmptyAccounted();
      CallbackRuns.FailureLostForever(c, CallbackRuns.EMPTY_OUTBOX, all, |start|, |all|, k, n.clock);
    }
  }
}

/** How long a recorded completion can be replayed, over whole runs. */
module Replaying {
  import opened Common
  import opened Records
  import opened Lifecycle
  import opened TaskInvariant
  import opened Protocol
  import opened SystemInvariant
  import opened Effects
  import opened Capacity
  import opened Fencing
  import opened Requeue
  import opened Operations
  import opened Liveness
  import opened Leases
  import Idempotency

  /** The completion is the one on record for the stage. */
  ghost predicate OnRecord(s: Store, r: StageRef, request: CompleteRequest) {
    HasStage(s, r) && Replays(StageAt(s, r), request)
  }

  /** The action leases the stage again, cancels it while it is open, or resets it. */
  ghost predicate Forgets(s: Store, a: Action, r: StageRef) {
    HasStage(s, r) &&
    match a
    case AcquireLeases(_, _, _, _) => Step(s, a).reply.Leases? && Handed(Step(s, a).reply.leases, r)
    case Cancel(id, _) => id == r.task && StageAt(s, r).status.Open()
    case Retry(id, _) => id == r.task && (StageAt(s, r).status.Failed? || StageAt(s, r).status.Cancelled?)
    case _ => false
  }

  /** The stage is as it was, or was abandoned, which keeps the record. */
  ghost predicate Spared(s: Store, n: Store, r: StageRef, now: Time) {
    && HasStage(s, r) && HasStage(n, r)
    && (StageAt(n, r) == StageAt(s, r) || StageAt(n, r) == Abandon(StageAt(s, r), now))
  }

  lemma SparedKeeps(s: Store, n: Store, r: StageRef, now: Time, request: CompleteRequest)
    requires Spared(s, n, r, now) && OnRecord(s, r, request)
    ensures OnRecord(n, r, request)
    ensures StageAt(s, r).status.Done() ==> StageAt(n, r) == StageAt(s, r)
  {
  }

  lemma SameRow(s: Store, n: Store, r: StageRef, now: Time)
    requires HasStage(s, r) && r.task in n.tasks && n.tasks[r.task].stages == s.tasks[r.task].stages
    ensures Spared(s, n, r, now)
  {
  }

  /** A stage with a completion on record is held by nobody. */
  lemma RecordedFree(s: Store, r: StageRef, request: CompleteRequest)
    requires Inv(s) && OnRecord(s, r, request)
    ensures HasStage(s, r) && !StageAt(s, r).status.Active() && StageAt(s, r).completionRequest.Some?
  {
    StageHolds(s, r);
  }

  // ---------- the actions ----------

  lemma {:induction false} LoopSpares(
    g: Granting, w: WorkerId, pending: seq<StageRef>, slots: nat, now: Time, q: StageRef)
    requires Inv(g.store) && g.store.clock <= now && Leasable(g.store, pending, now) && HasStage(g.store, q)
    ensures var r := LeaseLoop(g, w, pending, slots, now);
      && r.Success? && HasStage(r.value.store, q) && g.leases <= r.value.leases
      && (StageAt(r.value.store, q) == StageAt(g.store, q) || Handed(r.value.leases, q))
    decreases |pending|
  {
    hide Inv, Offer, Grant, GrantEffect, Leasable;
    if pending != [] && |g.leases| < slots && w in g.store.workers && HasStage(g.store, pending[0]) {
      var p := Offer(g.store, w, pending[0]);
      if p.Some? {
        var n := LeaseTurn(g, w, pending, p.value, now);
        GrantHolds(g.store, n.store, w, pending[0], p.value, now, q, w);
        LoopSpares(n, w, pending[1..], slots, now, q);
        if q == pending[0] {
          assert n.leases[|g.leases|] in n.leases;
          HandedKept(n.leases, LeaseLoop(n, w, pending[1..], slots, now).value.leases, q);
        }
      } else {
        LeasableTail(g.store, pending, now);
        LoopSpares(g, w, pending[1..], slots, now, q);
      }
    }
  }

  lemma LeaseSpares(s: Store, w: WorkerId, requested: nat, pending: seq<StageRef>, now: Time, r: StageRef)
    requires Inv(s) && s.clock <= now && Leasable(s, pending, now) && HasStage(s, r)
    ensures var done := StepLease(s, w, requested, pending, now);
      Spared(s, done.store, r, now) || (done.reply.Leases? && Handed(done.reply.leases, r))
  {
    hide Inv, LeaseLoop, Leasable, StepLease, HeldBy;
    TickKeeps(s, now);
    TickLeasable(s, pending, now);
    LeaseShape(s, w, requested, pending, now);
    if Polls(s, w, requested) {
      LoopSpares(Granting(Tick(s, now), []), w, pending, FreeSlots(s, w, requested), now, r);
    }
  }

  lemma CallSpares(s: Store, q: StageRef, worker: WorkerId, token: Token, percent: real, now: Time, r: StageRef)
    requires Inv(s) && s.clock <= now && HasStage(s, r) && !StageAt(s, r).status.Active()
    ensures Spared(s, StepRenew(s, q, worker, token, now).store, r, now)
    ensures Spared(s, StepStart(s, q, worker, token, now).store, r, now)
    ensures Spared(s, StepProgress(s, q, worker, token, percent, now).store, r, now)
  {
    hide Inv, StepRenew, StepStart, StepProgress;
    RenewIff(s, q, worker, token, now);
    StartIff(s, q, worker, token, now);
    ProgressIff(s, q, worker, token, percent, now);
    SameRow(s, Tick(s, now), r, now);
  }

  lemma SiblingSpared(t: Task, k: nat, i: nat, request: CompleteRequest, clock: Time, now: Time)
    requires TaskInv(t, clock) && clock <= now && k < |t.stages| && i < |t.stages| && k != i
    requires Applies(t.stages[i], request, now)
    ensures var u := CompleteStage(t, i, request, now);
      && u.Success? && |u.value.stages| == |t.stages|
      && (u.value.stages[k] == t.stages[k] || u.value.stages[k] == Abandon(t.stages[k], now))
  {
    CompletionSettles(t.stages[i], request, clock, now);
    var settled := SettledBy(t.stages[i], request, now).value;
    assert CompleteStage(t, i, request, now) == Reconcile(WithStage(t, i, settled), now);
    ReconcileKeeps(t, i, settled, clock, now);
  }

  lemma CompleteSpares(s: Store, q: StageRef, request: CompleteRequest, now: Time, r: StageRef)
    requires Inv(s) && s.clock <= now && HasStage(s, r) && StageAt(s, r).completionRequest.Some?
    ensures Spared(s, StepComplete(s, q, request, now).store, r, now)
  {
    hide Inv, CompleteStage, TaskInv, StageInv, StepComplete;
    MissingComplete(s, q, request, now);
    SameRow(s, Tick(s, now), r, now);
    if HasStage(s, q) {
      TaskHolds(s, q.task);
      Idempotency.ReleaseTasks(s, q, request, now);
      CompleteKeeps(s.tasks[q.task], q.position, request, s.clock, now);
      if q.task == r.task && q != r && Applies(StageAt(s, q), request, now) {
        SiblingSpared(s.tasks[q.task], r.position, q.position, request, s.clock, now);
      }
    }
  }

  lemma MissingComplete(s: Store, q: StageRef, request: CompleteRequest, now: Time)
    ensures !HasStage(s, q) ==> StepComplete(s, q, request, now).store == Tick(s, now)
  {
  }

  lemma RequeueSpares(s: Store, expired: seq<StageRef>, now: Time, r: StageRef)
    requires Inv(s) && s.clock <= now && Expired(s, expired, now) && HasStage(s, r) && !StageAt(s, r).status.Active()
    ensures Spared(s, StepRequeue(s, expired, now).store, r, now)
  {
    hide Inv, StepRequeue, Blocked, DoomedBy, EndsUp;
    PassRaisesIff(s, expired, now);
    SameRow(s, Tick(s, now), r, now);
    if !Blocked(s, expired) {
      PassSettles(s, expired, now);
    }
  }

  lemma OwnerSpares(s: Store, id: TaskId, now: Time, r: StageRef)
    requires HasStage(s, r)
    ensures Forgets(s, Cancel(id, now), r) || Spared(s, StepCancel(s, id, now).store, r, now)
    ensures Forgets(s, Retry(id, now), r) || Spared(s, StepRetry(s, id, now).store, r, now)
  {
  }

  lemma RouteSpares(s: Store, id: TaskId, choice: Option<PipelineRef>, now: Time, r: StageRef)
    requires HasStage(s, r)
    ensures Spared(s, StepRoute(s, id, choice, now).store, r, now)
  {
  }

  lemma CreateSpares(s: Store, id: TaskId, request: CreateRequest, key: Option<Label>, now: Time, r: StageRef)
    requires HasStage(s, r) && id !in s.tasks
    ensures Spared(s, StepCreate(s, id, request, key, now).store, r, now)
  {
    SameRow(s, StepCreate(s, id, request, key, now).store, r, now);
  }

  /** Every action that does not forget the completion leaves it on record. */
  lemma RecordStep(s: Store, a: Action, r: StageRef, request: CompleteRequest)
    requires Inv(s) && Admissible(s, a) && OnRecord(s, r, request) && !Forgets(s, a, r)
    ensures OnRecord(Step(s, a).store, r, request)
    ensures StageAt(s, r).status.Done() ==> StageAt(Step(s, a).store, r) == StageAt(s, r)
  {
    hide Inv, OnRecord, Spared;
    RecordedFree(s, r, request);
    var n := Step(s, a).store;
    match a {
      case Create(id, asked, key, now) => CreateSpares(s, id, asked, key, now, r);
      case Route(id, choice, now) => RouteSpares(s, id, choice, now, r);
      case AcquireLeases(w, slots, pending, now) => LeaseSpares(s, w, slots, pending, now, r);
      case Renew(q, w, token, now) => CallSpares(s, q, w, token, 0.0, now, r);
      case Start(q, w, token, now) => CallSpares(s, q, w, token, 0.0, now, r);
      case Progress(q, w, token, percent, now) => CallSpares(s, q, w, token, percent, now, r);
      case Complete(q, other, now) => CompleteSpares(s, q, other, now, r);
      case RequeueExpired(expired, now) => RequeueSpares(s, expired, now, r);
      case Cancel(id, now) => OwnerSpares(s, id, now, r);
      case Retry(id, now) => OwnerSpares(s, id, now, r);
      case _ => SameRow(s, n, r, a.now);
    }
    SparedKeeps(s, n, r, a.now, request);
  }

  /** A stage that is done is never handed out, cancelled or reset. */
  lemma DoneRemembered(s: Store, a: Action, r: StageRef)
    requires Inv(s) && Admissible(s, a) && HasStage(s, r) && StageAt(s, r).status.Done()
    ensures !Forgets(s, a, r)
  {
    hide Inv, StepLease;
    if a.AcquireLeases? {
      LeasesTrue(s, a.worker, a.slots, a.pending, a.now);
    }
  }

  // ---------- whole runs ----------

  /** The replay is accepted, answers with the present state, and changes no row. */
  ghost predicate Accepted(s: Store, r: StageRef, request: CompleteRequest) {
    HasStage(s, r) && forall now :: AcceptedAt(s, r, request, now)
  }

  ghost predicate AcceptedAt(s: Store, r: StageRef, request: CompleteRequest, now: Time)
    requires HasStage(s, r)
  {
    var done := Step(s, Complete(r, request, now));
    done.store == Tick(s, now) && done.reply == ExecutionData(s.tasks[r.task], r.position)
  }

  lemma RecordAccepted(s: Store, r: StageRef, request: CompleteRequest)
    requires OnRecord(s, r, request)
    ensures Accepted(s, r, request)
  {
    forall now ensures AcceptedAt(s, r, request, now) {
      ReplayIdle(s, r, request, now);
    }
  }

  /** A recorded completion can be replayed until the stage is leased again, cancelled while open, or reset. */
  lemma {:induction false} ReplayUntilForgotten(
    s: Store, actions: seq<Action>, i: nat, j: nat, r: StageRef, request: CompleteRequest)
    requires Inv(s) && Feasible(s, actions) && i <= j <= |actions| && OnRecord(Run(s, actions[..i]), r, request)
    requires forall k :: i <= k < j ==> !Forgets(Run(s, actions[..k]), actions[k], r)
    ensures OnRecord(Run(s, actions[..j]), r, request) && Accepted(Run(s, actions[..j]), r, request)
    decreases j
  {
    hide Inv, Feasible, Admissible, Run, Step, OnRecord, Forgets, Accepted;
    if i < j {
      ReplayUntilForgotten(s, actions, i, j - 1, r, request);
      Midway(s, actions, j - 1);
      RecordStep(Run(s, actions[..j - 1]), actions[j - 1], r, request);
    }
    RecordAccepted(Run(s, actions[..j]), r, request);
  }

  lemma {:induction false} DoneRecordStays(
    s: Store, actions: seq<Action>, i: nat, j: nat, r: StageRef, request: CompleteRequest)
    requires Inv(s) && Feasible(s, actions) && i <= j <= |actions| && OnRecord(Run(s, actions[..i]), r, request)
    requires HasStage(Run(s, actions[..i]), r) && StageAt(Run(s, actions[..i]), r).status.Done()
    ensures OnRecord(Run(s, actions[..j]), r, request) && HasStage(Run(s, actions[..j]), r)
    ensures StageAt(Run(s, actions[..j]), r) == StageAt(Run(s, actions[..i]), r)
    decreases j
  {
    hide Inv, Feasible, Admissible, Run, Step, OnRecord, Forgets;
    if i < j {
      DoneRecordStays(s, actions, i, j - 1, r, request);
      Midway(s, actions, j - 1);
      DoneRemembered(Run(s, actions[..j - 1]), actions[j - 1], r);
      RecordStep(Run(s, actions[..j - 1]), actions[j - 1], r, request);
      RecordedHas(Run(s, actions[..j]), r, request);
    }
  }

  lemma RecordedHas(s: Store, r: StageRef, request: CompleteRequest)
    requires OnRecord(s, r, request)
    ensures HasStage(s, r)
  {
  }

  lemma SuccessRecorded(s: Store, a: Action)
    requires Inv(s) && Admissible(s, a) && Effective(s, a) && a.completion.succeeded
    ensures OnRecord(Step(s, a).store, a.stage, a.completion)
    ensures HasStage(Step(s, a).store, a.stage) && StageAt(Step(s, a).store, a.stage).status.Done()
  {
    hide Inv, TaskInv, CompleteStage, Step;
    CompletionSpends(s, a);
    TaskHolds(s, a.stage.task);
    CompletionOutcome(s.tasks[a.stage.task], a.stage.position, a.completion, s.clock, a.now);
    CompletedRow(s, a);
  }

  lemma CompletedRow(s: Store, a: Action)
    requires Effective(s, a) && CompleteStage(s.tasks[a.stage.task], a.stage.position, a.completion, a.now).Success?
    ensures var u := CompleteStage(s.tasks[a.stage.task], a.stage.position, a.completion, a.now).value;
      a.stage.task in Step(s, a).store.tasks && Step(s, a).store.tasks[a.stage.task] == u
  {
    hide CompleteStage;
    Idempotency.ReleaseTasks(s, a.stage, a.completion, a.now);
  }

  /** A successful completion can be replayed at any later point of the run. */
  lemma SuccessReplaysForever(s: Store, actions: seq<Action>, i: nat, j: nat)
    requires Inv(s) && Feasible(s, actions) && i < j <= |actions|
    requires Effective(Run(s, actions[..i]), actions[i]) && actions[i].completion.succeeded
    ensures Accepted(Run(s, actions[..j]), actions[i].stage, actions[i].completion)
  {
    hide Inv, Feasible, Run, Step, OnRecord, Accepted;
    Midway(s, actions, i);
    SuccessRecorded(Run(s, actions[..i]), actions[i]);
    DoneRecordStays(s, actions, i + 1, j, actions[i].stage, actions[i].completion);
    RecordAccepted(Run(s, actions[..j]), actions[i].stage, actions[i].completion);
  }
}

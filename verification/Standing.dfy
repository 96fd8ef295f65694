/**
 A lease stands: over every run, until it expires, only its own completion or the end of
 its task can take it from the worker, and the worker can start and complete its stage.
 */
module Standing {
  import opened Common
  import opened Records
  import opened Lifecycle
  import opened TaskInvariant
  import opened Protocol
  import opened SystemInvariant
  import opened Effects
  import opened Fencing
  import opened Requeue
  import opened Capacity
  import opened Operations
  import opened Leases
  import Idempotency
  import Router

  /** The stage is held under the lease, at least as long as the lease said. */
  ghost predicate HeldUnder(s: Stage, l: Lease, w: WorkerId) {
    && s.status.Active() && s.worker == Some(w) && s.token == Some(LeaseDigest(l.token))
    && s.expiresAt.Some? && l.expiresAt <= s.expiresAt.value
  }

  ghost predicate Stands(s: Store, l: Lease, w: WorkerId) {
    HasStage(s, l.stage) && HeldUnder(StageAt(s, l.stage), l, w)
  }

  /** The task of the lease has ended. */
  ghost predicate Over(s: Store, l: Lease) {
    l.stage.task in s.tasks && s.tasks[l.stage.task].status.Terminal()
  }

  /** The lease promises no more than a lease handed out now would. */
  ghost predicate Timely(s: Store, l: Lease) {
    l.expiresAt <= LeaseExpiry(s, s.clock)
  }

  /** This action is the completion of the lease, taking effect. */
  ghost predicate Completes(s: Store, a: Action, l: Lease) {
    Effective(s, a) && a.completion.token == l.token
  }

  lemma SameStage(s: Store, n: Store, l: Lease, w: WorkerId)
    requires Stands(s, l, w) && l.stage.task in n.tasks && n.tasks[l.stage.task].stages == s.tasks[l.stage.task].stages
    ensures Stands(n, l, w)
  {
  }

  // ---------- the holder's own calls ----------

  lemma CallRows(
    t: Task, k: nat, i: nat, worker: WorkerId, token: Token, percent: real, expiresAt: Time, now: Time,
    l: Lease, w: WorkerId)
    requires k < |t.stages| && i < |t.stages| && HeldUnder(t.stages[k], l, w) && l.expiresAt <= expiresAt
    ensures var u := RenewStage(t, i, worker, token, expiresAt, now);
      u.Success? ==> |u.value.stages| == |t.stages| && HeldUnder(u.value.stages[k], l, w)
    ensures var u := StartStage(t, i, worker, token, now);
      u.Success? ==> |u.value.stages| == |t.stages| && HeldUnder(u.value.stages[k], l, w)
    ensures var u := ReportProgress(t, i, worker, token, percent, now);
      u.Success? ==> |u.value.stages| == |t.stages| && HeldUnder(u.value.stages[k], l, w)
  {
  }

  lemma CommitStands(s: Store, id: TaskId, u: Result<Task>, reply: Reply, now: Time, l: Lease, w: WorkerId)
    requires id in s.tasks && Stands(s, l, w)
    requires u.Success? && id == l.stage.task ==>
      l.stage.position < |u.value.stages| && HeldUnder(u.value.stages[l.stage.position], l, w)
    ensures Stands(Commit(s, id, u, reply, now).store, l, w)
  {
  }

  lemma CallStands(
    s: Store, r: StageRef, worker: WorkerId, token: Token, percent: real, now: Time, l: Lease, w: WorkerId)
    requires Stands(s, l, w) && l.expiresAt <= LeaseExpiry(s, now)
    ensures Stands(StepRenew(s, r, worker, token, now).store, l, w)
    ensures Stands(StepStart(s, r, worker, token, now).store, l, w)
    ensures Stands(StepProgress(s, r, worker, token, percent, now).store, l, w)
  {
    hide RenewStage, StartStage, ReportProgress, Commit;
    SameStage(s, Tick(s, now), l, w);
    if HasStage(s, r) {
      var t, i, expiresAt := s.tasks[r.task], r.position, LeaseExpiry(s, now);
      if r.task == l.stage.task {
        CallRows(t, l.stage.position, i, worker, token, percent, expiresAt, now, l, w);
      }
      var renewed := RenewStage(t, i, worker, token, expiresAt, now);
      var started := StartStage(t, i, worker, token, now);
      var reported := ReportProgress(t, i, worker, token, percent, now);
      CommitStands(s, r.task, renewed, Renewal(expiresAt), now, l, w);
      CommitStands(s, r.task, started, Report(started, i), now, l, w);
      CommitStands(s, r.task, reported, Report(reported, i), now, l, w);
    }
  }

  // ---------- completions ----------

  /** What a completion does to the task row: nothing, or a settled stage and a reconciled task. */
  lemma CompleteRows(s: Store, r: StageRef, request: CompleteRequest, now: Time)
    requires Inv(s) && s.clock <= now && HasStage(s, r)
    ensures var n := StepComplete(s, r, request, now).store;
      && n.tasks.Keys == s.tasks.Keys
      && (forall x :: x in s.tasks && x != r.task ==> n.tasks[x] == s.tasks[x])
      && (!Applies(StageAt(s, r), request, now) ==> n.tasks == s.tasks)
      && (Applies(StageAt(s, r), request, now) ==>
            CompleteStage(s.tasks[r.task], r.position, request, now) == Success(n.tasks[r.task]))
  {
    hide Inv, CompleteStage, TaskInv, StageInv, StepComplete;
    StageHolds(s, r);
    CompleteKeeps(s.tasks[r.task], r.position, request, s.clock, now);
    Idempotency.ReleaseTasks(s, r, request, now);
  }

  lemma SiblingRow(t: Task, k: nat, i: nat, request: CompleteRequest, clock: Time, now: Time)
    requires TaskInv(t, clock) && clock <= now && k < |t.stages| && i < |t.stages| && k != i
    requires Applies(t.stages[i], request, now)
    ensures var u := CompleteStage(t, i, request, now);
      u.Success? && |u.value.stages| == |t.stages| && (u.value.stages[k] == t.stages[k] || u.value.status.Failed?)
  {
    CompletionSettles(t.stages[i], request, clock, now);
    var settled := SettledBy(t.stages[i], request, now).value;
    assert CompleteStage(t, i, request, now) == Reconcile(WithStage(t, i, settled), now);
    ReconcileKeeps(t, i, settled, clock, now);
  }

  lemma CompleteStands(s: Store, r: StageRef, request: CompleteRequest, now: Time, l: Lease, w: WorkerId)
    requires Inv(s) && s.clock <= now && Stands(s, l, w) && !Completes(s, Complete(r, request, now), l)
    ensures var n := StepComplete(s, r, request, now).store; Stands(n, l, w) || Over(n, l)
  {
    hide Inv, CompleteStage, TaskInv, StageInv;
    if HasStage(s, r) {
      CompleteRows(s, r, request, now);
      var n := StepComplete(s, r, request, now).store;
      hide StepComplete;
      if r.task == l.stage.task && Applies(StageAt(s, r), request, now) {
        assert r.position != l.stage.position;
        TaskHolds(s, r.task);
        SiblingRow(s.tasks[r.task], l.stage.position, r.position, request, s.clock, now);
      } else {
        SameStage(s, n, l, w);
      }
    } else {
      SameStage(s, Tick(s, now), l, w);
    }
  }

  // ---------- the requeue pass ----------

  lemma FailedStageEnds(t: Task, i: nat, clock: Time)
    requires TaskInv(t, clock) && i < |t.stages| && t.stages[i].status.Failed?
    ensures t.status.Terminal()
  {
  }

  lemma ExhaustedFails(s: Stage, now: Time)
    requires s.status.Active() && Exhausted(s)
    ensures Requeue.Swept(s, now).status.Failed? && Abandon(Requeue.Swept(s, now), now).status.Failed?
  {
  }

  lemma DoomedOver(s: Store, n: Store, expired: seq<StageRef>, l: Lease, now: Time)
    requires Inv(n) && AllHeld(s, expired) && DoomedBy(s, expired, l.stage.task, l.stage.position)
    requires forall p :: p in expired ==> EndsUp(s, n, expired, p, now)
    ensures Over(n, l)
  {
    hide Inv, EndsUp;
    var q :| q in expired && q.task == l.stage.task && q.position != l.stage.position && ExhaustedAt(s, q);
    ExhaustedFails(StageAt(s, q), now);
    EndedAs(s, n, expired, q, now);
    TaskHolds(n, q.task);
    FailedStageEnds(n.tasks[q.task], q.position, n.clock);
  }

  lemma EndedAs(s: Store, n: Store, expired: seq<StageRef>, q: StageRef, now: Time)
    requires EndsUp(s, n, expired, q, now)
    ensures HasStage(s, q) && HasStage(n, q)
    ensures var swept := Requeue.Swept(StageAt(s, q), now);
      StageAt(n, q) == swept || StageAt(n, q) == Abandon(swept, now)
  {
  }

  lemma LeftAs(s: Store, n: Store, expired: seq<StageRef>, p: StageRef, now: Time)
    requires Left(s, n, expired, p, now)
    ensures HasStage(s, p) && HasStage(n, p)
    ensures !DoomedBy(s, expired, p.task, p.position) ==> StageAt(n, p) == StageAt(s, p)
  {
  }

  lemma ExpiredHeld(s: Store, expired: seq<StageRef>, now: Time, l: Lease, w: WorkerId)
    requires Expired(s, expired, now) && Stands(s, l, w) && now < l.expiresAt
    ensures AllHeld(s, expired) && l.stage !in expired
  {
  }

  lemma RequeueStands(s: Store, expired: seq<StageRef>, now: Time, l: Lease, w: WorkerId)
    requires Inv(s) && s.clock <= now < l.expiresAt && Expired(s, expired, now) && Stands(s, l, w)
    ensures var n := StepRequeue(s, expired, now).store; Stands(n, l, w) || Over(n, l)
  {
    hide Inv, StepRequeue, Expired, Blocked, DoomedBy, EndsUp, Left;
    PassRaisesIff(s, expired, now);
    ExpiredHeld(s, expired, now, l, w);
    if Blocked(s, expired) {
      SameStage(s, Tick(s, now), l, w);
    } else {
      PassSettles(s, expired, now);
      var n := StepRequeue(s, expired, now).store;
      LeftAs(s, n, expired, l.stage, now);
      if DoomedBy(s, expired, l.stage.task, l.stage.position) {
        DoomedOver(s, n, expired, l, now);
      }
    }
  }

  // ---------- leasing and routing ----------

  lemma {:induction false} LoopLeavesHeld(
    g: Granting, w: WorkerId, pending: seq<StageRef>, slots: nat, now: Time, q: StageRef)
    requires Inv(g.store) && g.store.clock <= now && Leasable(g.store, pending, now)
    requires HasStage(g.store, q) && StageAt(g.store, q).status.Active()
    ensures var r := LeaseLoop(g, w, pending, slots, now);
      r.Success? && HasStage(r.value.store, q) && StageAt(r.value.store, q) == StageAt(g.store, q)
    decreases |pending|
  {
    hide Inv, Offer, Grant, GrantEffect;
    if pending != [] && |g.leases| < slots && w in g.store.workers && HasStage(g.store, pending[0]) {
      assert pending[0] in pending;
      var p := Offer(g.store, w, pending[0]);
      if p.Some? {
        var n := LeaseTurn(g, w, pending, p.value, now);
        GrantHolds(g.store, n.store, w, pending[0], p.value, now, q, w);
        LoopLeavesHeld(n, w, pending[1..], slots, now, q);
      } else {
        LeasableTail(g.store, pending, now);
        LoopLeavesHeld(g, w, pending[1..], slots, now, q);
      }
    }
  }

  lemma LeaseStands(s: Store, v: WorkerId, requested: nat, pending: seq<StageRef>, now: Time, l: Lease, w: WorkerId)
    requires Inv(s) && s.clock <= now && Leasable(s, pending, now) && Stands(s, l, w)
    ensures Stands(StepLease(s, v, requested, pending, now).store, l, w)
  {
    hide Inv, LeaseLoop, Leasable, StepLease, HeldBy;
    TickKeeps(s, now);
    TickLeasable(s, pending, now);
    LeaseShape(s, v, requested, pending, now);
    if Polls(s, v, requested) {
      LoopLeavesHeld(Granting(Tick(s, now), []), v, pending, FreeSlots(s, v, requested), now, l.stage);
    }
  }

  lemma OpenTask(s: Store, l: Lease, w: WorkerId)
    requires Inv(s) && Stands(s, l, w)
    ensures s.tasks[l.stage.task].status.Leased? || s.tasks[l.stage.task].status.Running?
  {
    TaskHolds(s, l.stage.task);
    HeldTask(s.tasks[l.stage.task], l.stage.position, s.clock);
  }

  lemma RouteStands(s: Store, id: TaskId, choice: Option<PipelineRef>, now: Time, l: Lease, w: WorkerId)
    requires Stands(s, l, w)
    requires s.tasks[l.stage.task].status.Leased? || s.tasks[l.stage.task].status.Running?
    ensures Stands(StepRoute(s, id, choice, now).store, l, w)
  {
    hide HeldUnder;
    if id in s.tasks {
      RouteStays(s, id, choice, now);
    }
    RoutedHeld(s, id, choice, now, l);
    SameStage(s, StepRoute(s, id, choice, now).store, l, w);
  }

  lemma RoutedHeld(s: Store, id: TaskId, choice: Option<PipelineRef>, now: Time, l: Lease)
    requires l.stage.task in s.tasks && !s.tasks[l.stage.task].status.Pending?
    ensures l.stage.task in StepRoute(s, id, choice, now).store.tasks
    ensures StepRoute(s, id, choice, now).store.tasks[l.stage.task] == s.tasks[l.stage.task]
  {
  }

  lemma OwnerStands(s: Store, id: TaskId, now: Time, l: Lease, w: WorkerId)
    requires Stands(s, l, w)
    requires s.tasks[l.stage.task].status.Leased? || s.tasks[l.stage.task].status.Running?
    ensures var n := StepCancel(s, id, now).store; Stands(n, l, w) || Over(n, l)
    ensures Stands(StepRetry(s, id, now).store, l, w)
  {
    hide CancelAll, ResetAll;
  }

  // ---------- every action ----------

  /** Before it expires, one action leaves the lease standing, completes it, or ends its task. */
  lemma StandsStep(s: Store, a: Action, l: Lease, w: WorkerId)
    requires Inv(s) && Admissible(s, a) && Stands(s, l, w) && Timely(s, l) && a.now < l.expiresAt
    requires !Completes(s, a, l)
    ensures Stands(Step(s, a).store, l, w) || Over(Step(s, a).store, l)
  {
    hide Inv, Stands, Completes, Over;
    OpenTask(s, l, w);
    StandsHas(s, l, w);
    match a
    case Create(id, request, key, now) => CreateStands(s, id, request, key, now, l, w);
    case Route(id, choice, now) => RouteStands(s, id, choice, now, l, w);
    case AcquireLeases(v, slots, pending, now) => LeaseStands(s, v, slots, pending, now, l, w);
    case Renew(r, v, token, now) => CallStands(s, r, v, token, 0.0, now, l, w);
    case Start(r, v, token, now) => CallStands(s, r, v, token, 0.0, now, l, w);
    case Progress(r, v, token, percent, now) => CallStands(s, r, v, token, percent, now, l, w);
    case Complete(r, request, now) => CompleteStands(s, r, request, now, l, w);
    case RequeueExpired(expired, now) => RequeueStands(s, expired, now, l, w);
    case Cancel(id, now) => OwnerStands(s, id, now, l, w);
    case Retry(id, now) => OwnerStands(s, id, now, l, w);
    case _ => SameStage(s, Step(s, a).store, l, w);
  }

  lemma StandsHas(s: Store, l: Lease, w: WorkerId)
    requires Stands(s, l, w)
    ensures HasStage(s, l.stage)
  {
  }

  lemma CreateStands(s: Store, id: TaskId, request: CreateRequest, key: Option<Label>, now: Time, l: Lease, w: WorkerId)
    requires Stands(s, l, w) && id !in s.tasks
    ensures Stands(StepCreate(s, id, request, key, now).store, l, w)
  {
    SameStage(s, StepCreate(s, id, request, key, now).store, l, w);
  }

  // ---------- the clock ----------

  lemma {:induction false} LoopClock(g: Granting, w: WorkerId, pending: seq<StageRef>, slots: nat, now: Time)
    requires g.store.clock == now
    ensures var r := LeaseLoop(g, w, pending, slots, now); r.Success? ==> r.value.store.clock == now
    decreases |pending|
  {
    hide Offer, GrantStage;
    if pending != [] && |g.leases| < slots && w in g.store.workers && HasStage(g.store, pending[0]) {
      var p := Offer(g.store, w, pending[0]);
      if p.Some? {
        var n := Grant(g, w, pending[0], p.value, now);
        if n.Success? {
          LoopClock(n.value, w, pending[1..], slots, now);
        }
      } else {
        LoopClock(g, w, pending[1..], slots, now);
      }
    }
  }

  lemma LeaseClock(s: Store, w: WorkerId, requested: nat, pending: seq<StageRef>, now: Time)
    ensures var n := StepLease(s, w, requested, pending, now).store; n.clock == now && n.config == s.config
  {
    LeaseWorkers(s, w, requested, pending, now);
    hide LeaseLoop, HeldBy;
    if Polls(s, w, requested) {
      LoopClock(Granting(Tick(s, now), []), w, pending, FreeSlots(s, w, requested), now);
    }
  }

  lemma {:induction false} SweepClock(w: Sweep, expired: seq<StageRef>, now: Time)
    requires w.store.clock == now
    ensures var r := RequeueLoop(w, expired, now);
      r.Success? ==> r.value.store.clock == now && r.value.store.config == w.store.config
    decreases |expired|
  {
    hide ExpireStage;
    if expired != [] && HasStage(w.store, expired[0]) {
      var r := expired[0];
      var u := ExpireStage(w.store.tasks[r.task], r.position, now);
      if u.Success? {
        SweepClock(
          Sweep(PutTask(w.store, r.task, u.value, now), w.affected + WorkerOf(StageAt(w.store, r))), expired[1..], now);
      }
    }
  }

  lemma RequeueClock(s: Store, expired: seq<StageRef>, now: Time)
    ensures var n := StepRequeue(s, expired, now).store; n.clock == now && n.config == s.config
  {
    hide RequeueLoop, Idle;
    SweepClock(Sweep(Tick(s, now), {}), expired, now);
  }

  /** The store carries the time of its last action, and its configuration is fixed. */
  lemma StepClock(s: Store, a: Action)
    ensures Step(s, a).store.clock == a.now && Step(s, a).store.config == s.config
  {
    match a
    case AcquireLeases(w, slots, pending, now) => LeaseClock(s, w, slots, pending, now);
    case RequeueExpired(expired, now) => RequeueClock(s, expired, now);
    case Route(id, choice, now) => hide Router.RouteTask;
    case Complete(r, request, now) => hide CompleteStage, Idle;
    case Renew(_, _, _, _) => hide RenewStage;
    case Start(_, _, _, _) => hide StartStage;
    case Progress(_, _, _, _, _) => hide ReportProgress;
    case _ =>
  }

  // ---------- whole runs ----------

  /** What may have ended the lease between two points of a run. */
  ghost predicate Ended(s: Store, actions: seq<Action>, i: nat, j: nat, l: Lease) {
    exists k: nat :: i <= k < j && k < |actions| && EndedAt(s, actions, k, l)
  }

  ghost predicate EndedAt(s: Store, actions: seq<Action>, k: nat, l: Lease)
    requires k < |actions|
  {
    Completes(Run(s, actions[..k]), actions[k], l) || Over(Run(s, actions[..k + 1]), l)
  }

  /** Until it expires a lease stands, unless its own completion or the end of its task came first. */
  lemma {:induction false} LeaseStandsOverRuns(s: Store, actions: seq<Action>, i: nat, j: nat, l: Lease, w: WorkerId)
    requires Inv(s) && Feasible(s, actions) && i <= j <= |actions|
    requires Stands(Run(s, actions[..i]), l, w) && Timely(Run(s, actions[..i]), l)
    requires forall k :: i <= k < j ==> actions[k].now < l.expiresAt
    ensures (Stands(Run(s, actions[..j]), l, w) && Timely(Run(s, actions[..j]), l)) || Ended(s, actions, i, j, l)
    decreases j
  {
    hide Inv, Admissible, Feasible, Stands, Over, Completes, Step, Run;
    if i < j {
      LeaseStandsOverRuns(s, actions, i, j - 1, l, w);
      if !Ended(s, actions, i, j, l) {
        assert !EndedAt(s, actions, j - 1, l);
        assert !Ended(s, actions, i, j - 1, l);
        Midway(s, actions, j - 1);
        var m, a := Run(s, actions[..j - 1]), actions[j - 1];
        StandsStep(m, a, l, w);
        StepClock(m, a);
        AdmissibleClock(m, a);
      }
    }
  }

  lemma AdmissibleClock(s: Store, a: Action)
    requires Admissible(s, a)
    ensures s.clock <= a.now
  {
  }

  // ---------- finishing ----------

  lemma LeasedStands(s: Store, l: Lease, w: WorkerId)
    requires Describes(s, l, w)
    ensures Stands(s, l, w)
  {
  }

  lemma StandsHolds(s: Store, l: Lease, w: WorkerId, now: Time)
    requires Stands(s, l, w) && now < l.expiresAt
    ensures HoldsLease(s, l.stage, w, l.token, now)
  {
  }

  /** While the lease stands its token starts a leased stage and completes a running one. */
  lemma StandingWorks(s: Store, l: Lease, request: CompleteRequest, now: Time)
    requires Inv(s) && Stands(s, l, request.worker) && request.token == l.token && s.clock <= now < l.expiresAt
    ensures HasStage(s, l.stage)
    ensures StageAt(s, l.stage).status.Leased? ==> StepStart(s, l.stage, request.worker, l.token, now).reply.Execution?
    ensures StageAt(s, l.stage).status.Running? ==>
      Effective(s, Complete(l.stage, request, now)) && Step(s, Complete(l.stage, request, now)).reply.Execution?
    ensures StageAt(s, l.stage).status.Active()
  {
    hide Inv, StepStart, Step;
    StandsHolds(s, l, request.worker, now);
    StartIff(s, l.stage, request.worker, l.token, now);
    if StageAt(s, l.stage).status.Running? {
      HolderCanComplete(s, l.stage, request, now);
    }
  }

  /** The action hands out this lease. */
  ghost predicate HandsOutLease(s: Store, a: Action, l: Lease) {
    a.AcquireLeases? && Step(s, a).reply.Leases? && l in Step(s, a).reply.leases
  }

  lemma FreshLease(s: Store, a: Action, l: Lease)
    requires Inv(s) && Admissible(s, a) && HandsOutLease(s, a, l)
    ensures Stands(Step(s, a).store, l, a.worker) && Timely(Step(s, a).store, l)
  {
    hide Inv, StepLease, Describes, Admitted;
    LeasesTrue(s, a.worker, a.slots, a.pending, a.now);
    LeasedStands(Step(s, a).store, l, a.worker);
    LeaseClock(s, a.worker, a.slots, a.pending, a.now);
  }

  /**
   From the moment a lease is handed out, at any later point of any run before it expires:
   its completion has taken effect, its task has ended, or the worker can go on, starting
   the stage if it is leased and completing it if it is running.
   */
  lemma LeasedCanFinish(
    s: Store, actions: seq<Action>, i: nat, j: nat, l: Lease, request: CompleteRequest, now: Time)
    requires Inv(s) && Feasible(s, actions) && i < j <= |actions|
    requires HandsOutLease(Run(s, actions[..i]), actions[i], l)
    requires request.worker == actions[i].worker && request.token == l.token
    requires forall k :: i < k < j ==> actions[k].now < l.expiresAt
    requires Run(s, actions[..j]).clock <= now < l.expiresAt
    ensures Ended(s, actions, i + 1, j, l) || GoesOn(Run(s, actions[..j]), l, request, now)
  {
    hide Inv, Feasible, Stands, Run, Admissible, HandsOutLease, Timely, Ended, Step;
    Midway(s, actions, i);
    FreshLease(Run(s, actions[..i]), actions[i], l);
    LeaseStandsOverRuns(s, actions, i + 1, j, l, request.worker);
    FeasiblePrefix(s, actions, j);
    RunKeeps(s, actions[..j]);
    if !Ended(s, actions, i + 1, j, l) {
      StandingWorks(Run(s, actions[..j]), l, request, now);
    }
  }

  ghost predicate GoesOn(s: Store, l: Lease, request: CompleteRequest, now: Time) {
    && HasStage(s, l.stage) && StageAt(s, l.stage).status.Active()
    && (StageAt(s, l.stage).status.Leased? ==>
          StepStart(s, l.stage, request.worker, l.token, now).reply.Execution?)
    && (StageAt(s, l.stage).status.Running? ==> Effective(s, Complete(l.stage, request, now)))
    && (StageAt(s, l.stage).status.Running? ==> Step(s, Complete(l.stage, request, now)).reply.Execution?)
  }
}

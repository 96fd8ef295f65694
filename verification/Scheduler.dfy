/**
 The scheduler and the task repository as they run: loops over rows, counters carried
 from turn to turn, queries taken once per call.  Every method is proved to do what the
 protocol step of its name does, so all results about runs hold of it.
 */
module Scheduler {
  import opened Common
  import opened TaskState
  import opened PipelineDag
  import opened Records
  import opened Selection
  import opened Lifecycle
  import opened TaskInvariant
  import opened Protocol
  import opened SystemInvariant
  import opened Effects
  import opened Capacity
  import Idempotency
  import Router

  // ---------- loops over the stages of one task ----------

  /** `_dependencies_satisfied`: a dictionary of statuses, looked up by name. */
  method DependenciesSatisfied(stages: seq<Stage>, i: nat) returns (satisfied: bool)
    requires i < |stages| && UniqueNames(NodesOf(stages))
    ensures satisfied <==> DependenciesDone(stages, i)
  {
    var statuses: map<Name, StageStatus> := map[];
    for k := 0 to |stages|
      invariant forall n :: n in statuses ==>
        exists j :: 0 <= j < k && stages[j].spec.name == n && stages[j].status == statuses[n]
      invariant forall j :: 0 <= j < k ==>
        stages[j].spec.name in statuses && statuses[stages[j].spec.name] == stages[j].status
    {
      forall j | 0 <= j < k ensures stages[j].spec.name != stages[k].spec.name {
        assert NodesOf(stages)[j].name != NodesOf(stages)[k].name;
      }
      statuses := statuses[stages[k].spec.name := stages[k].status];
    }
    var needed := stages[i].spec.dependsOn;
    for k := 0 to |needed|
      invariant forall m :: 0 <= m < k ==> needed[m] in statuses && statuses[needed[m]].Done()
    {
      if needed[k] !in statuses || !statuses[needed[k]].Done() {
        assert needed[k] in stages[i].spec.dependsOn;
        return false;
      }
    }
    forall d | d in needed
      ensures exists j :: 0 <= j < |stages| && stages[j].spec.name == d && stages[j].status.Done()
    {
      var m :| 0 <= m < |needed| && needed[m] == d;
      assert d in statuses;
    }
    return true;
  }

  method UpdateTaskProgress(t: Task, now: Time) returns (u: Task)
    ensures u == UpdateProgress(t, now)
  {
    var progress := 0.0;
    if t.stages != [] {
      var sum := 0.0;
      for i := 0 to |t.stages|
        invariant sum == TotalCredit(t.stages[..i])
      {
        assert t.stages[..i + 1][..i] == t.stages[..i];
        sum := sum + (if t.stages[i].status.Done() then 100.0 else t.stages[i].progress);
      }
      assert t.stages[..|t.stages|] == t.stages;
      progress := sum / |t.stages| as real;
    }
    u := t.(progress := progress, updatedAt := now);
  }

  method FindFailed(stages: seq<Stage>) returns (k: nat)
    ensures k == FirstFailed(stages)
  {
    for i := 0 to |stages|
      invariant forall j :: 0 <= j < i ==> !stages[j].status.Failed?
    {
      if stages[i].status.Failed? {
        return i;
      }
    }
    return |stages|;
  }

  method AbandonOpen(stages: seq<Stage>, now: Time) returns (after: seq<Stage>)
    ensures after == AbandonAll(stages, now)
  {
    after := stages;
    for i := 0 to |stages|
      invariant |after| == |stages|
      invariant forall j :: 0 <= j < i ==> after[j] == Abandon(stages[j], now)
      invariant forall j :: i <= j < |stages| ==> after[j] == stages[j]
    {
      var other := after[i];
      if other.status.Open() {
        other := other.(status := StageStatus.Cancelled, completedAt := Some(now), updatedAt := now);
        after := after[i := ClearLease(other)];
      }
    }
  }

  method FindResult(stages: seq<Stage>) returns (uri: Option<Uri>)
    ensures uri == LastResult(stages)
  {
    var i := |stages|;
    assert stages[..i] == stages;
    while i > 0
      invariant 0 <= i <= |stages|
      invariant LastResult(stages) == LastResult(stages[..i])
    {
      assert stages[..i][..i - 1] == stages[..i - 1];
      if stages[i - 1].resultUri.Some? {
        return stages[i - 1].resultUri;
      }
      i := i - 1;
    }
    return None;
  }

  /** `_reconcile_task`, without its event. */
  method ReconcileTask(t: Task, now: Time) returns (r: Result<Task>)
    ensures r == Reconcile(t, now)
  {
    var u := t;
    var k := FindFailed(t.stages);
    if k < |t.stages| {
      if RequireTask(t.status, TaskStatus.Failed).Failure? {
        return Failure(InvalidTaskTransition);
      }
      var stages := AbandonOpen(t.stages, now);
      u := u.(status := TaskStatus.Failed, error := t.stages[k].error, completedAt := Some(now), stages := stages);
    } else if t.stages != [] && AllDone(t.stages) {
      if RequireTask(t.status, TaskStatus.Succeeded).Failure? {
        return Failure(InvalidTaskTransition);
      }
      var uri := FindResult(t.stages);
      u := u.(status := TaskStatus.Succeeded, progress := 100.0, completedAt := Some(now), resultUri := uri);
    } else if t.status.Leased? && NoneHeld(t.stages) {
      u := u.(status := TaskStatus.Pending);
    }
    u := UpdateTaskProgress(u, now);
    return Success(u);
  }

  method CancelStages(stages: seq<Stage>, now: Time) returns (after: seq<Stage>)
    ensures after == CancelAll(stages, now)
  {
    after := stages;
    for i := 0 to |stages|
      invariant |after| == |stages|
      invariant forall j :: 0 <= j < i ==> after[j] == CancelStage(stages[j], now)
      invariant forall j :: i <= j < |stages| ==> after[j] == stages[j]
    {
      after := after[i := CancelStage(after[i], now)];
    }
  }

  method ResetStages(stages: seq<Stage>, now: Time) returns (after: seq<Stage>)
    ensures after == ResetAll(stages, now)
  {
    after := stages;
    for i := 0 to |stages|
      invariant |after| == |stages|
      invariant forall j :: 0 <= j < i ==> after[j] == ResetStage(stages[j], now)
      invariant forall j :: i <= j < |stages| ==> after[j] == stages[j]
    {
      after := after[i := ResetStage(after[i], now)];
    }
  }

  // ---------- counters instead of queries ----------

  /** Device selection reads the reservations only through their counts. */
  lemma {:induction false} DeviceCongruent(
    w: Worker, devices: seq<Device>, runtime: Runtime, floor: Option<nat>, cap: real, a: Reservations, b: Reservations)
    requires forall d :: Reserved(a, d) == Reserved(b, d)
    ensures SelectAmong(w, devices, runtime, floor, cap, a) == SelectAmong(w, devices, runtime, floor, cap, b)
  {
    if devices != [] {
      DeviceCongruent(w, devices[..|devices| - 1], runtime, floor, cap, a, b);
    }
  }

  ghost predicate SameActive(m: Market, n: Market) {
    m.workers == n.workers && m.backends == n.backends && m.cap == n.cap
      && forall w :: w in m.workers && m.workers[w].AcceptsLeases() ==> m.Active(w) == n.Active(w)
  }

  /** The election reads the active counts only worker by worker. */
  lemma PreferredCongruent(m: Market, n: Market, w: WorkerId, job: Job)
    requires SameActive(m, n)
    ensures Preferred(m, w, job) <==> Preferred(n, w, job)
  {
    forall v | v in m.workers && m.workers[v].AcceptsLeases()
      ensures Rank(m, v, job) == Rank(n, v, job)
    {
    }
    hide Rank;
    forall v ensures Eligible(m, v, job) <==> Eligible(n, v, job) {
    }
  }

  /** The counters carried by the lease loop say what the queries would say now. */
  ghost predicate Tracks(s: Store, w: WorkerId, active: map<WorkerId, nat>, devices: Reservations) {
    && (forall v :: v in s.workers && s.workers[v].AcceptsLeases() ==> v in active && active[v] == |HeldBy(s, v)|)
    && (forall d :: Reserved(devices, d) == Reserved(DeviceCounts(s, w), d))
  }

  lemma TracksTurn(
    s: Store, n: Store, w: WorkerId, r: StageRef, p: Placement, now: Time, active: map<WorkerId, nat>,
    devices: Reservations)
    requires GrantEffect(s, n, w, r, p, now) && w in s.workers && w in active && Tracks(s, w, active, devices)
    ensures Tracks(n, w, active[w := active[w] + 1], Reserve(devices, p.device))
  {
    hide HeldBy, DeviceCounts;
    GrantCounts(s, n, w, r, p, now);
    forall d ensures Reserved(Reserve(devices, p.device), d) == Reserved(DeviceCounts(n, w), d) {
      CountsFollow(s, n, w, r, p, now, d);
      assert Reserved(devices, p.device) == Reserved(DeviceCounts(s, w), p.device);
      assert Reserved(devices, d) == Reserved(DeviceCounts(s, w), d);
    }
  }

  lemma TracksStart(s: Store, w: WorkerId, active: map<WorkerId, nat>)
    requires active == map v | v in s.workers && s.workers[v].AcceptsLeases() :: |HeldBy(s, v)|
    ensures Tracks(s, w, active, DeviceCounts(s, w))
  {
  }

  lemma LoopTurn(g: Granting, w: WorkerId, pending: seq<StageRef>, slots: nat, now: Time)
    requires pending != [] && |g.leases| < slots && w in g.store.workers && HasStage(g.store, pending[0])
    ensures var p := Offer(g.store, w, pending[0]);
      LeaseLoop(g, w, pending, slots, now) ==
        if p.None? then LeaseLoop(g, w, pending[1..], slots, now)
        else
          var next := Grant(g, w, pending[0], p.value, now);
          if next.Failure? then next else LeaseLoop(next.value, w, pending[1..], slots, now)
  {
  }

  lemma LoopEnd(g: Granting, w: WorkerId, pending: seq<StageRef>, slots: nat, now: Time)
    requires pending == [] || |g.leases| >= slots
    ensures LeaseLoop(g, w, pending, slots, now) == Success(g)
  {
  }

  lemma SweepTurn(w: Sweep, expired: seq<StageRef>, now: Time)
    requires expired != [] && HasStage(w.store, expired[0])
    ensures var r := expired[0];
      var u := ExpireStage(w.store.tasks[r.task], r.position, now);
      RequeueLoop(w, expired, now) ==
        if u.Failure? then Failure(u.fault)
        else
          RequeueLoop(
            Sweep(PutTask(w.store, r.task, u.value, now), w.affected + WorkerOf(StageAt(w.store, r))),
            expired[1..], now)
  {
  }

  lemma SweepEnd(w: Sweep, now: Time)
    ensures RequeueLoop(w, [], now) == Success(w)
  {
  }

  /** An expiry settles the stage, then reconciles; the stages keep their number. */
  lemma ExpireForm(t: Task, i: nat, now: Time)
    requires i < |t.stages|
    ensures var settled := FailOrRetry(t.stages[i], Some(TimeoutError(t.stages[i])), now);
      && (settled.Failure? ==> ExpireStage(t, i, now) == Failure(settled.fault))
      && (settled.Success? ==> ExpireStage(t, i, now) == Reconcile(WithStage(t, i, settled.value), now))
    ensures var u := ExpireStage(t, i, now); u.Success? ==> |u.value.stages| == |t.stages|
  {
  }

  lemma ReleaseNobody(s: Store)
    ensures ReleaseIdle(s, {}) == s
  {
  }

  /** Releasing one worker does not change what another one holds. */
  lemma ReleaseOneMore(s: Store, done: set<WorkerId>, w: WorkerId)
    ensures ReleaseIdle(ReleaseIdle(s, done), {w}) == ReleaseIdle(s, done + {w})
  {
    hide HeldBy;
    var n := ReleaseIdle(s, done);
    forall v ensures HeldBy(n, v) == HeldBy(s, v) {
      SameHeld(s, n, v);
    }
    assert ReleaseIdle(n, {w}).workers == ReleaseIdle(s, done + {w}).workers;
  }

  lemma LeasableHead(s: Store, pending: seq<StageRef>, now: Time)
    requires Inv(s) && pending != [] && Leasable(s, pending, now)
    ensures HasStage(s, pending[0]) && UniqueNames(NodesOf(s.tasks[pending[0].task].stages))
  {
    assert pending[0] in pending;
    assert TaskInv(s.tasks[pending[0].task], s.clock);
  }

  lemma OfferTracked(
    s: Store, w: WorkerId, r: StageRef, active: map<WorkerId, nat>, devices: Reservations, choice: Option<Choice>)
    requires w in s.workers && HasStage(s, r) && Tracks(s, w, active, devices)
    requires var job := JobOf(s.tasks[r.task], StageAt(s, r));
      choice == SelectBackend(
        s.backends, job, s.workers[w].capabilities, AvailableRuntimes(s.workers[w], job.floor, s.config.memoryCap))
    ensures var t, worker, cap := s.tasks[r.task], s.workers[w], s.config.memoryCap;
      var job := JobOf(t, StageAt(s, r));
      Offer(s, w, r) ==
        if !DependenciesDone(t.stages, r.position) || !LabelsMatch(worker, job.labels) || choice.None?
           || !Preferred(Market(s.workers, s.backends, cap, active), w, job)
        then None
        else
          var device := SelectDevice(worker, choice.value.runtime, job.floor, cap, devices);
          if device.None? || job.source.None? then None
          else Some(Placement(choice.value.backend, choice.value.runtime, device.value.id))
  {
    hide HeldBy, DeviceCounts, Preferred, SelectBackend, AvailableRuntimes;
    var worker, cap := s.workers[w], s.config.memoryCap;
    var job := JobOf(s.tasks[r.task], StageAt(s, r));
    PreferredCongruent(MarketOf(s), Market(s.workers, s.backends, cap, active), w, job);
    if choice.Some? {
      DeviceCongruent(worker, worker.devices, choice.value.runtime, job.floor, cap, DeviceCounts(s, w), devices);
    }
  }

  // ---------- the service ----------

  class StageScheduler {
    const config: Config
    var tasks: map<TaskId, Task>
    var workers: map<WorkerId, Worker>
    var backends: seq<Backend>
    var pipelines: map<PipelineRef, Router.Pipeline>
    var issued: nat
    var clock: Time
    var log: seq<StatusEvent>

    function View(): Store
      reads this
    {
      Store(config, tasks, workers, backends, pipelines, issued, clock, log)
    }

    ghost predicate Valid()
      reads this
    {
      Inv(View())
    }

    constructor (config: Config)
      requires 0.0 < config.memoryCap <= 100.0 && 1.0 <= config.leaseSeconds
      ensures Initial(View()) && Valid() && View().config == config
    {
      this.config := config;
      tasks, workers, backends, pipelines := map[], map[], [], map[];
      issued, clock, log := 0, 0.0, [];
    }

    // ----- small writes -----

    method WriteTask(id: TaskId, u: Task)
      requires id in tasks
      modifies this`tasks, this`log
      ensures View() == PutTask(old(View()), id, u, clock)
    {
      if u.status != tasks[id].status {
        log := log + [StatusEvent(id, tasks[id].status, u.status)];
      }
      tasks := tasks[id := u];
    }

    method ReleaseWorkerIfIdle(w: WorkerId)
      modifies this`workers
      ensures View() == ReleaseIdle(old(View()), {w})
    {
      if w in workers && workers[w].enabled && workers[w].status.Busy? && HeldBy(View(), w) == {} {
        workers := workers[w := workers[w].(status := Online)];
      }
      assert workers == ReleaseIdle(old(View()), {w}).workers;
    }

    // ----- one stage -----

    method Renew(r: StageRef, worker: WorkerId, token: Token, now: Time) returns (reply: Reply)
      requires Valid() && clock <= now
      modifies this
      ensures Valid() && Outcome(View(), reply) == StepRenew(old(View()), r, worker, token, now)
    {
      hide Inv;
      RenewStepKeeps(View(), r, worker, token, now);
      clock := now;
      if !HasStage(View(), r) {
        return Missing;
      }
      var t := tasks[r.task];
      var stage := t.stages[r.position];
      var checked := RequireValidLease(stage, worker, token, now);
      if checked.Failure? {
        return Raised(checked.fault);
      }
      if !stage.status.Active() {
        return Raised(StageConflict);
      }
      var expiresAt := LeaseExpiry(View(), now);
      stage := stage.(expiresAt := Some(expiresAt), updatedAt := now);
      WriteTask(r.task, WithStage(t, r.position, stage));
      return Renewal(expiresAt);
    }

    method Start(r: StageRef, worker: WorkerId, token: Token, now: Time) returns (reply: Reply)
      requires Valid() && clock <= now
      modifies this
      ensures Valid() && Outcome(View(), reply) == StepStart(old(View()), r, worker, token, now)
    {
      hide Inv;
      StartStepKeeps(View(), r, worker, token, now);
      clock := now;
      if !HasStage(View(), r) {
        return Missing;
      }
      var t := tasks[r.task];
      var stage := t.stages[r.position];
      var checked := RequireValidLease(stage, worker, token, now);
      if checked.Failure? {
        return Raised(checked.fault);
      }
      if !stage.status.Leased? {
        return Raised(StageConflict);
      }
      stage := stage.(status := StageStatus.Running, startedAt := OrNow(stage.startedAt, now), updatedAt := now);
      var u := WithStage(t, r.position, stage);
      if t.status.Leased? {
        u := u.(status := TaskStatus.Running, startedAt := OrNow(t.startedAt, now), updatedAt := now);
      }
      WriteTask(r.task, u);
      return ExecutionData(u, r.position);
    }

    method Progress(r: StageRef, worker: WorkerId, token: Token, percent: real, now: Time) returns (reply: Reply)
      requires Valid() && clock <= now && 0.0 <= percent <= 100.0
      modifies this
      ensures Valid() && Outcome(View(), reply) == StepProgress(old(View()), r, worker, token, percent, now)
    {
      hide Inv;
      ProgressStepKeeps(View(), r, worker, token, percent, now);
      clock := now;
      if !HasStage(View(), r) {
        return Missing;
      }
      var t := tasks[r.task];
      var stage := t.stages[r.position];
      var checked := RequireValidLease(stage, worker, token, now);
      if checked.Failure? {
        return Raised(checked.fault);
      }
      if !stage.status.Running? {
        return Raised(StageConflict);
      }
      var u := UpdateTaskProgress(WithStage(t, r.position, stage.(progress := percent, updatedAt := now)), now);
      WriteTask(r.task, u);
      return ExecutionData(u, r.position);
    }

    method Complete(r: StageRef, request: CompleteRequest, now: Time) returns (reply: Reply)
      requires Valid() && clock <= now
      modifies this
      ensures Valid() && Outcome(View(), reply) == StepComplete(old(View()), r, request, now)
    {
      hide Inv;
      CompleteStepKeeps(View(), r, request, now);
      clock := now;
      if !HasStage(View(), r) {
        return Missing;
      }
      var t := tasks[r.task];
      var stage := t.stages[r.position];
      if stage.completionRequest.Some? {
        if Replays(stage, request) {
          return ExecutionData(t, r.position);
        }
        return Raised(StageConflict);
      }
      var checked := RequireValidLease(stage, request.worker, request.token, now);
      if checked.Failure? {
        return Raised(checked.fault);
      }
      if !stage.status.Running? {
        return Raised(StageConflict);
      }
      stage := Recorded(stage, request);
      var settled: Result<Stage>;
      if request.succeeded {
        settled := SucceedStage(stage, request.resultUri, now);
      } else {
        settled := FailOrRetry(stage, request.error, now);
      }
      if settled.Failure? {
        return Raised(settled.fault);
      }
      var u := ReconcileTask(WithStage(t, r.position, settled.value), now);
      if u.Failure? {
        return Raised(u.fault);
      }
      CompleteLength(t, r.position, request, now);
      WriteTask(r.task, u.value);
      ReleaseWorkerIfIdle(request.worker);
      return ExecutionData(u.value, r.position);
    }

    // ----- leasing -----

    /** The gates of the lease loop, in the order the loop has them. */
    method Consider(
      w: WorkerId, r: StageRef, candidates: seq<WorkerId>, active: map<WorkerId, nat>, devices: Reservations)
      returns (placement: Option<Placement>)
      requires w in workers && HasStage(View(), r) && UniqueNames(NodesOf(tasks[r.task].stages))
      requires forall v :: v in candidates <==> v in workers && workers[v].AcceptsLeases()
      requires Tracks(View(), w, active, devices)
      ensures placement == Offer(View(), w, r)
    {
      hide Tracks, Offer, Preferred, SelectBackend, AvailableRuntimes, SelectDevice, HeldBy;
      var t, worker, cap := tasks[r.task], workers[w], config.memoryCap;
      var job := JobOf(t, t.stages[r.position]);
      ghost var chosen := SelectBackend(backends, job, worker.capabilities, AvailableRuntimes(worker, job.floor, cap));
      OfferTracked(View(), w, r, active, devices, chosen);
      var satisfied := DependenciesSatisfied(t.stages, r.position);
      if !satisfied || !LabelsMatch(worker, job.labels) {
        return None;
      }
      var runtimes := AvailableWorkerRuntimes(worker, job.floor, cap);
      var choice := FindBackend(backends, job, worker.capabilities, runtimes);
      if choice.None? {
        return None;
      }
      var preferred := RequestingWorkerIsPreferred(Market(workers, backends, cap, active), candidates, w, job);
      if !preferred {
        return None;
      }
      var device := SelectDeviceId(worker, choice.value.runtime, job.floor, cap, devices);
      if device.None? || job.source.None? {
        return None;
      }
      return Some(Placement(choice.value.backend, choice.value.runtime, device.value.id));
    }

    method HandOut(w: WorkerId, r: StageRef, p: Placement, now: Time, ghost earlier: seq<Lease>) returns (lease: Lease)
      requires HasStage(View(), r) && clock == now
      requires Grant(Granting(View(), earlier), w, r, p, now).Success?
      modifies this`tasks, this`log, this`issued
      ensures Grant(Granting(old(View()), earlier), w, r, p, now) == Success(Granting(View(), earlier + [lease]))
    {
      var token, expiresAt := Token(issued), LeaseExpiry(View(), now);
      var t := tasks[r.task];
      var stage := t.stages[r.position];
      stage := stage.(status := StageStatus.Leased, backend := Some(p.backend), worker := Some(w),
        runtime := Some(p.runtime), device := Some(p.device));
      stage := stage.(attempt := stage.attempt + 1, token := Some(LeaseDigest(token)));
      stage := stage.(completionWorker := None, completionDevice := None, completionToken := None,
        completionRequest := None);
      stage := stage.(expiresAt := Some(expiresAt), updatedAt := now);
      var u := WithStage(t, r.position, stage);
      if t.status.Pending? {
        u := u.(status := TaskStatus.Leased, updatedAt := now);
      }
      WriteTask(r.task, u);
      issued := issued + 1;
      lease := Lease.Lease(r, token, p, stage.attempt, expiresAt);
    }

    method AcceptingWorkers() returns (candidates: seq<WorkerId>)
      ensures forall v :: v in candidates <==> v in workers && workers[v].AcceptsLeases()
    {
      candidates := [];
      var rest := workers.Keys;
      while rest != {}
        invariant rest <= workers.Keys
        invariant forall v :: v in candidates <==> v in workers && v !in rest && workers[v].AcceptsLeases()
        decreases rest
      {
        var v :| v in rest;
        if workers[v].AcceptsLeases() {
          candidates := candidates + [v];
        }
        rest := rest - {v};
      }
    }

    /** The lease loop: counters and dictionaries instead of queries. */
    method OfferAll(
      w: WorkerId, candidates: seq<WorkerId>, active: map<WorkerId, nat>, activeCount: nat, counts: Reservations,
      slots: nat, pending: seq<StageRef>, now: Time)
      returns (leases: seq<Lease>)
      requires Valid() && clock == now && Leasable(View(), pending, now) && w in workers
      requires forall v :: v in candidates <==> v in workers && workers[v].AcceptsLeases()
      requires Tracks(View(), w, active[w := activeCount], counts)
      modifies this`tasks, this`log, this`issued
      ensures LeaseLoop(Granting(old(View()), []), w, pending, slots, now) == Success(Granting(View(), leases))
    {
      hide Inv, Tracks, Offer, Grant, Leasable, GrantEffect, LeaseLoop;
      leases := [];
      var devices := counts;
      assert pending[0..] == pending;
      var i := 0;
      while i < |pending| && |leases| < slots
        invariant 0 <= i <= |pending|
        invariant Inv(View()) && Leasable(View(), pending[i..], now)
        invariant Tracks(View(), w, active[w := activeCount + |leases|], devices)
        invariant LeaseLoop(Granting(old(View()), []), w, pending, slots, now)
               == LeaseLoop(Granting(View(), leases), w, pending[i..], slots, now)
      {
        var r := pending[i];
        assert pending[i..][0] == r && pending[i..][1..] == pending[i + 1..];
        LeasableHead(View(), pending[i..], now);
        LoopTurn(Granting(View(), leases), w, pending[i..], slots, now);
        var placement := Consider(w, r, candidates, active[w := activeCount + |leases|], devices);
        if placement.Some? {
          ghost var before := Granting(View(), leases);
          ghost var n := LeaseTurn(before, w, pending[i..], placement.value, now);
          var lease := HandOut(w, r, placement.value, now, leases);
          TracksTurn(before.store, n.store, w, r, placement.value, now, active[w := activeCount + |leases|], devices);
          assert active[w := activeCount + |leases|][w := activeCount + |leases| + 1]
              == active[w := activeCount + |leases + [lease]|];
          devices := Reserve(devices, placement.value.device);
          leases := leases + [lease];
        } else {
          LeasableTail(View(), pending[i..], now);
        }
        i := i + 1;
      }
      LoopEnd(Granting(View(), leases), w, pending[i..], slots, now);
    }

    /** `lease`: the pending rows are offered one by one until the free slots are used up. */
    method AcquireLeases(w: WorkerId, requested: nat, pending: seq<StageRef>, now: Time) returns (reply: Reply)
      requires Valid() && clock <= now && Leasable(View(), pending, now)
      modifies this
      ensures Valid() && Outcome(View(), reply) == StepLease(old(View()), w, requested, pending, now)
    {
      hide Inv, Tracks, HeldBy, DeviceCounts, Leasable, LeaseLoop;
      LeaseStepKeeps(View(), w, requested, pending, now);
      TickKeeps(View(), now);
      TickLeasable(View(), pending, now);
      SameHeld(View(), Tick(View(), now), w);
      clock := now;
      if w !in workers || !workers[w].AcceptsLeases() {
        return Raised(WorkerUnavailable);
      }
      var activeCount := |HeldBy(View(), w)|;
      var slots := FreeSlots(View(), w, requested);
      if slots == 0 {
        return Leases([]);
      }
      var candidates := AcceptingWorkers();
      var active := map v | v in workers && workers[v].AcceptsLeases() :: |HeldBy(View(), v)|;
      TracksStart(View(), w, active);
      assert active[w := activeCount] == active;
      var leases := OfferAll(w, candidates, active, activeCount, DeviceCounts(View(), w), slots, pending, now);
      if activeCount + |leases| >= workers[w].maximumConcurrency {
        workers := workers[w := workers[w].(status := Busy)];
      }
      return Leases(leases);
    }

    // ----- requeueing -----

    /** The requeue loop; a raised fault leaves the writes of earlier turns to the rollback. */
    method SweepAll(expired: seq<StageRef>, now: Time) returns (affected: set<WorkerId>, fault: Option<Fault>)
      requires clock == now && forall r :: r in expired ==> HasStage(View(), r)
      modifies this`tasks, this`log
      ensures RequeueLoop(Sweep(old(View()), {}), expired, now) ==
        if fault.Some? then Failure(fault.value) else Success(Sweep(View(), affected))
    {
      hide RequeueLoop, ExpireStage, Reconcile, FailOrRetry;
      affected := {};
      assert expired[0..] == expired;
      for i := 0 to |expired|
        invariant forall r :: r in expired ==> HasStage(View(), r)
        invariant RequeueLoop(Sweep(old(View()), {}), expired, now)
               == RequeueLoop(Sweep(View(), affected), expired[i..], now)
      {
        var r := expired[i];
        assert expired[i..][0] == r && expired[i..][1..] == expired[i + 1..];
        SweepTurn(Sweep(View(), affected), expired[i..], now);
        var t := tasks[r.task];
        var stage := t.stages[r.position];
        ghost var joined := affected + WorkerOf(stage);
        if stage.worker.Some? {
          affected := affected + {stage.worker.value};
        }
        assert affected == joined;
        ExpireForm(t, r.position, now);
        var settled := FailOrRetry(stage, Some(TimeoutError(stage)), now);
        if settled.Failure? {
          return affected, Some(settled.fault);
        }
        var u := ReconcileTask(WithStage(t, r.position, settled.value), now);
        if u.Failure? {
          return affected, Some(u.fault);
        }
        WriteTask(r.task, u.value);
      }
      SweepEnd(Sweep(View(), affected), now);
      return affected, None;
    }

    method ReleaseAll(affected: set<WorkerId>)
      modifies this`workers
      ensures View() == ReleaseIdle(old(View()), affected)
    {
      hide Idle;
      var rest := affected;
      ReleaseNobody(View());
      while rest != {}
        invariant rest <= affected
        invariant View() == ReleaseIdle(old(View()), affected - rest)
        decreases rest
      {
        var w :| w in rest;
        ReleaseOneMore(old(View()), affected - rest, w);
        assert affected - rest + {w} == affected - (rest - {w});
        ReleaseWorkerIfIdle(w);
        rest := rest - {w};
      }
      assert affected - rest == affected;
    }

    /** `requeue_expired`: one transaction, rolled back as a whole when a turn raises. */
    method RequeueExpired(expired: seq<StageRef>, now: Time) returns (reply: Reply)
      requires Valid() && clock <= now && Expired(View(), expired, now)
      modifies this
      ensures Valid() && Outcome(View(), reply) == StepRequeue(old(View()), expired, now)
    {
      hide Inv, RequeueLoop, ReleaseIdle;
      RequeueStepKeeps(View(), expired, now);
      clock := now;
      var savedTasks, savedLog := tasks, log;
      var affected, fault := SweepAll(expired, now);
      if fault.Some? {
        tasks, log := savedTasks, savedLog;
        return Raised(fault.value);
      }
      ReleaseAll(affected);
      return Swept(expired);
    }

    // ----- one task -----

    method Cancel(id: TaskId, now: Time) returns (reply: Reply)
      requires Valid() && clock <= now
      modifies this
      ensures Valid() && Outcome(View(), reply) == StepCancel(old(View()), id, now)
    {
      hide Inv;
      CancelStepKeeps(View(), id, now);
      clock := now;
      if id !in tasks {
        return Missing;
      }
      var t := tasks[id];
      if t.status.Terminal() {
        return Raised(TaskNotCancellable);
      }
      var stages := CancelStages(t.stages, now);
      WriteTask(id, t.(status := TaskStatus.Cancelled, completedAt := Some(now), updatedAt := now, stages := stages));
      return Stored(id);
    }

    method Retry(id: TaskId, now: Time) returns (reply: Reply)
      requires Valid() && clock <= now
      modifies this
      ensures Valid() && Outcome(View(), reply) == StepRetry(old(View()), id, now)
    {
      hide Inv;
      RetryStepKeeps(View(), id, now);
      clock := now;
      if id !in tasks {
        return Missing;
      }
      var t := tasks[id];
      if !t.status.Failed? && !t.status.Cancelled? {
        return Raised(TaskNotRetryable);
      }
      var stages := ResetStages(t.stages, now);
      WriteTask(id, t.(
        status := TaskStatus.Pending, progress := 0.0, error := None, resultUri := None,
        startedAt := None, completedAt := None, updatedAt := now, stages := stages));
      return Stored(id);
    }

    method Create(id: TaskId, request: CreateRequest, key: Option<Label>, now: Time) returns (reply: Reply)
      requires Valid() && Admissible(View(), Action.Create(id, request, key, now))
      modifies this
      ensures Valid() && Outcome(View(), reply) == StepCreate(old(View()), id, request, key, now)
    {
      hide Inv;
      CreateStepKeeps(View(), id, request, key, now);
      clock := now;
      var known := TasksWithKey(View(), key);
      if known != {} {
        var existing :| existing in known;
        Idempotency.KeyInUse(old(View()), existing, id, request, key, now);
        if tasks[existing].request != request {
          return Raised(IdempotencyConflict);
        }
        return Stored(existing);
      }
      assert TasksWithKey(old(View()), key) == {};
      if !PipelineKnown(View(), request) {
        return Raised(PipelineNotFound);
      }
      tasks := tasks[id := NewTask(request, key, now)];
      return Stored(id);
    }

    /** `TaskRouter.route`, with the pipeline that the selection query came back with. */
    method Route(id: TaskId, choice: Option<PipelineRef>, now: Time) returns (reply: Reply)
      requires Valid() && clock <= now
      modifies this
      ensures Valid() && Outcome(View(), reply) == StepRoute(old(View()), id, choice, now)
    {
      hide Inv;
      RouteStepKeeps(View(), id, choice, now);
      clock := now;
      if id !in tasks {
        return Missing;
      }
      var t := tasks[id];
      if !t.status.Pending? {
        return Raised(TaskAlreadyRouted);
      }
      if t.stages != [] {
        WriteTask(id, t);
        return Stored(id);
      }
      if t.request.source.None? {
        return Raised(SourceUnresolved);
      }
      if choice.None? || choice.value !in pipelines {
        return Raised(RoutingUnavailable);
      }
      var definition := pipelines[choice.value];
      var plan := Router.BuildPlan(backends, definition.stages, t.request.options, t.request.source.value, now);
      if plan.Failure? {
        return Raised(plan.fault);
      }
      WriteTask(id, t.(stages := plan.value, pipelineId := Some(choice.value.id),
        pipelineVersion := Some(choice.value.version), updatedAt := now));
      return Stored(id);
    }
  }

  lemma CompleteLength(t: Task, i: nat, request: CompleteRequest, now: Time)
    requires i < |t.stages|
    ensures var u := CompleteStage(t, i, request, now); u.Success? ==> |u.value.stages| == |t.stages|
  {
  }
}

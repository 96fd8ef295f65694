/**
 The store and the operations of the lease protocol, each one atomic transaction.
 What a SQL query returns is part of the action, constrained by `Admissible`, so results
 hold for every row order and for every set of rows another transaction keeps locked.
 */
module Protocol {
  import opened Common
  import opened TaskState
  import opened Records
  import opened Selection
  import opened Lifecycle
  import Router

  datatype StageRef = StageRef(task: TaskId, position: nat)
  datatype PipelineRef = PipelineRef(id: nat, version: nat)
  datatype Config = Config(leaseSeconds: real, memoryCap: real)

  /** A published `task.status_changed` event. */
  datatype StatusEvent = StatusEvent(task: TaskId, previous: TaskStatus, current: TaskStatus)

  datatype Store = Store(
    config: Config,
    tasks: map<TaskId, Task>,
    workers: map<WorkerId, Worker>,
    backends: seq<Backend>,
    pipelines: map<PipelineRef, Router.Pipeline>,
    issued: nat,
    clock: Time,
    log: seq<StatusEvent>
  )

  datatype Lease = Lease(stage: StageRef, token: Token, placement: Placement, attempt: nat, expiresAt: Time)

  datatype Reply =
    | Missing
    | Raised(fault: Fault)
    | Stored(task: TaskId)
    | Leases(leases: seq<Lease>)
    | Renewal(expiresAt: Time)
    | Execution(stageStatus: StageStatus, taskStatus: TaskStatus, progress: real, leaseExpiresAt: Option<Time>)
    | Swept(stages: seq<StageRef>)
    | Acknowledged

  datatype Outcome = Outcome(store: Store, reply: Reply)

  datatype Action =
    | Create(task: TaskId, request: CreateRequest, key: Option<Label>, now: Time)
    | Route(task: TaskId, choice: Option<PipelineRef>, now: Time)
    | AcquireLeases(worker: WorkerId, slots: nat, pending: seq<StageRef>, now: Time)
    | Renew(stage: StageRef, worker: WorkerId, token: Token, now: Time)
    | Start(stage: StageRef, worker: WorkerId, token: Token, now: Time)
    | Progress(stage: StageRef, worker: WorkerId, token: Token, percent: real, now: Time)
    | Complete(stage: StageRef, completion: CompleteRequest, now: Time)
    | RequeueExpired(expired: seq<StageRef>, now: Time)
    | Cancel(task: TaskId, now: Time)
    | Retry(task: TaskId, now: Time)
    | SetWorker(worker: WorkerId, record: Worker, now: Time)
    | SetBackends(table: seq<Backend>, now: Time)
    | SetPipeline(id: PipelineRef, pipeline: Option<Router.Pipeline>, now: Time)

  // ---------- looking at the store ----------

  predicate HasStage(s: Store, r: StageRef) {
    r.task in s.tasks && r.position < |s.tasks[r.task].stages|
  }

  function StageAt(s: Store, r: StageRef): Stage
    requires HasStage(s, r)
  {
    s.tasks[r.task].stages[r.position]
  }

  predicate Holds(s: Store, r: StageRef, w: WorkerId) {
    HasStage(s, r) && StageAt(s, r).status.Active() && StageAt(s, r).worker == Some(w)
  }

  function Refs(s: Store): set<StageRef> {
    set t, i | t in s.tasks && 0 <= i < |s.tasks[t].stages| :: StageRef(t, i)
  }

  /** The leased and running stages of a worker. */
  function HeldBy(s: Store, w: WorkerId): set<StageRef> {
    set r | r in Refs(s) && Holds(s, r, w)
  }

  /** Those of them that sit on one device. */
  function HeldOn(s: Store, w: WorkerId, d: DeviceId): set<StageRef> {
    set r | r in Refs(s) && Holds(s, r, w) && StageAt(s, r).device == Some(d)
  }

  /** The `GROUP BY device_id` query. */
  function DeviceCounts(s: Store, w: WorkerId): Reservations {
    map d | d in DevicesInUse(s, w) :: |HeldOn(s, w, d)|
  }

  function DevicesInUse(s: Store, w: WorkerId): set<DeviceId> {
    set r | r in HeldBy(s, w) && StageAt(s, r).device.Some? :: StageAt(s, r).device.value
  }

  function MarketOf(s: Store): Market {
    Market(s.workers, s.backends, s.config.memoryCap, map w | w in s.workers :: |HeldBy(s, w)|)
  }

  // ---------- writing to the store ----------

  function Logged(log: seq<StatusEvent>, id: TaskId, previous: TaskStatus, current: TaskStatus): seq<StatusEvent> {
    if previous == current then log else log + [StatusEvent(id, previous, current)]
  }

  /** Writes one task row and publishes its status change, if there is one. */
  function PutTask(s: Store, id: TaskId, u: Task, now: Time): Store
    requires id in s.tasks
  {
    s.(tasks := s.tasks[id := u], log := Logged(s.log, id, s.tasks[id].status, u.status), clock := now)
  }

  predicate Idle(s: Store, w: WorkerId)
    requires w in s.workers
  {
    s.workers[w].enabled && s.workers[w].status.Busy? && HeldBy(s, w) == {}
  }

  /** `_release_worker_if_idle`, for each of the given workers. */
  function ReleaseIdle(s: Store, ids: set<WorkerId>): Store {
    s.(workers := map w | w in s.workers ::
      if w in ids && Idle(s, w) then s.workers[w].(status := Online) else s.workers[w])
  }

  function Tick(s: Store, now: Time): Store {
    s.(clock := now)
  }

  function ExecutionData(t: Task, i: nat): Reply
    requires i < |t.stages|
  {
    Execution(t.stages[i].status, t.status, t.progress, t.stages[i].expiresAt)
  }

  // ---------- leasing ----------

  function LeaseExpiry(s: Store, now: Time): Time {
    now + s.config.leaseSeconds
  }

  /** The gates of the lease loop: where this worker would run the stage, if it may have it now. */
  function Offer(s: Store, w: WorkerId, r: StageRef): Option<Placement>
    requires w in s.workers && HasStage(s, r)
  {
    var t, worker := s.tasks[r.task], s.workers[w];
    var job := JobOf(t, StageAt(s, r));
    var choice := SelectBackend(
      s.backends, job, worker.capabilities, AvailableRuntimes(worker, job.floor, s.config.memoryCap));
    if !DependenciesDone(t.stages, r.position) || !LabelsMatch(worker, job.labels) || choice.None?
       || !Preferred(MarketOf(s), w, job)
    then None
    else
      var device := SelectDevice(worker, choice.value.runtime, job.floor, s.config.memoryCap, DeviceCounts(s, w));
      if device.None? || job.source.None? then None
      else Some(Placement(choice.value.backend, choice.value.runtime, device.value.id))
  }

  datatype Granting = Granting(store: Store, leases: seq<Lease>)

  /** Hands one stage to the worker under a fresh token. */
  function Grant(g: Granting, w: WorkerId, r: StageRef, p: Placement, now: Time): Result<Granting>
    requires HasStage(g.store, r)
  {
    var s := g.store;
    var token, expiresAt := Token(s.issued), LeaseExpiry(s, now);
    var u := GrantStage(s.tasks[r.task], r.position, w, p, token, expiresAt, now);
    if u.Failure? then Failure(u.fault)
    else
      Success(Granting(
        PutTask(s, r.task, u.value, now).(issued := s.issued + 1),
        g.leases + [Lease(r, token, p, StageAt(s, r).attempt + 1, expiresAt)]))
  }

  function LeaseLoop(g: Granting, w: WorkerId, pending: seq<StageRef>, slots: nat, now: Time): Result<Granting>
    decreases |pending|
  {
    if pending == [] || |g.leases| >= slots then Success(g)
    else if w !in g.store.workers || !HasStage(g.store, pending[0]) then Success(g)
    else
      var p := Offer(g.store, w, pending[0]);
      if p.None? then LeaseLoop(g, w, pending[1..], slots, now)
      else
        var next := Grant(g, w, pending[0], p.value, now);
        if next.Failure? then next else LeaseLoop(next.value, w, pending[1..], slots, now)
  }

  /** The rows the pending query may return. */
  ghost predicate Leasable(s: Store, pending: seq<StageRef>, now: Time) {
    && Distinct(pending)
    && (forall r :: r in pending ==>
          HasStage(s, r) && StageAt(s, r).status.Pending? && StageAt(s, r).availableAt <= now
          && !s.tasks[r.task].status.Terminal())
  }

  function FreeSlots(s: Store, w: WorkerId, requested: nat): nat
    requires w in s.workers
  {
    var free := Max(s.workers[w].maximumConcurrency - |HeldBy(s, w)|, 0);
    if requested < free then requested else free
  }

  function StepLease(s: Store, w: WorkerId, requested: nat, pending: seq<StageRef>, now: Time): Outcome {
    if w !in s.workers || !s.workers[w].AcceptsLeases() then Outcome(Tick(s, now), Raised(WorkerUnavailable))
    else
      var slots := FreeSlots(s, w, requested);
      if slots == 0 then Outcome(Tick(s, now), Leases([]))
      else
        var g := LeaseLoop(Granting(Tick(s, now), []), w, pending, slots, now);
        if g.Failure? then Outcome(Tick(s, now), Raised(g.fault))
        else
          var full := |HeldBy(s, w)| + |g.value.leases| >= s.workers[w].maximumConcurrency;
          Outcome(
            if full then g.value.store.(workers := s.workers[w := s.workers[w].(status := Busy)]) else g.value.store,
            Leases(g.value.leases))
  }

  // ---------- requeueing ----------

  datatype Sweep = Sweep(store: Store, affected: set<WorkerId>)

  function WorkerOf(st: Stage): set<WorkerId> {
    if st.worker.Some? then {st.worker.value} else {}
  }

  function RequeueLoop(w: Sweep, expired: seq<StageRef>, now: Time): Result<Sweep>
    decreases |expired|
  {
    if expired == [] || !HasStage(w.store, expired[0]) then Success(w)
    else
      var r := expired[0];
      var u := ExpireStage(w.store.tasks[r.task], r.position, now);
      if u.Failure? then Failure(u.fault)
      else
        RequeueLoop(
          Sweep(PutTask(w.store, r.task, u.value, now), w.affected + WorkerOf(StageAt(w.store, r))),
          expired[1..], now)
  }

  /** The rows the expiry query may return. */
  ghost predicate Expired(s: Store, expired: seq<StageRef>, now: Time) {
    && Distinct(expired)
    && (forall r :: r in expired ==>
          HasStage(s, r) && StageAt(s, r).status.Active()
          && StageAt(s, r).expiresAt.Some? && StageAt(s, r).expiresAt.value <= now)
  }

  function StepRequeue(s: Store, expired: seq<StageRef>, now: Time): Outcome {
    var swept := RequeueLoop(Sweep(Tick(s, now), {}), expired, now);
    if swept.Failure? then Outcome(Tick(s, now), Raised(swept.fault))
    else Outcome(ReleaseIdle(swept.value.store, swept.value.affected), Swept(expired))
  }

  // ---------- one row at a time ----------

  /** Commits the new row, or rolls back on a raised fault. */
  function Commit(s: Store, id: TaskId, u: Result<Task>, reply: Reply, now: Time): Outcome
    requires id in s.tasks
  {
    if u.Failure? then Outcome(Tick(s, now), Raised(u.fault))
    else Outcome(PutTask(s, id, u.value, now), reply)
  }

  function Report(u: Result<Task>, i: nat): Reply {
    if u.Success? && i < |u.value.stages| then ExecutionData(u.value, i) else Acknowledged
  }

  function StepRenew(s: Store, r: StageRef, worker: WorkerId, token: Token, now: Time): Outcome {
    if !HasStage(s, r) then Outcome(Tick(s, now), Missing)
    else
      var expiresAt := LeaseExpiry(s, now);
      Commit(s, r.task, RenewStage(s.tasks[r.task], r.position, worker, token, expiresAt, now), Renewal(expiresAt), now)
  }

  function StepStart(s: Store, r: StageRef, worker: WorkerId, token: Token, now: Time): Outcome {
    if !HasStage(s, r) then Outcome(Tick(s, now), Missing)
    else
      var u := StartStage(s.tasks[r.task], r.position, worker, token, now);
      Commit(s, r.task, u, Report(u, r.position), now)
  }

  function StepProgress(s: Store, r: StageRef, worker: WorkerId, token: Token, percent: real, now: Time): Outcome {
    if !HasStage(s, r) then Outcome(Tick(s, now), Missing)
    else
      var u := ReportProgress(s.tasks[r.task], r.position, worker, token, percent, now);
      Commit(s, r.task, u, Report(u, r.position), now)
  }

  function StepComplete(s: Store, r: StageRef, request: CompleteRequest, now: Time): Outcome {
    if !HasStage(s, r) then Outcome(Tick(s, now), Missing)
    else
      var t := s.tasks[r.task];
      var u := CompleteStage(t, r.position, request, now);
      if t.stages[r.position].completionRequest.Some? then
        Outcome(Tick(s, now), if u.Failure? then Raised(u.fault) else ExecutionData(t, r.position))
      else
        var done := Commit(s, r.task, u, Report(u, r.position), now);
        if u.Failure? then done else done.(store := ReleaseIdle(done.store, {request.worker}))
  }

  function StepCancel(s: Store, id: TaskId, now: Time): Outcome {
    if id !in s.tasks then Outcome(Tick(s, now), Missing)
    else Commit(s, id, CancelTask(s.tasks[id], now), Stored(id), now)
  }

  function StepRetry(s: Store, id: TaskId, now: Time): Outcome {
    if id !in s.tasks then Outcome(Tick(s, now), Missing)
    else Commit(s, id, RetryTask(s.tasks[id], now), Stored(id), now)
  }

  function StepRoute(s: Store, id: TaskId, choice: Option<PipelineRef>, now: Time): Outcome {
    if id !in s.tasks then Outcome(Tick(s, now), Missing)
    else
      var usable := choice.Some? && choice.value in s.pipelines;
      var u := Router.RouteTask(s.backends, s.tasks[id],
        if usable then Some(s.pipelines[choice.value]) else None,
        if usable then choice.value.id else 0, if usable then choice.value.version else 0, now);
      Commit(s, id, u, Stored(id), now)
  }

  // ---------- creation ----------

  function NewTask(request: CreateRequest, key: Option<Label>, now: Time): Task {
    Task(request, key, TaskStatus.Pending, 0.0, request.pipelineId, request.pipelineVersion, [],
      None, None, now, None, None, now)
  }

  function TasksWithKey(s: Store, key: Option<Label>): set<TaskId> {
    set id | id in s.tasks && key.Some? && s.tasks[id].key == key
  }

  predicate PipelineKnown(s: Store, request: CreateRequest) {
    request.pipelineId.Some? ==>
      request.pipelineVersion.Some?
      && PipelineRef(request.pipelineId.value, request.pipelineVersion.value) in s.pipelines
  }

  ghost function StepCreate(s: Store, id: TaskId, request: CreateRequest, key: Option<Label>, now: Time): Outcome {
    if TasksWithKey(s, key) != {} then
      var existing :| existing in TasksWithKey(s, key);
      if s.tasks[existing].request == request then Outcome(Tick(s, now), Stored(existing))
      else Outcome(Tick(s, now), Raised(IdempotencyConflict))
    else if !PipelineKnown(s, request) then Outcome(Tick(s, now), Raised(PipelineNotFound))
    else Outcome(s.(tasks := s.tasks[id := NewTask(request, key, now)], clock := now), Stored(id))
  }

  // ---------- all together ----------

  ghost function Step(s: Store, a: Action): Outcome {
    match a
    case Create(id, request, key, now) => StepCreate(s, id, request, key, now)
    case Route(id, choice, now) => StepRoute(s, id, choice, now)
    case AcquireLeases(w, slots, pending, now) => StepLease(s, w, slots, pending, now)
    case Renew(r, w, token, now) => StepRenew(s, r, w, token, now)
    case Start(r, w, token, now) => StepStart(s, r, w, token, now)
    case Progress(r, w, token, percent, now) => StepProgress(s, r, w, token, percent, now)
    case Complete(r, request, now) => StepComplete(s, r, request, now)
    case RequeueExpired(expired, now) => StepRequeue(s, expired, now)
    case Cancel(id, now) => StepCancel(s, id, now)
    case Retry(id, now) => StepRetry(s, id, now)
    case SetWorker(w, record, now) => Outcome(Tick(s, now).(workers := s.workers[w := record]), Acknowledged)
    case SetBackends(table, now) => Outcome(Tick(s, now).(backends := table), Acknowledged)
    case SetPipeline(id, pipeline, now) =>
      Outcome(
        Tick(s, now).(pipelines := if pipeline.Some? then s.pipelines[id := pipeline.value] else s.pipelines - {id}),
        Acknowledged)
  }

  /** The pipeline that `_select_pipeline` may come back with. */
  ghost predicate Choosable(s: Store, t: Task, p: PipelineRef) {
    && p in s.pipelines && t.request.source.Some?
    && Router.PipelineSupports(s.pipelines[p], t.request.source.value)
    && (t.pipelineId.Some? ==> p.id == t.pipelineId.value)
    && (t.pipelineVersion.Some? ==> p.version == t.pipelineVersion.value)
  }

  /** Time does not run backwards, identifiers are fresh, inputs passed schema validation, queries told the truth. */
  ghost predicate Admissible(s: Store, a: Action) {
    && s.clock <= a.now
    && match a
       case Create(id, request, _, _) =>
         id !in s.tasks && OptionsValid(request.options)
         && (request.pipelineVersion.Some? ==> request.pipelineId.Some?)
       case Route(id, choice, _) =>
         id in s.tasks ==>
           (match choice
            case Some(p) => Choosable(s, s.tasks[id], p)
            case None => forall p :: !Choosable(s, s.tasks[id], p))
       case AcquireLeases(_, slots, pending, now) => 1 <= slots && Leasable(s, pending, now)
       case Progress(_, _, _, percent, _) => 0.0 <= percent <= 100.0
       case RequeueExpired(expired, now) => Expired(s, expired, now)
       case SetWorker(_, record, _) => WorkerValid(record)
       case SetBackends(table, _) => Router.TableValid(table)
       case SetPipeline(_, pipeline, _) => pipeline.Some? ==> Router.PipelineValid(pipeline.value)
       case _ => true
  }

  ghost function Run(s: Store, actions: seq<Action>): Store {
    if actions == [] then s else Step(Run(s, actions[..|actions| - 1]), actions[|actions| - 1]).store
  }

  /** Every action of the run is admissible where it happens. */
  ghost predicate Feasible(s: Store, actions: seq<Action>) {
    forall i :: 0 <= i < |actions| ==> Admissible(Run(s, actions[..i]), actions[i])
  }
}

/** When each call on a held stage or an owned task succeeds, and what it leaves behind, over every valid store. */
module Operations {
  import opened Common
  import opened Records
  import opened Lifecycle
  import opened TaskInvariant
  import opened Protocol
  import opened SystemInvariant
  import Router

  /** The worker holds the stage under this token, and the lease has not run out. */
  ghost predicate LeaseHeld(s: Stage, worker: WorkerId, token: Token, now: Time) {
    && s.status.Active() && s.worker == Some(worker) && s.token == Some(LeaseDigest(token))
    && s.expiresAt.Some? && now < s.expiresAt.value
  }

  ghost predicate HoldsLease(s: Store, r: StageRef, worker: WorkerId, token: Token, now: Time) {
    HasStage(s, r) && LeaseHeld(StageAt(s, r), worker, token, now)
  }

  /** Nothing but the named stage and its task row may differ. */
  ghost predicate OnlyStage(s: Store, n: Store, r: StageRef) {
    && n.tasks.Keys == s.tasks.Keys && n.workers == s.workers && n.issued == s.issued
    && (forall q :: HasStage(s, q) <==> HasStage(n, q))
    && (forall q :: HasStage(s, q) && q != r ==> StageAt(n, q) == StageAt(s, q))
  }

  lemma PutOnly(s: Store, r: StageRef, u: Task, now: Time)
    requires HasStage(s, r) && |u.stages| == |s.tasks[r.task].stages|
    requires u.stages == s.tasks[r.task].stages[r.position := u.stages[r.position]]
    ensures var n := PutTask(s, r.task, u, now);
      && OnlyStage(s, n, r) && HasStage(n, r) && StageAt(n, r) == u.stages[r.position] && n.tasks[r.task] == u
  {
  }

  /** The token check passes for the live holder and nobody else. */
  lemma ValidIffHeld(s: Stage, worker: WorkerId, token: Token, clock: Time, now: Time)
    requires StageInv(s, clock)
    ensures RequireValidLease(s, worker, token, now).Success? <==> LeaseHeld(s, worker, token, now)
  {
  }

  /** A renewal succeeds exactly for the live holder, whose token is then good for a full lease period. */
  lemma RenewIff(s: Store, r: StageRef, worker: WorkerId, token: Token, now: Time)
    requires Inv(s) && s.clock <= now
    ensures var done := StepRenew(s, r, worker, token, now);
      && (done.reply.Renewal? <==> HoldsLease(s, r, worker, token, now))
      && (!done.reply.Renewal? ==> done.store == Tick(s, now))
      && (done.reply.Renewal? ==>
            && done.reply.expiresAt == now + s.config.leaseSeconds
            && OnlyStage(s, done.store, r) && StageAt(done.store, r).status == StageAt(s, r).status
            && (forall t :: t < now + s.config.leaseSeconds ==> HoldsLease(done.store, r, worker, token, t)))
  {
    hide Inv, TaskInv, StageInv, OnlyStage, RequireValidLease;
    if HasStage(s, r) {
      StageHolds(s, r);
      ValidIffHeld(StageAt(s, r), worker, token, s.clock, now);
      PutOnly(s, r, WithStage(s.tasks[r.task], r.position, Renewed(StageAt(s, r), LeaseExpiry(s, now), now)), now);
    }
  }

  /** The reply tells the rows as they now stand. */
  ghost predicate Reports(s: Store, r: StageRef, reply: Reply) {
    && HasStage(s, r) && reply.Execution?
    && reply.stageStatus == StageAt(s, r).status && reply.leaseExpiresAt == StageAt(s, r).expiresAt
    && reply.taskStatus == s.tasks[r.task].status && reply.progress == s.tasks[r.task].progress
  }

  /** The task keeps the time its first stage started, and its progress. */
  ghost predicate FirstStart(before: Task, after: Task, now: Time) {
    && (before.startedAt.Some? ==> after.startedAt == before.startedAt)
    && (before.startedAt.None? ==> after.startedAt == Some(now))
    && after.progress == before.progress
  }

  /** A start succeeds exactly for the live holder of a leased stage, and leaves stage and task running. */
  lemma StartIff(s: Store, r: StageRef, worker: WorkerId, token: Token, now: Time)
    requires Inv(s) && s.clock <= now
    ensures var done := StepStart(s, r, worker, token, now);
      && (done.reply.Execution? <==> HoldsLease(s, r, worker, token, now) && StageAt(s, r).status.Leased?)
      && (!done.reply.Execution? ==> done.store == Tick(s, now))
      && (done.reply.Execution? ==>
            && OnlyStage(s, done.store, r) && StageAt(done.store, r).status.Running?
            && done.store.tasks[r.task].status.Running? && StageAt(done.store, r).startedAt == Some(now)
            && FirstStart(s.tasks[r.task], done.store.tasks[r.task], now) && Reports(done.store, r, done.reply)
            && HoldsLease(done.store, r, worker, token, now))
  {
    hide Inv, TaskInv, StageInv, OnlyStage, StartStage;
    if HasStage(s, r) {
      StageHolds(s, r);
      StartRow(s.tasks[r.task], r.position, worker, token, s.clock, now);
      var u := StartStage(s.tasks[r.task], r.position, worker, token, now);
      if u.Success? {
        PutOnly(s, r, u.value, now);
      }
    }
  }

  lemma StartRow(t: Task, i: nat, worker: WorkerId, token: Token, clock: Time, now: Time)
    requires TaskInv(t, clock) && i < |t.stages| && StageInv(t.stages[i], clock) && clock <= now
    ensures var u := StartStage(t, i, worker, token, now);
      && (u.Success? <==> LeaseHeld(t.stages[i], worker, token, now) && t.stages[i].status.Leased?)
      && (u.Success? ==>
            && |u.value.stages| == |t.stages| && u.value.stages == t.stages[i := u.value.stages[i]]
            && u.value.status.Running? && u.value.stages[i].status.Running? && u.value.stages[i].startedAt == Some(now)
            && FirstStart(t, u.value, now)
            && LeaseHeld(u.value.stages[i], worker, token, now))
  {
    ValidIffHeld(t.stages[i], worker, token, clock, now);
    StartKeeps(t, i, worker, token, clock, now);
    if t.stages[i].status.Active() {
      HeldTask(t, i, clock);
    }
    hide TaskInv;
  }

  /** A progress report succeeds exactly for the live holder of a running stage; it moves no status. */
  lemma ProgressIff(s: Store, r: StageRef, worker: WorkerId, token: Token, percent: real, now: Time)
    requires Inv(s) && s.clock <= now
    ensures var done := StepProgress(s, r, worker, token, percent, now);
      && (done.reply.Execution? <==> HoldsLease(s, r, worker, token, now) && StageAt(s, r).status.Running?)
      && (!done.reply.Execution? ==> done.store == Tick(s, now))
      && (done.reply.Execution? ==>
            && OnlyStage(s, done.store, r) && StageAt(done.store, r).progress == percent
            && StageAt(done.store, r).status.Running? && done.store.tasks[r.task].status == s.tasks[r.task].status
            && Averaged(done.store.tasks[r.task]) && Reports(done.store, r, done.reply)
            && HoldsLease(done.store, r, worker, token, now))
  {
    hide Inv, TaskInv, StageInv, OnlyStage, RequireValidLease, UpdateProgress, Averaged;
    if HasStage(s, r) {
      StageHolds(s, r);
      ValidIffHeld(StageAt(s, r), worker, token, s.clock, now);
      var moved := WithStage(s.tasks[r.task], r.position, StageAt(s, r).(progress := percent, updatedAt := now));
      ProgressFrame(moved, now);
      PutOnly(s, r, UpdateProgress(moved, now), now);
    }
  }

  /** The progress of the task is the mean over its stages. */
  ghost predicate Averaged(t: Task) {
    t.progress * |t.stages| as real == CountedSum(t.stages)
  }

  lemma ProgressFrame(t: Task, now: Time)
    requires t.stages != []
    ensures UpdateProgress(t, now).stages == t.stages && UpdateProgress(t, now).status == t.status
    ensures Averaged(UpdateProgress(t, now))
  {
    MeanExact(t, now);
  }

  ghost predicate OnlyTask(s: Store, n: Store, id: TaskId) {
    && n.tasks.Keys == s.tasks.Keys && n.workers == s.workers && n.issued == s.issued
    && (forall x :: x in s.tasks && x != id ==> n.tasks[x] == s.tasks[x])
  }

  /** A cancellation succeeds exactly for an unfinished task; done stages stay, all others are cancelled. */
  lemma CancelIff(s: Store, id: TaskId, now: Time)
    requires Inv(s) && s.clock <= now && id in s.tasks
    ensures var done := StepCancel(s, id, now);
      && (done.reply == Stored(id) <==> !s.tasks[id].status.Terminal())
      && (done.reply != Stored(id) ==> done.reply == Raised(TaskNotCancellable) && done.store == Tick(s, now))
      && (done.reply == Stored(id) ==>
            && OnlyTask(s, done.store, id) && done.store.tasks[id].status.Cancelled?
            && done.store.tasks[id].completedAt == Some(now) && done.store.tasks[id].progress == s.tasks[id].progress
            && AllCancelled(s.tasks[id].stages, done.store.tasks[id].stages, now))
  {
    hide Inv, TaskInv, CancelTask, AllCancelled;
    var t := s.tasks[id];
    TaskHolds(s, id);
    CancelKeeps(t, s.clock, now);
    CancelRow(t, s.clock, now);
  }

  ghost predicate AllCancelled(a: seq<Stage>, b: seq<Stage>, now: Time) {
    |b| == |a| && forall i :: 0 <= i < |a| ==> if a[i].status.Done() then b[i] == a[i] else Called(a[i], b[i], now)
  }

  /** Cancelled: the lease and any completion on record are gone; worker and device stay on record. */
  ghost predicate Called(a: Stage, b: Stage, now: Time) {
    && b.status.Cancelled? && b.completedAt == Some(now) && b.token.None? && b.expiresAt.None?
    && b.completionRequest.None? && b.completionWorker.None? && b.completionToken.None? && b.completionDevice.None?
    && b.spec == a.spec && b.worker == a.worker && b.device == a.device && b.attempt == a.attempt
    && b.progress == a.progress
  }

  lemma CancelRow(t: Task, clock: Time, now: Time)
    requires TaskInv(t, clock)
    ensures var u := CancelTask(t, now);
      u.Success? ==> (
        && u.value.status.Cancelled? && u.value.completedAt == Some(now) && u.value.progress == t.progress
        && AllCancelled(t.stages, u.value.stages, now))
  {
    if CancelTask(t, now).Success? {
      OpenOrDone(t, clock);
    }
    hide TaskInv;
  }

  lemma OpenOrDone(t: Task, clock: Time)
    requires TaskInv(t, clock) && !t.status.Terminal()
    ensures forall i :: 0 <= i < |t.stages| ==> t.stages[i].status.Open() || t.stages[i].status.Done()
  {
  }

  /** A manual retry succeeds exactly for a failed or cancelled task; done stages stay, all others start afresh. */
  lemma RetryIff(s: Store, id: TaskId, now: Time)
    requires Inv(s) && s.clock <= now && id in s.tasks
    ensures var done := StepRetry(s, id, now);
      && (done.reply == Stored(id) <==> s.tasks[id].status.Failed? || s.tasks[id].status.Cancelled?)
      && (done.reply != Stored(id) ==> done.reply == Raised(TaskNotRetryable) && done.store == Tick(s, now))
      && (done.reply == Stored(id) ==>
            && OnlyTask(s, done.store, id) && done.store.tasks[id].status.Pending?
            && Blank(done.store.tasks[id])
            && AllFresh(s.tasks[id].stages, done.store.tasks[id].stages))
  {
    hide Inv, TaskInv, RetryTask, AllFresh, Blank;
    var t := s.tasks[id];
    TaskHolds(s, id);
    RetryKeeps(t, s.clock, now);
    RetryRow(t, s.clock, now);
  }

  /** The task row carries no progress and no outcome. */
  ghost predicate Blank(t: Task) {
    t.progress == 0.0 && t.error.None? && t.resultUri.None? && t.startedAt.None? && t.completedAt.None?
  }

  ghost predicate AllFresh(a: seq<Stage>, b: seq<Stage>) {
    |b| == |a| && forall i :: 0 <= i < |a| ==> if a[i].status.Done() then b[i] == a[i] else Fresh(a[i], b[i])
  }

  lemma RetryRow(t: Task, clock: Time, now: Time)
    requires TaskInv(t, clock)
    ensures var u := RetryTask(t, now);
      u.Success? ==> u.value.status.Pending? && Blank(u.value) && AllFresh(t.stages, u.value.stages)
  {
    if RetryTask(t, now).Success? {
      OverOrDone(t, clock);
    }
    hide TaskInv;
  }

  ghost predicate Fresh(a: Stage, b: Stage) {
    b.spec == a.spec && b.status.Pending? && b.attempt == 0 && b.progress == 0.0 && b.token.None? && b.worker.None?
      && b.completionRequest.None? && b.completionWorker.None? && b.completionToken.None? && b.completionDevice.None?
      && b.availableAt == a.availableAt && b.device == a.device && b.error.None? && b.startedAt.None?
  }

  lemma OverOrDone(t: Task, clock: Time)
    requires TaskInv(t, clock) && (t.status.Failed? || t.status.Cancelled?)
    ensures forall i :: 0 <= i < |t.stages| ==>
      t.stages[i].status.Failed? || t.stages[i].status.Cancelled? || t.stages[i].status.Done()
  {
  }

  // ---------- completion ----------

  /** An accepted completion answers with the rows it leaves. */
  lemma CompletionReply(s: Store, r: StageRef, request: CompleteRequest, now: Time)
    requires Inv(s) && s.clock <= now && HasStage(s, r) && Applies(StageAt(s, r), request, now)
    ensures var done := StepComplete(s, r, request, now); Reports(done.store, r, done.reply)
  {
    hide Inv, CompleteStage, TaskInv, StageInv, Idle;
    TaskHolds(s, r.task);
    CompletionOutcome(s.tasks[r.task], r.position, request, s.clock, now);
  }

  /** A replayed completion answers with the rows as they stand. */
  lemma ReplayReply(s: Store, r: StageRef, request: CompleteRequest, now: Time)
    requires HasStage(s, r) && Replays(StageAt(s, r), request)
    ensures Reports(s, r, StepComplete(s, r, request, now).reply)
  {
  }

  // ---------- workers going busy and idle ----------

  /** Only the status of a worker may differ. */
  ghost predicate OnlyStatus(a: Worker, b: Worker) {
    b == a.(status := b.status)
  }

  /** A released worker is online exactly if it was enabled and busy and holds nothing; nobody else changes. */
  lemma ReleaseMeans(s: Store, ids: set<WorkerId>, w: WorkerId)
    requires w in s.workers
    ensures var n := ReleaseIdle(s, ids);
      && w in n.workers && OnlyStatus(s.workers[w], n.workers[w]) && n.tasks == s.tasks
      && n.workers[w].status ==
          if w in ids && s.workers[w].enabled && s.workers[w].status.Busy? && (forall r :: !Holds(s, r, w)) then Online
          else s.workers[w].status
  {
    forall r | Holds(s, r, w) ensures r in HeldBy(s, w) {
      assert r == StageRef(r.task, r.position);
    }
    assert HeldBy(s, w) == {} <==> forall r :: !Holds(s, r, w);
  }

  /** After an accepted completion its worker, if enabled and busy and holding nothing more, is online. */
  lemma CompletionReleases(s: Store, r: StageRef, request: CompleteRequest, now: Time)
    requires Inv(s) && s.clock <= now && HasStage(s, r) && Applies(StageAt(s, r), request, now)
    requires request.worker in s.workers
    ensures var n, w := StepComplete(s, r, request, now).store, request.worker;
      && w in n.workers && OnlyStatus(s.workers[w], n.workers[w])
      && n.workers[w].status ==
          if s.workers[w].enabled && s.workers[w].status.Busy? && (forall q :: !Holds(n, q, w)) then Online
          else s.workers[w].status
  {
    hide Inv, CompleteStage, TaskInv, StageInv, ReleaseIdle;
    TaskHolds(s, r.task);
    CompletionOutcome(s.tasks[r.task], r.position, request, s.clock, now);
    var u := CompleteStage(s.tasks[r.task], r.position, request, now);
    var put := PutTask(s, r.task, u.value, now);
    ReleaseMeans(put, {request.worker}, request.worker);
    var n := StepComplete(s, r, request, now).store;
    assert n == ReleaseIdle(put, {request.worker});
    assert forall q :: Holds(n, q, request.worker) <==> Holds(put, q, request.worker);
  }

  // ---------- creation and routing ----------

  /** A task as creation stores it. */
  ghost predicate JustCreated(t: Task, request: CreateRequest, key: Option<Label>, now: Time) {
    && t.request == request && t.key == key && t.status.Pending? && Blank(t) && t.stages == []
    && t.createdAt == now && t.pipelineId == request.pipelineId && t.pipelineVersion == request.pipelineVersion
  }

  /** Without a key in use, creation stores a fresh pending task exactly when a named pipeline exists. */
  lemma CreateIff(s: Store, id: TaskId, request: CreateRequest, key: Option<Label>, now: Time)
    requires id !in s.tasks && forall x :: x in s.tasks && key.Some? ==> s.tasks[x].key != key
    ensures var done := StepCreate(s, id, request, key, now);
      && (done.reply == Stored(id) <==>
            (request.pipelineId.Some? ==>
               request.pipelineVersion.Some?
               && PipelineRef(request.pipelineId.value, request.pipelineVersion.value) in s.pipelines))
      && (done.reply != Stored(id) ==> done.reply == Raised(PipelineNotFound) && done.store == Tick(s, now))
      && (done.reply == Stored(id) ==> id in done.store.tasks)
      && (done.reply == Stored(id) ==> JustCreated(done.store.tasks[id], request, key, now))
      && (forall x :: x in s.tasks ==> x in done.store.tasks && done.store.tasks[x] == s.tasks[x])
  {
    assert TasksWithKey(s, key) == {};
  }

  /** Some backend in the table may serve the stage definition. */
  ghost predicate Servable(s: Store, t: Task, d: Router.StageDefinition)
    requires t.request.source.Some?
  {
    exists b :: b in s.backends && Router.Usable(b, d, t.request.options, t.request.source.value)
  }

  /** The plan of the pipeline, definition by definition, and the task bound to it. */
  ghost predicate PlannedBy(before: Task, after: Task, p: PipelineRef, defs: seq<Router.StageDefinition>, now: Time) {
    && after.pipelineId == Some(p.id) && after.pipelineVersion == Some(p.version)
    && after == before.(stages := after.stages, pipelineId := after.pipelineId,
         pipelineVersion := after.pipelineVersion, updatedAt := now)
    && |after.stages| == |defs|
    && (forall i :: 0 <= i < |defs| ==> Router.PlannedFrom(after.stages[i], defs[i], i, now))
  }

  lemma ServableIff(s: Store, t: Task, d: Router.StageDefinition)
    requires Router.TableValid(s.backends) && Router.DefinitionValid(d) && t.request.source.Some?
    ensures Servable(s, t, d) <==> Router.Candidates(s.backends, d, t.request.options, t.request.source.value) != []
  {
    var candidates := Router.Candidates(s.backends, d, t.request.options, t.request.source.value);
    Router.CandidateProperties(s.backends, d, t.request.options, t.request.source.value);
    if candidates != [] {
      assert candidates[0] in candidates;
    }
  }

  /** When routing a pending task without stages succeeds, why it fails, and the plan it leaves. */
  lemma RouteIff(s: Store, id: TaskId, p: PipelineRef, now: Time)
    requires Inv(s) && s.clock <= now && id in s.tasks && p in s.pipelines
    ensures var done, t := StepRoute(s, id, Some(p), now), s.tasks[id];
      && (!t.status.Pending? <==> done.reply == Raised(TaskAlreadyRouted))
      && (t.status.Pending? && t.stages != [] ==> done.reply == Stored(id) && done.store.tasks == s.tasks)
      && (t.status.Pending? && t.stages == [] && t.request.source.None? ==> done.reply == Raised(SourceUnresolved))
      && (t.status.Pending? && t.stages == [] && t.request.source.Some? ==>
            var defs := s.pipelines[p].stages;
            if forall i :: 0 <= i < |defs| ==> Servable(s, t, defs[i]) then
              && done.reply == Stored(id) && OnlyTask(s, done.store, id)
              && PlannedBy(t, done.store.tasks[id], p, defs, now)
            else done.reply == Raised(RoutingUnavailable))
      && (done.reply != Stored(id) ==> done.store == Tick(s, now))
  {
    hide Inv, Router.PlanStages, Servable, Router.PlannedFrom, OnlyTask, Router.DefinitionValid, Router.TableValid;
    var t, defs := s.tasks[id], s.pipelines[p].stages;
    TablesHold(s, id, p);
    if t.request.source.Some? {
      RoutePlans(s, t, defs, now);
    }
    var u := Router.RouteTask(s.backends, t, Some(s.pipelines[p]), p.id, p.version, now);
    RouteRow(s.backends, t, s.pipelines[p], p.id, p.version, now);
    if u.Success? {
      PutRow(s, id, u.value, now);
    }
    hide Router.RouteTask, PutTask;
  }

  lemma TablesHold(s: Store, id: TaskId, p: PipelineRef)
    requires Inv(s) && id in s.tasks && p in s.pipelines
    ensures Router.TableValid(s.backends) && OptionsValid(s.tasks[id].request.options)
    ensures forall i :: 0 <= i < |s.pipelines[p].stages| ==> Router.DefinitionValid(s.pipelines[p].stages[i])
  {
    assert Router.PipelineValid(s.pipelines[p]);
  }

  lemma PutRow(s: Store, id: TaskId, u: Task, now: Time)
    requires id in s.tasks
    ensures var n := PutTask(s, id, u, now); OnlyTask(s, n, id) && n.tasks == s.tasks[id := u] && n.tasks[id] == u
  {
  }

  lemma RouteRow(table: seq<Backend>, t: Task, pipeline: Router.Pipeline, id: nat, version: nat, now: Time)
    ensures var u := Router.RouteTask(table, t, Some(pipeline), id, version, now);
      && (!t.status.Pending? ==> u == Failure(TaskAlreadyRouted))
      && (t.status.Pending? && t.stages != [] ==> u == Success(t))
      && (t.status.Pending? && t.stages == [] && t.request.source.None? ==> u == Failure(SourceUnresolved))
      && (t.status.Pending? && t.stages == [] && t.request.source.Some? ==>
            var plan := Router.PlanStages(table, pipeline.stages, t.request.options, t.request.source.value, now);
            if plan.Failure? then u == Failure(plan.fault)
            else
              u == Success(t.(stages := plan.value, pipelineId := Some(id), pipelineVersion := Some(version),
                updatedAt := now)))
  {
  }

  lemma RoutePlans(s: Store, t: Task, defs: seq<Router.StageDefinition>, now: Time)
    requires Router.TableValid(s.backends) && OptionsValid(t.request.options) && t.request.source.Some?
    requires forall i :: 0 <= i < |defs| ==> Router.DefinitionValid(defs[i])
    ensures var plan := Router.PlanStages(s.backends, defs, t.request.options, t.request.source.value, now);
      && (plan.Success? <==> forall i :: 0 <= i < |defs| ==> Servable(s, t, defs[i]))
      && (plan.Failure? ==> plan.fault == RoutingUnavailable)
      && (plan.Success? ==> |plan.value| == |defs|)
      && (plan.Success? ==> forall i :: 0 <= i < |defs| ==> Router.PlannedFrom(plan.value[i], defs[i], i, now))
  {
    var o, source := t.request.options, t.request.source.value;
    Router.PlanImage(s.backends, defs, o, source, now);
    forall i | 0 <= i < |defs|
      ensures Servable(s, t, defs[i]) <==> Router.Candidates(s.backends, defs[i], o, source) != []
    {
      ServableIff(s, t, defs[i]);
    }
    var plan := Router.PlanStages(s.backends, defs, o, source, now);
    hide Router.PlanStages, Router.Candidates, Servable;
    if plan.Success? {
      forall i | 0 <= i < |defs| ensures Router.PlannedFrom(plan.value[i], defs[i], i, now) {
        Router.PlannedStage(s.backends, defs[i], i, o, source, now);
      }
    }
  }
}

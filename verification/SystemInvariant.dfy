/** The invariant of the whole store, and the proof that every action keeps it. */
module SystemInvariant {
  import opened Common
  import opened TaskState
  import opened Records
  import opened Lifecycle
  import opened TaskInvariant
  import opened Movement
  import opened Protocol
  import Router
  import PipelineDag

  /** The task status that the published events add up to; nothing if they do not chain along the table. */
  function Replay(log: seq<StatusEvent>, id: TaskId): Option<TaskStatus> {
    if log == [] then Some(TaskStatus.Pending)
    else
      var before, e := Replay(log[..|log| - 1], id), log[|log| - 1];
      if e.task != id then before
      else if before == Some(e.previous) && e.current in TaskTransitions(e.previous) then Some(e.current)
      else None
  }

  function StatusOf(s: Store, id: TaskId): TaskStatus {
    if id in s.tasks then s.tasks[id].status else TaskStatus.Pending
  }

  ghost predicate TasksInv(s: Store) {
    forall id :: id in s.tasks ==> TaskInv(s.tasks[id], s.clock) && OptionsValid(s.tasks[id].request.options)
  }

  /** Tokens were issued, and no two stages share one. */
  ghost predicate TokensInv(s: Store) {
    && (forall id, i :: id in s.tasks && 0 <= i < |s.tasks[id].stages| && s.tasks[id].stages[i].token.Some? ==>
          s.tasks[id].stages[i].token.value.token.serial < s.issued)
    && (forall a, i, b, j :: a in s.tasks && b in s.tasks
          && 0 <= i < |s.tasks[a].stages| && 0 <= j < |s.tasks[b].stages|
          && s.tasks[a].stages[i].token.Some? && s.tasks[a].stages[i].token == s.tasks[b].stages[j].token
          ==> a == b && i == j)
  }

  ghost predicate LogInv(s: Store) {
    forall id :: Replay(s.log, id) == Some(StatusOf(s, id))
  }

  ghost predicate KeysInv(s: Store) {
    forall a, b :: a in s.tasks && b in s.tasks && s.tasks[a].key.Some? && s.tasks[a].key == s.tasks[b].key ==> a == b
  }

  ghost predicate TablesInv(s: Store) {
    && 0.0 < s.config.memoryCap <= 100.0 && 1.0 <= s.config.leaseSeconds
    && (forall w :: w in s.workers ==> WorkerValid(s.workers[w]))
    && Router.TableValid(s.backends)
    && (forall p :: p in s.pipelines ==> Router.PipelineValid(s.pipelines[p]))
  }

  ghost predicate Inv(s: Store) {
    TasksInv(s) && TokensInv(s) && LogInv(s) && KeysInv(s) && TablesInv(s)
  }

  lemma TaskHolds(s: Store, id: TaskId)
    requires Inv(s) && id in s.tasks
    ensures TaskInv(s.tasks[id], s.clock)
  {
  }

  lemma StageHolds(s: Store, r: StageRef)
    requires Inv(s) && HasStage(s, r)
    ensures TaskInv(s.tasks[r.task], s.clock) && StageInv(StageAt(s, r), s.clock)
  {
    assert StageInv(s.tasks[r.task].stages[r.position], s.clock);
  }

  // ---------- writing one task ----------

  /** Tokens of the new rows: none, the old one, or the fresh one in a single place. */
  ghost predicate TokensStep(before: seq<Stage>, after: seq<Stage>, issued: nat, next: nat) {
    && (next == issued || next == issued + 1)
    && (forall i :: 0 <= i < |after| && after[i].token.Some? ==>
          || (i < |before| && after[i].token == before[i].token)
          || (next == issued + 1 && after[i].token == Some(LeaseDigest(Token(issued)))))
    && (forall i, j ::
          0 <= i < |after| && 0 <= j < |after|
          && after[i].token == Some(LeaseDigest(Token(issued))) && after[j].token == after[i].token
          ==> i == j)
  }

  lemma PutTokens(s: Store, id: TaskId, u: Task, now: Time, next: nat)
    requires TokensInv(s) && id in s.tasks && TokensStep(s.tasks[id].stages, u.stages, s.issued, next)
    ensures TokensInv(PutTask(s, id, u, now).(issued := next))
  {
  }

  lemma PutLog(s: Store, id: TaskId, u: Task, now: Time)
    requires LogInv(s) && id in s.tasks
    requires u.status == s.tasks[id].status || u.status in TaskTransitions(s.tasks[id].status)
    ensures LogInv(PutTask(s, id, u, now))
  {
    var previous := s.tasks[id].status;
    var r := PutTask(s, id, u, now);
    if u.status != previous {
      var e := StatusEvent(id, previous, u.status);
      assert r.log[..|r.log| - 1] == s.log && r.log[|r.log| - 1] == e;
    }
    forall x ensures Replay(r.log, x) == Some(StatusOf(r, x)) {
      assert Replay(s.log, x) == Some(StatusOf(s, x));
    }
  }

  lemma PutTasks(s: Store, id: TaskId, u: Task, now: Time)
    requires TasksInv(s) && id in s.tasks && s.clock <= now
    requires TaskInv(u, now) && u.request == s.tasks[id].request
    ensures TasksInv(PutTask(s, id, u, now))
  {
    forall x | x in s.tasks && x != id ensures TaskInv(s.tasks[x], now) {
      Age(s.tasks[x], s.clock, now);
    }
  }

  ghost predicate MayPut(s: Store, id: TaskId, u: Task, now: Time) {
    && id in s.tasks && s.clock <= now
    && TaskInv(u, now)
    && (u.status == s.tasks[id].status || u.status in TaskTransitions(s.tasks[id].status))
    && u.request == s.tasks[id].request && u.key == s.tasks[id].key
  }

  lemma PutKeeps(s: Store, id: TaskId, u: Task, now: Time, next: nat)
    requires Inv(s) && MayPut(s, id, u, now) && TokensStep(s.tasks[id].stages, u.stages, s.issued, next)
    ensures Inv(PutTask(s, id, u, now).(issued := next))
  {
    PutTasks(s, id, u, now);
    PutTokens(s, id, u, now, next);
    PutLog(s, id, u, now);
    var r := PutTask(s, id, u, now).(issued := next);
    assert TasksInv(r) && LogInv(r) by {
      assert TasksInv(PutTask(s, id, u, now)) && LogInv(PutTask(s, id, u, now));
      SameViews(PutTask(s, id, u, now), r);
    }
  }

  /** The task and log parts read nothing but tasks, clock and log. */
  lemma SameViews(s: Store, r: Store)
    requires r.tasks == s.tasks && r.clock == s.clock && r.log == s.log
    ensures TasksInv(s) ==> TasksInv(r)
    ensures LogInv(s) ==> LogInv(r)
    ensures KeysInv(s) ==> KeysInv(r)
    ensures r.issued == s.issued && TokensInv(s) ==> TokensInv(r)
  {
    if LogInv(s) {
      forall id ensures Replay(r.log, id) == Some(StatusOf(r, id)) {
        assert Replay(s.log, id) == Some(StatusOf(s, id));
      }
    }
  }

  lemma KeptTokens(before: seq<Stage>, after: seq<Stage>, s: Store, id: TaskId)
    requires TokensInv(s) && id in s.tasks && before == s.tasks[id].stages
    requires AllKept(before, after) || AllReset(before, after)
    ensures TokensStep(before, after, s.issued, s.issued)
  {
    forall i | 0 <= i < |after| && after[i].token.Some?
      ensures after[i].token == before[i].token && after[i].token.value.token.serial < s.issued
    {
      if AllKept(before, after) {
        assert Kept(before[i], after[i]);
      } else {
        assert Reset(before[i], after[i]);
      }
      assert before[i] == s.tasks[id].stages[i];
    }
  }

  lemma PutKept(s: Store, id: TaskId, u: Task, now: Time)
    requires Inv(s) && MayPut(s, id, u, now)
    requires AllKept(s.tasks[id].stages, u.stages) || AllReset(s.tasks[id].stages, u.stages)
    ensures Inv(PutTask(s, id, u, now))
  {
    KeptTokens(s.tasks[id].stages, u.stages, s, id);
    PutKeeps(s, id, u, now, s.issued);
    assert PutTask(s, id, u, now).(issued := s.issued) == PutTask(s, id, u, now);
  }

  lemma TickKeeps(s: Store, now: Time)
    requires Inv(s) && s.clock <= now
    ensures Inv(Tick(s, now))
  {
    forall x | x in s.tasks ensures TaskInv(s.tasks[x], now) {
      Age(s.tasks[x], s.clock, now);
    }
    forall id ensures Replay(s.log, id) == Some(StatusOf(Tick(s, now), id)) {
      assert Replay(s.log, id) == Some(StatusOf(s, id));
    }
  }

  lemma WorkersKeep(s: Store, workers: map<WorkerId, Worker>)
    requires Inv(s) && forall w :: w in workers ==> WorkerValid(workers[w])
    ensures Inv(s.(workers := workers))
  {
    SameViews(s, s.(workers := workers));
  }

  lemma ReleaseKeeps(s: Store, ids: set<WorkerId>)
    requires Inv(s)
    ensures Inv(ReleaseIdle(s, ids))
  {
    WorkersKeep(s, ReleaseIdle(s, ids).workers);
  }

  // ---------- the operations ----------

  /** No transition guard and no unexpected fault. */
  predicate Expected(reply: Reply) {
    reply.Raised? ==> !reply.fault.InvalidTaskTransition? && !reply.fault.InvalidStageTransition?
  }

  /** Committing a moved row keeps the invariant; a raised fault rolls back to the same rows. */
  lemma CommitKeeps(s: Store, id: TaskId, u: Result<Task>, reply: Reply, now: Time)
    requires Inv(s) && id in s.tasks && s.clock <= now && Expected(reply)
    requires u.Success? ==> MayPut(s, id, u.value, now)
    requires u.Success? ==> AllKept(s.tasks[id].stages, u.value.stages) || AllReset(s.tasks[id].stages, u.value.stages)
    requires u.Failure? ==> Expected(Raised(u.fault))
    ensures Inv(Commit(s, id, u, reply, now).store) && Expected(Commit(s, id, u, reply, now).reply)
  {
    if u.Success? {
      PutKept(s, id, u.value, now);
    } else {
      TickKeeps(s, now);
    }
  }

  lemma RenewCommits(s: Store, r: StageRef, worker: WorkerId, token: Token, expiresAt: Time, now: Time)
    requires Inv(s) && s.clock <= now && HasStage(s, r)
    ensures var done := Commit(
        s, r.task, RenewStage(s.tasks[r.task], r.position, worker, token, expiresAt, now), Renewal(expiresAt), now);
      Inv(done.store) && Expected(done.reply)
  {
    var t := s.tasks[r.task];
    RenewKeeps(t, r.position, worker, token, expiresAt, s.clock, now);
    RenewMoves(t, r.position, worker, token, expiresAt, now);
    CommitKeeps(s, r.task, RenewStage(t, r.position, worker, token, expiresAt, now), Renewal(expiresAt), now);
  }

  lemma RenewStepKeeps(s: Store, r: StageRef, worker: WorkerId, token: Token, now: Time)
    requires Inv(s) && s.clock <= now
    ensures Inv(StepRenew(s, r, worker, token, now).store) && Expected(StepRenew(s, r, worker, token, now).reply)
  {
    if HasStage(s, r) {
      RenewCommits(s, r, worker, token, LeaseExpiry(s, now), now);
    } else {
      TickKeeps(s, now);
    }
  }

  lemma StartStepKeeps(s: Store, r: StageRef, worker: WorkerId, token: Token, now: Time)
    requires Inv(s) && s.clock <= now
    ensures Inv(StepStart(s, r, worker, token, now).store) && Expected(StepStart(s, r, worker, token, now).reply)
  {
    if HasStage(s, r) {
      var t := s.tasks[r.task];
      var u := StartStage(t, r.position, worker, token, now);
      StartKeeps(t, r.position, worker, token, s.clock, now);
      StartMoves(t, r.position, worker, token, now);
      CommitKeeps(s, r.task, u, Report(u, r.position), now);
    } else {
      TickKeeps(s, now);
    }
  }

  lemma ProgressStepKeeps(s: Store, r: StageRef, worker: WorkerId, token: Token, percent: real, now: Time)
    requires Inv(s) && s.clock <= now && 0.0 <= percent <= 100.0
    ensures var done := StepProgress(s, r, worker, token, percent, now); Inv(done.store) && Expected(done.reply)
  {
    if HasStage(s, r) {
      var t := s.tasks[r.task];
      var u := ReportProgress(t, r.position, worker, token, percent, now);
      ProgressKeeps(t, r.position, worker, token, percent, s.clock, now);
      ProgressMoves(t, r.position, worker, token, percent, now);
      CommitKeeps(s, r.task, u, Report(u, r.position), now);
    } else {
      TickKeeps(s, now);
    }
  }

  lemma CompleteStepKeeps(s: Store, r: StageRef, request: CompleteRequest, now: Time)
    requires Inv(s) && s.clock <= now
    ensures Inv(StepComplete(s, r, request, now).store) && Expected(StepComplete(s, r, request, now).reply)
  {
    hide Inv, TaskInv, CompleteStage, Idle;
    if HasStage(s, r) {
      TaskHolds(s, r.task);
    }
    if !HasStage(s, r) || s.tasks[r.task].stages[r.position].completionRequest.Some? {
      TickKeeps(s, now);
      if HasStage(s, r) {
        CompleteKeeps(s.tasks[r.task], r.position, request, s.clock, now);
      }
    } else {
      var t := s.tasks[r.task];
      var u := CompleteStage(t, r.position, request, now);
      CompleteKeeps(t, r.position, request, s.clock, now);
      if Applies(t.stages[r.position], request, now) {
        CompleteMoves(t, r.position, request, s.clock, now);
      }
      CommitKeeps(s, r.task, u, Report(u, r.position), now);
      ReleaseKeeps(Commit(s, r.task, u, Report(u, r.position), now).store, {request.worker});
    }
  }

  lemma CancelStepKeeps(s: Store, id: TaskId, now: Time)
    requires Inv(s) && s.clock <= now
    ensures Inv(StepCancel(s, id, now).store) && Expected(StepCancel(s, id, now).reply)
  {
    if id in s.tasks {
      CancelKeeps(s.tasks[id], s.clock, now);
      CancelMoves(s.tasks[id], now);
      CommitKeeps(s, id, CancelTask(s.tasks[id], now), Stored(id), now);
    } else {
      TickKeeps(s, now);
    }
  }

  lemma RetryStepKeeps(s: Store, id: TaskId, now: Time)
    requires Inv(s) && s.clock <= now
    ensures Inv(StepRetry(s, id, now).store) && Expected(StepRetry(s, id, now).reply)
  {
    if id in s.tasks {
      RetryKeeps(s.tasks[id], s.clock, now);
      RetryMoves(s.tasks[id], now);
      CommitKeeps(s, id, RetryTask(s.tasks[id], now), Stored(id), now);
    } else {
      TickKeeps(s, now);
    }
  }

  lemma RouteStepKeeps(s: Store, id: TaskId, choice: Option<PipelineRef>, now: Time)
    requires Inv(s) && s.clock <= now
    ensures Inv(StepRoute(s, id, choice, now).store) && Expected(StepRoute(s, id, choice, now).reply)
  {
    TickKeeps(s, now);
    if id in s.tasks {
      var usable := choice.Some? && choice.value in s.pipelines;
      var pipeline := if usable then Some(s.pipelines[choice.value]) else None;
      var n, v := if usable then choice.value.id else 0, if usable then choice.value.version else 0;
      var t := s.tasks[id];
      Router.RouteKeeps(s.backends, t, pipeline, n, v, s.clock, now);
      var u := Router.RouteTask(s.backends, t, pipeline, n, v, now);
      if u.Success? {
        RoutedTokens(s, id, u.value, pipeline, n, v, now);
        PutKeeps(s, id, u.value, now, s.issued);
        assert PutTask(s, id, u.value, now).(issued := s.issued) == PutTask(s, id, u.value, now);
      }
    }
  }

  lemma RoutedTokens(
    s: Store, id: TaskId, u: Task, pipeline: Option<Router.Pipeline>, n: nat, v: nat, now: Time)
    requires Inv(s) && id in s.tasks && TaskInv(u, now)
    requires Router.RouteTask(s.backends, s.tasks[id], pipeline, n, v, now) == Success(u)
    ensures TokensStep(s.tasks[id].stages, u.stages, s.issued, s.issued)
    ensures u.request == s.tasks[id].request && u.key == s.tasks[id].key
  {
    hide TaskInv;
    RoutedFrame(s.backends, s.tasks[id], u, pipeline, n, v, now);
    if s.tasks[id].stages == [] {
      NoTokens(u, now);
    } else {
      forall i | 0 <= i < |u.stages| && u.stages[i].token.Some?
        ensures u.stages[i].token.value.token.serial < s.issued
      {
        assert u.stages[i] == s.tasks[id].stages[i];
      }
    }
  }

  lemma RoutedFrame(
    table: seq<Backend>, t: Task, u: Task, pipeline: Option<Router.Pipeline>, n: nat, v: nat, now: Time)
    requires Router.RouteTask(table, t, pipeline, n, v, now) == Success(u)
    ensures u.status.Pending? && u.request == t.request && u.key == t.key
    ensures t.stages != [] ==> u == t
  {
  }

  lemma NoTokens(u: Task, now: Time)
    requires TaskInv(u, now) && u.status.Pending?
    ensures forall i :: 0 <= i < |u.stages| ==> u.stages[i].token.None?
  {
    forall i | 0 <= i < |u.stages| ensures u.stages[i].token.None? {
      assert StageInv(u.stages[i], now);
    }
  }

  ghost predicate MayInsert(s: Store, id: TaskId, t: Task) {
    id !in s.tasks && TasksWithKey(s, t.key) == {} && t.stages == [] && t.status.Pending?
  }

  lemma InsertTasks(s: Store, id: TaskId, t: Task, now: Time)
    requires TasksInv(s) && s.clock <= now && TaskInv(t, now) && OptionsValid(t.request.options)
    ensures TasksInv(s.(tasks := s.tasks[id := t], clock := now))
  {
    forall x | x in s.tasks ensures TaskInv(s.tasks[x], now) {
      Age(s.tasks[x], s.clock, now);
    }
  }

  lemma InsertLog(s: Store, id: TaskId, t: Task, now: Time)
    requires LogInv(s) && MayInsert(s, id, t)
    ensures LogInv(s.(tasks := s.tasks[id := t], clock := now))
  {
    var r := s.(tasks := s.tasks[id := t], clock := now);
    forall x ensures Replay(r.log, x) == Some(StatusOf(r, x)) {
      assert Replay(s.log, x) == Some(StatusOf(s, x));
    }
  }

  lemma InsertKeys(s: Store, id: TaskId, t: Task, now: Time)
    requires KeysInv(s) && TokensInv(s) && MayInsert(s, id, t)
    ensures KeysInv(s.(tasks := s.tasks[id := t], clock := now))
    ensures TokensInv(s.(tasks := s.tasks[id := t], clock := now))
  {
    forall x | x in s.tasks && t.key.Some? ensures s.tasks[x].key != t.key {
      assert x !in TasksWithKey(s, t.key);
    }
  }

  lemma InsertKeeps(s: Store, id: TaskId, t: Task, now: Time)
    requires Inv(s) && s.clock <= now && MayInsert(s, id, t)
    requires TaskInv(t, now) && OptionsValid(t.request.options)
    ensures Inv(s.(tasks := s.tasks[id := t], clock := now))
  {
    InsertTasks(s, id, t, now);
    InsertLog(s, id, t, now);
    InsertKeys(s, id, t, now);
  }

  lemma CreateStepKeeps(s: Store, id: TaskId, request: CreateRequest, key: Option<Label>, now: Time)
    requires Inv(s) && Admissible(s, Create(id, request, key, now))
    ensures Inv(StepCreate(s, id, request, key, now).store) && Expected(StepCreate(s, id, request, key, now).reply)
  {
    if TasksWithKey(s, key) == {} && PipelineKnown(s, request) {
      NewTaskInv(request, key, now);
      InsertKeeps(s, id, NewTask(request, key, now), now);
    } else {
      TickKeeps(s, now);
    }
  }

  lemma NewTaskInv(request: CreateRequest, key: Option<Label>, now: Time)
    requires request.pipelineId.Some? <==> request.pipelineVersion.Some?
    ensures TaskInv(NewTask(request, key, now), now)
  {
    var t := NewTask(request, key, now);
    assert PipelineDag.WellFormed(NodesOf(t.stages)) by {
      assert NodesOf(t.stages) == [];
      forall p ensures !PipelineDag.Cycle(PipelineDag.GraphOf([]), p) {
        if |p| >= 2 {
          assert p[0] !in PipelineDag.GraphOf([]);
        }
      }
    }
  }

  // ---------- leasing ----------

  lemma OfferGates(s: Store, w: WorkerId, r: StageRef)
    requires w in s.workers && HasStage(s, r) && Offer(s, w, r).Some?
    ensures DependenciesDone(s.tasks[r.task].stages, r.position)
  {
  }

  /** The grant of one stage, and everything it leaves alone. */
  ghost predicate GrantEffect(s: Store, n: Store, w: WorkerId, r: StageRef, p: Placement, now: Time) {
    && HasStage(s, r) && n.tasks.Keys == s.tasks.Keys
    && (forall x :: x in n.tasks && x != r.task ==> n.tasks[x] == s.tasks[x])
    && OneHanded(s.tasks[r.task].stages, n.tasks[r.task].stages, r.position, Token(s.issued))
    && StageAt(n, r).worker == Some(w) && StageAt(n, r).device == Some(p.device)
    && n.tasks[r.task].request == s.tasks[r.task].request
    && !n.tasks[r.task].status.Terminal()
    && n.workers == s.workers && n.issued == s.issued + 1 && n.clock == now
    && n.config == s.config && n.backends == s.backends
  }

  ghost predicate Grantable(s: Store, r: StageRef) {
    && HasStage(s, r) && StageAt(s, r).status.Pending? && !s.tasks[r.task].status.Terminal()
    && DependenciesDone(s.tasks[r.task].stages, r.position)
  }

  lemma HandedTokens(s: Store, id: TaskId, i: nat, after: seq<Stage>)
    requires TokensInv(s) && id in s.tasks && OneHanded(s.tasks[id].stages, after, i, Token(s.issued))
    ensures TokensStep(s.tasks[id].stages, after, s.issued, s.issued + 1)
  {
    forall k | 0 <= k < |after| && k != i && after[k].token.Some?
      ensures after[k].token == s.tasks[id].stages[k].token && after[k].token.value.token.serial < s.issued
    {
      assert after[k] == s.tasks[id].stages[k];
    }
  }

  lemma GrantPut(s: Store, r: StageRef, w: WorkerId, p: Placement, expiresAt: Time, now: Time)
    requires Inv(s) && s.clock <= now && Grantable(s, r)
    ensures var u := GrantStage(s.tasks[r.task], r.position, w, p, Token(s.issued), expiresAt, now);
      u.Success? && Inv(PutTask(s, r.task, u.value, now).(issued := s.issued + 1))
  {
    var t, token := s.tasks[r.task], Token(s.issued);
    GrantKeeps(t, r.position, w, p, token, expiresAt, s.clock, now);
    GrantMoves(t, r.position, w, p, token, expiresAt, now);
    var u := GrantStage(t, r.position, w, p, token, expiresAt, now).value;
    HandedTokens(s, r.task, r.position, u.stages);
    PutKeeps(s, r.task, u, now, s.issued + 1);
  }

  lemma GrantStepKeeps(g: Granting, w: WorkerId, r: StageRef, p: Placement, now: Time)
    requires Inv(g.store) && g.store.clock <= now && Grantable(g.store, r)
    ensures Grant(g, w, r, p, now).Success? && Inv(Grant(g, w, r, p, now).value.store)
    ensures GrantEffect(g.store, Grant(g, w, r, p, now).value.store, w, r, p, now)
  {
    hide Inv, GrantStage, GrantEffect;
    GrantPut(g.store, r, w, p, LeaseExpiry(g.store, now), now);
    GrantShape(g, w, r, p, now);
  }

  lemma GrantShape(g: Granting, w: WorkerId, r: StageRef, p: Placement, now: Time)
    requires Grantable(g.store, r)
    ensures Grant(g, w, r, p, now).Success?
    ensures GrantEffect(g.store, Grant(g, w, r, p, now).value.store, w, r, p, now)
  {
    GrantMoves(g.store.tasks[r.task], r.position, w, p, Token(g.store.issued), LeaseExpiry(g.store, now), now);
  }

  lemma StillLeasable(s: Store, n: Store, w: WorkerId, pending: seq<StageRef>, p: Placement, now: Time)
    requires pending != [] && Leasable(s, pending, now) && GrantEffect(s, n, w, pending[0], p, now)
    ensures Leasable(n, pending[1..], now)
  {
    forall r | r in pending[1..]
      ensures HasStage(n, r) && StageAt(n, r).status.Pending? && StageAt(n, r).availableAt <= now
        && !n.tasks[r.task].status.Terminal()
    {
      var k :| 0 <= k < |pending[1..]| && pending[1..][k] == r;
      assert pending[k + 1] == r && r != pending[0];
      assert r in pending;
    }
  }

  lemma LeasableTail(s: Store, pending: seq<StageRef>, now: Time)
    requires pending != [] && Leasable(s, pending, now)
    ensures Leasable(s, pending[1..], now)
  {
    assert forall r :: r in pending[1..] ==> r in pending;
  }

  /** One turn of the lease loop that grants. */
  lemma LeaseTurn(g: Granting, w: WorkerId, pending: seq<StageRef>, p: Placement, now: Time) returns (n: Granting)
    requires Inv(g.store) && g.store.clock <= now && Leasable(g.store, pending, now) && pending != []
    requires w in g.store.workers && HasStage(g.store, pending[0]) && Offer(g.store, w, pending[0]) == Some(p)
    ensures Grant(g, w, pending[0], p, now) == Success(n)
    ensures Inv(n.store) && n.store.clock <= now && Leasable(n.store, pending[1..], now)
    ensures GrantEffect(g.store, n.store, w, pending[0], p, now)
    ensures |n.leases| == |g.leases| + 1 && n.leases[..|g.leases|] == g.leases
    ensures n.leases[|g.leases|].stage == pending[0] && n.leases[|g.leases|].token == Token(g.store.issued)
    ensures n.leases[|g.leases|].placement == p
  {
    hide Inv;
    assert pending[0] in pending;
    OfferGates(g.store, w, pending[0]);
    GrantStepKeeps(g, w, pending[0], p, now);
    n := Grant(g, w, pending[0], p, now).value;
    StillLeasable(g.store, n.store, w, pending, p, now);
  }

  lemma {:induction false} LeaseLoopKeeps(g: Granting, w: WorkerId, pending: seq<StageRef>, slots: nat, now: Time)
    requires Inv(g.store) && g.store.clock <= now && Leasable(g.store, pending, now)
    ensures var r := LeaseLoop(g, w, pending, slots, now);
      && r.Success? && Inv(r.value.store) && r.value.store.workers == g.store.workers
      && r.value.store.clock <= now
    decreases |pending|
  {
    hide Inv;
    if pending != [] && |g.leases| < slots && w in g.store.workers && HasStage(g.store, pending[0]) {
      var p := Offer(g.store, w, pending[0]);
      if p.Some? {
        var n := LeaseTurn(g, w, pending, p.value, now);
        LeaseLoopKeeps(n, w, pending[1..], slots, now);
      } else {
        LeasableTail(g.store, pending, now);
        LeaseLoopKeeps(g, w, pending[1..], slots, now);
      }
    }
  }

  lemma LeaseStepKeeps(s: Store, w: WorkerId, requested: nat, pending: seq<StageRef>, now: Time)
    requires Inv(s) && s.clock <= now && Leasable(s, pending, now)
    ensures Inv(StepLease(s, w, requested, pending, now).store)
    ensures Expected(StepLease(s, w, requested, pending, now).reply)
  {
    TickKeeps(s, now);
    if w in s.workers && s.workers[w].AcceptsLeases() && FreeSlots(s, w, requested) > 0 {
      LeasedKeeps(s, w, FreeSlots(s, w, requested), pending, now);
    }
  }

  lemma LeasedKeeps(s: Store, w: WorkerId, slots: nat, pending: seq<StageRef>, now: Time)
    requires Inv(s) && s.clock <= now && Leasable(s, pending, now) && w in s.workers
    ensures var g := LeaseLoop(Granting(Tick(s, now), []), w, pending, slots, now);
      && g.Success? && Inv(g.value.store)
      && Inv(g.value.store.(workers := s.workers[w := s.workers[w].(status := Busy)]))
  {
    TickKeeps(s, now);
    LeaseLoopKeeps(Granting(Tick(s, now), []), w, pending, slots, now);
    var g := LeaseLoop(Granting(Tick(s, now), []), w, pending, slots, now).value;
    assert WorkerValid(s.workers[w]);
    WorkersKeep(g.store, s.workers[w := s.workers[w].(status := Busy)]);
  }

  // ---------- requeueing ----------

  lemma RequeueOneKeeps(s: Store, r: StageRef, now: Time)
    requires Inv(s) && s.clock <= now && HasStage(s, r) && StageAt(s, r).status.Active()
    ensures var u := ExpireStage(s.tasks[r.task], r.position, now);
      && u.Success? && Inv(PutTask(s, r.task, u.value, now))
      && AllKept(s.tasks[r.task].stages, u.value.stages)
      && !u.value.stages[r.position].status.Active()
  {
    ExpireKeeps(s.tasks[r.task], r.position, s.clock, now);
    ExpireMoves(s.tasks[r.task], r.position, s.clock, now);
    PutKept(s, r.task, ExpireStage(s.tasks[r.task], r.position, now).value, now);
  }

  lemma {:induction false} RequeueLoopKeeps(w: Sweep, expired: seq<StageRef>, now: Time)
    requires Inv(w.store) && w.store.clock <= now
    ensures var r := RequeueLoop(w, expired, now);
      && (r.Success? ==> Inv(r.value.store))
      && (r.Failure? ==> r.fault.StageConflict?)
    decreases |expired|
  {
    if expired != [] && HasStage(w.store, expired[0]) {
      var r := expired[0];
      if StageAt(w.store, r).status.Active() {
        RequeueOneKeeps(w.store, r, now);
        var u := ExpireStage(w.store.tasks[r.task], r.position, now).value;
        RequeueLoopKeeps(
          Sweep(PutTask(w.store, r.task, u, now), w.affected + WorkerOf(StageAt(w.store, r))), expired[1..], now);
      }
    }
  }

  lemma RequeueStepKeeps(s: Store, expired: seq<StageRef>, now: Time)
    requires Inv(s) && s.clock <= now
    ensures Inv(StepRequeue(s, expired, now).store) && Expected(StepRequeue(s, expired, now).reply)
  {
    TickKeeps(s, now);
    RequeueLoopKeeps(Sweep(Tick(s, now), {}), expired, now);
    var swept := RequeueLoop(Sweep(Tick(s, now), {}), expired, now);
    if swept.Success? {
      ReleaseKeeps(swept.value.store, swept.value.affected);
    }
  }

  // ---------- every action ----------

  /** Every action keeps the invariant, and no transition guard ever raises. */
  lemma StepKeeps(s: Store, a: Action)
    requires Inv(s) && Admissible(s, a)
    ensures Inv(Step(s, a).store) && Expected(Step(s, a).reply)
  {
    match a
    case Create(id, request, key, now) => CreateStepKeeps(s, id, request, key, now);
    case Route(id, choice, now) => RouteStepKeeps(s, id, choice, now);
    case AcquireLeases(w, slots, pending, now) => LeaseStepKeeps(s, w, slots, pending, now);
    case Renew(r, w, token, now) => RenewStepKeeps(s, r, w, token, now);
    case Start(r, w, token, now) => StartStepKeeps(s, r, w, token, now);
    case Progress(r, w, token, percent, now) => ProgressStepKeeps(s, r, w, token, percent, now);
    case Complete(r, request, now) => CompleteStepKeeps(s, r, request, now);
    case RequeueExpired(expired, now) => RequeueStepKeeps(s, expired, now);
    case Cancel(id, now) => CancelStepKeeps(s, id, now);
    case Retry(id, now) => RetryStepKeeps(s, id, now);
    case SetWorker(w, record, now) =>
      TickKeeps(s, now);
      WorkersKeep(Tick(s, now), s.workers[w := record]);
    case SetBackends(table, now) =>
      TickKeeps(s, now);
      SameViews(Tick(s, now), Tick(s, now).(backends := table));
    case SetPipeline(id, pipeline, now) =>
      TickKeeps(s, now);
      SameViews(Tick(s, now), Step(s, a).store);
  }

  /** The invariant holds throughout every feasible run. */
  lemma {:induction false} RunKeeps(s: Store, actions: seq<Action>)
    requires Inv(s) && Feasible(s, actions)
    ensures Inv(Run(s, actions))
  {
    if actions != [] {
      var n := |actions| - 1;
      FeasiblePrefix(s, actions, n);
      RunKeeps(s, actions[..n]);
      StepKeeps(Run(s, actions[..n]), actions[n]);
    }
  }

  lemma FeasiblePrefix(s: Store, actions: seq<Action>, n: nat)
    requires Feasible(s, actions) && n <= |actions|
    ensures Feasible(s, actions[..n])
  {
    forall i | 0 <= i < n ensures Admissible(Run(s, actions[..n][..i]), actions[..n][i]) {
      assert actions[..n][..i] == actions[..i];
    }
  }

  /** The empty control plane. */
  ghost predicate Initial(s: Store) {
    s.tasks == map[] && s.log == [] && s.workers == map[] && s.pipelines == map[] && s.backends == []
      && 0.0 < s.config.memoryCap <= 100.0 && 1.0 <= s.config.leaseSeconds
  }

  /** In every reachable state every row is valid, and the published events replay to every status. */
  lemma ReachableStates(s: Store, actions: seq<Action>)
    requires Initial(s) && Feasible(s, actions)
    ensures var r := Run(s, actions);
      && Inv(r)
      && (forall id :: id in r.tasks ==> TaskDetailValid(r.tasks[id]) && Replay(r.log, id) == Some(r.tasks[id].status))
  {
    RunKeeps(s, actions);
    var r := Run(s, actions);
    forall id | id in r.tasks ensures TaskDetailValid(r.tasks[id]) && Replay(r.log, id) == Some(r.tasks[id].status) {
      RecordsValid(r.tasks[id], r.clock);
      assert Replay(r.log, id) == Some(StatusOf(r, id));
    }
  }

  /** No transition guard raises anywhere in a run. */
  lemma GuardsNeverRaise(s: Store, actions: seq<Action>, i: nat)
    requires Initial(s) && Feasible(s, actions) && i < |actions|
    ensures Expected(Step(Run(s, actions[..i]), actions[i]).reply)
  {
    hide Step;
    FeasiblePrefix(s, actions, i);
    InitialInv(s);
    RunKeeps(s, actions[..i]);
    StepKeeps(Run(s, actions[..i]), actions[i]);
  }

  lemma InitialInv(s: Store)
    requires Initial(s)
    ensures Inv(s)
  {
  }

  /** Every reachable routed task: coupled, causal, succeeded exactly when done, and never stuck. */
  lemma ReachableTask(s: Store, actions: seq<Action>, id: TaskId)
    requires Initial(s) && Feasible(s, actions) && id in Run(s, actions).tasks
    requires Run(s, actions).tasks[id].stages != []
    ensures var t := Run(s, actions).tasks[id];
      && Coupled(t.status, t.stages) && Causal(t.stages)
      && (t.status.Succeeded? <==> AllDone(t.stages))
      && (!t.status.Terminal() ==> CanAdvance(t.stages))
  {
    InitialInv(s);
    RunKeeps(s, actions);
    var r := Run(s, actions);
    var t := r.tasks[id];
    assert TaskInv(t, r.clock);
    SucceededIffDone(t, r.clock);
    if !t.status.Terminal() {
      NeverStuck(t, r.clock);
    }
  }
}

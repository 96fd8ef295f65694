/** Creating a task under an idempotency key, over whole runs. */
module Idempotency {
  import opened Common
  import opened Records
  import opened Lifecycle
  import opened Movement
  import opened Protocol
  import opened SystemInvariant
  import opened Fencing
  import Router

  /** No task disappears, and none changes what it was created from. */
  ghost predicate SameOrigins(s: Store, n: Store) {
    forall id :: id in s.tasks ==>
      id in n.tasks && n.tasks[id].request == s.tasks[id].request && n.tasks[id].key == s.tasks[id].key
  }

  ghost predicate SameOrigin(t: Task, u: Result<Task>) {
    u.Success? ==> u.value.request == t.request && u.value.key == t.key
  }

  lemma CommitOrigins(s: Store, id: TaskId, u: Result<Task>, reply: Reply, now: Time)
    requires id in s.tasks && SameOrigin(s.tasks[id], u)
    ensures SameOrigins(s, Commit(s, id, u, reply, now).store)
  {
  }

  lemma GrantOrigin(
    t: Task, i: nat, worker: WorkerId, p: Placement, token: Token, expiresAt: Time, now: Time)
    requires i < |t.stages|
    ensures SameOrigin(t, GrantStage(t, i, worker, p, token, expiresAt, now))
  {
  }

  lemma {:induction false} LoopOrigins(g: Granting, w: WorkerId, pending: seq<StageRef>, slots: nat, now: Time)
    ensures var r := LeaseLoop(g, w, pending, slots, now); r.Success? ==> SameOrigins(g.store, r.value.store)
    decreases |pending|
  {
    hide Offer, GrantStage;
    if pending != [] && |g.leases| < slots && w in g.store.workers && HasStage(g.store, pending[0]) {
      var p := Offer(g.store, w, pending[0]);
      if p.Some? {
        var n := Grant(g, w, pending[0], p.value, now);
        if n.Success? {
          GrantOrigin(g.store.tasks[pending[0].task], pending[0].position, w, p.value, Token(g.store.issued),
            LeaseExpiry(g.store, now), now);
          LoopOrigins(n.value, w, pending[1..], slots, now);
        }
      } else {
        LoopOrigins(g, w, pending[1..], slots, now);
      }
    }
  }

  lemma ExpireOrigin(t: Task, i: nat, now: Time)
    requires i < |t.stages|
    ensures SameOrigin(t, ExpireStage(t, i, now))
  {
    var settled := FailOrRetry(t.stages[i], Some(TimeoutError(t.stages[i])), now);
    if settled.Success? {
      ReconcileFrame(WithStage(t, i, settled.value), now);
    }
  }

  lemma {:induction false} SweepOrigins(w: Sweep, expired: seq<StageRef>, now: Time)
    ensures var r := RequeueLoop(w, expired, now); r.Success? ==> SameOrigins(w.store, r.value.store)
    decreases |expired|
  {
    hide ExpireStage;
    if expired != [] && HasStage(w.store, expired[0]) {
      var r := expired[0];
      ExpireOrigin(w.store.tasks[r.task], r.position, now);
      var u := ExpireStage(w.store.tasks[r.task], r.position, now);
      if u.Success? {
        SweepOrigins(
          Sweep(PutTask(w.store, r.task, u.value, now), w.affected + WorkerOf(StageAt(w.store, r))), expired[1..], now);
      }
    }
  }

  lemma CompleteOrigin(t: Task, i: nat, request: CompleteRequest, now: Time)
    requires i < |t.stages|
    ensures SameOrigin(t, CompleteStage(t, i, request, now))
  {
    var s := t.stages[i];
    var settled :=
      if request.succeeded then SucceedStage(Recorded(s, request), request.resultUri, now)
      else FailOrRetry(Recorded(s, request), request.error, now);
    if settled.Success? {
      ReconcileFrame(WithStage(t, i, settled.value), now);
    }
  }

  lemma HolderOrigins(t: Task, i: nat, worker: WorkerId, token: Token, percent: real, expiresAt: Time, now: Time)
    requires i < |t.stages|
    ensures SameOrigin(t, RenewStage(t, i, worker, token, expiresAt, now))
    ensures SameOrigin(t, StartStage(t, i, worker, token, now))
    ensures SameOrigin(t, ReportProgress(t, i, worker, token, percent, now))
  {
  }

  lemma OwnerOrigins(t: Task, now: Time)
    ensures SameOrigin(t, CancelTask(t, now)) && SameOrigin(t, RetryTask(t, now))
  {
  }

  lemma RouteOrigin(table: seq<Backend>, t: Task, choice: Option<Router.Pipeline>, id: nat, version: nat, now: Time)
    ensures SameOrigin(t, Router.RouteTask(table, t, choice, id, version, now))
  {
  }

  lemma LeaseOrigins(s: Store, w: WorkerId, requested: nat, pending: seq<StageRef>, now: Time)
    ensures SameOrigins(s, StepLease(s, w, requested, pending, now).store)
  {
    hide LeaseLoop, HeldBy;
    if w in s.workers {
      LoopOrigins(Granting(Tick(s, now), []), w, pending, FreeSlots(s, w, requested), now);
    }
  }

  lemma RouteOrigins(s: Store, id: TaskId, choice: Option<PipelineRef>, now: Time)
    ensures SameOrigins(s, StepRoute(s, id, choice, now).store)
  {
    if id in s.tasks {
      var usable := choice.Some? && choice.value in s.pipelines;
      RouteOrigin(s.backends, s.tasks[id], if usable then Some(s.pipelines[choice.value]) else None,
        if usable then choice.value.id else 0, if usable then choice.value.version else 0, now);
    }
  }

  lemma HeldOrigins(s: Store, r: StageRef, worker: WorkerId, token: Token, percent: real, now: Time)
    ensures SameOrigins(s, StepRenew(s, r, worker, token, now).store)
    ensures SameOrigins(s, StepStart(s, r, worker, token, now).store)
    ensures SameOrigins(s, StepProgress(s, r, worker, token, percent, now).store)
  {
    hide RenewStage, StartStage, ReportProgress, SameOrigin, SameOrigins, Commit;
    SameTasksOrigins(s, Tick(s, now));
    if HasStage(s, r) {
      var t, i := s.tasks[r.task], r.position;
      HolderOrigins(t, i, worker, token, percent, LeaseExpiry(s, now), now);
      var started, reported := StartStage(t, i, worker, token, now), ReportProgress(t, i, worker, token, percent, now);
      var expiresAt := LeaseExpiry(s, now);
      CommitOrigins(s, r.task, RenewStage(t, i, worker, token, expiresAt, now), Renewal(expiresAt), now);
      CommitOrigins(s, r.task, started, Report(started, i), now);
      CommitOrigins(s, r.task, reported, Report(reported, i), now);
    }
  }

  lemma CompleteOrigins(s: Store, r: StageRef, request: CompleteRequest, now: Time)
    ensures SameOrigins(s, StepComplete(s, r, request, now).store)
  {
    hide CompleteStage, ReleaseIdle, Idle;
    if HasStage(s, r) {
      CompleteOrigin(s.tasks[r.task], r.position, request, now);
      ReleaseTasks(s, r, request, now);
    }
  }

  lemma ReleaseTasks(s: Store, r: StageRef, request: CompleteRequest, now: Time)
    requires HasStage(s, r)
    ensures var u := CompleteStage(s.tasks[r.task], r.position, request, now);
      StepComplete(s, r, request, now).store.tasks ==
        if u.Success? && StageAt(s, r).completionRequest.None? then s.tasks[r.task := u.value] else s.tasks
  {
    hide CompleteStage;
  }

  lemma RequeueOrigins(s: Store, expired: seq<StageRef>, now: Time)
    ensures SameOrigins(s, StepRequeue(s, expired, now).store)
  {
    hide RequeueLoop, Idle;
    SweepOrigins(Sweep(Tick(s, now), {}), expired, now);
  }

  lemma OriginsStep(s: Store, a: Action)
    requires Admissible(s, a)
    ensures SameOrigins(s, Step(s, a).store)
  {
    hide SameOrigins;
    match a
    case Create(id, request, key, now) => CreateOrigins(s, id, request, key, now);
    case Route(id, choice, now) => RouteOrigins(s, id, choice, now);
    case AcquireLeases(w, slots, pending, now) => LeaseOrigins(s, w, slots, pending, now);
    case Renew(r, w, token, now) => HeldOrigins(s, r, w, token, 0.0, now);
    case Start(r, w, token, now) => HeldOrigins(s, r, w, token, 0.0, now);
    case Progress(r, w, token, percent, now) => HeldOrigins(s, r, w, token, percent, now);
    case Complete(r, request, now) => CompleteOrigins(s, r, request, now);
    case RequeueExpired(expired, now) => RequeueOrigins(s, expired, now);
    case Cancel(id, now) => OwnedOrigins(s, id, now);
    case Retry(id, now) => OwnedOrigins(s, id, now);
    case _ => SameTasksOrigins(s, Step(s, a).store);
  }

  lemma SameTasksOrigins(s: Store, n: Store)
    requires n.tasks == s.tasks
    ensures SameOrigins(s, n)
  {
  }

  lemma CreateOrigins(s: Store, id: TaskId, request: CreateRequest, key: Option<Label>, now: Time)
    requires id !in s.tasks
    ensures SameOrigins(s, StepCreate(s, id, request, key, now).store)
  {
  }

  lemma OwnedOrigins(s: Store, id: TaskId, now: Time)
    ensures SameOrigins(s, StepCancel(s, id, now).store) && SameOrigins(s, StepRetry(s, id, now).store)
  {
    if id in s.tasks {
      OwnerOrigins(s.tasks[id], now);
      hide CancelTask, RetryTask;
    }
  }

  lemma OriginsTransitive(a: Store, b: Store, c: Store)
    requires SameOrigins(a, b) && SameOrigins(b, c)
    ensures SameOrigins(a, c)
  {
  }

  lemma {:induction false} OriginsRun(s: Store, actions: seq<Action>, k: nat, j: nat)
    requires Feasible(s, actions) && k <= j <= |actions|
    ensures SameOrigins(Run(s, actions[..k]), Run(s, actions[..j]))
    decreases j
  {
    hide Admissible, SameOrigins, Step;
    var m := Run(s, actions[..k]);
    if k < j {
      OriginsRun(s, actions, k, j - 1);
      assert actions[..j][..j - 1] == actions[..j - 1];
      OriginsStep(Run(s, actions[..j - 1]), actions[j - 1]);
      OriginsTransitive(m, Run(s, actions[..j - 1]), Run(s, actions[..j]));
    } else {
      SameTasksOrigins(m, m);
    }
  }

  /** With the key in use, creation answers with its one holder or refuses, and changes no row. */
  lemma KeyInUse(s: Store, holder: TaskId, id: TaskId, request: CreateRequest, key: Option<Label>, now: Time)
    requires Inv(s) && holder in s.tasks && key.Some? && s.tasks[holder].key == key
    ensures var done := StepCreate(s, id, request, key, now);
      && done.store == Tick(s, now)
      && done.reply == if s.tasks[holder].request == request then Stored(holder) else Raised(IdempotencyConflict)
  {
    assert holder in TasksWithKey(s, key);
    assert forall x :: x in TasksWithKey(s, key) ==> x == holder;
  }

  /** The creation that stores a task at this point of a run. */
  ghost predicate Creates(s: Store, a: Action) {
    a.Create? && a.key.Some? && a.task !in s.tasks && a.task in Step(s, a).store.tasks
  }

  lemma KeyKept(m: Store, first: Action, n: Store, second: Action)
    requires Creates(m, first) && SameOrigins(Step(m, first).store, n) && Inv(n)
    requires second.Create? && second.key == first.key
    ensures var done := Step(n, second);
      && done.store == Tick(n, second.now)
      && done.reply == if second.request == first.request then Stored(first.task) else Raised(IdempotencyConflict)
  {
    assert n.tasks[first.task].request == first.request && n.tasks[first.task].key == first.key;
    KeyInUse(n, first.task, second.task, second.request, second.key, second.now);
  }

  /** After a keyed creation, every later creation under the key replays it or is refused. */
  lemma CreateOnce(s: Store, actions: seq<Action>, i: nat, j: nat)
    requires Inv(s) && Feasible(s, actions) && i < j < |actions|
    requires Creates(Run(s, actions[..i]), actions[i])
    requires actions[j].Create? && actions[j].key == actions[i].key
    ensures var done := Step(Run(s, actions[..j]), actions[j]);
      && done.store == Tick(Run(s, actions[..j]), actions[j].now)
      && done.reply ==
          if actions[j].request == actions[i].request then Stored(actions[i].task) else Raised(IdempotencyConflict)
  {
    hide Admissible, Feasible, Inv, SameOrigins, Creates, Run;
    Midway(s, actions, i);
    Midway(s, actions, j);
    OriginsRun(s, actions, i + 1, j);
    KeyKept(Run(s, actions[..i]), actions[i], Run(s, actions[..j]), actions[j]);
  }
}

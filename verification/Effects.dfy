/** What each action does to the store as a whole, on top of keeping the invariant. */
module Effects {
  import opened Common
  import opened Records
  import opened Lifecycle
  import opened TaskInvariant
  import opened Movement
  import opened Protocol
  import opened SystemInvariant
  import Router

  // ---------- actions that hand out nothing ----------

  ghost predicate AllFlowed(a: seq<Stage>, b: seq<Stage>) {
    |a| == |b| && forall i :: 0 <= i < |a| ==> Flowed(a[i], b[i])
  }

  /** No token was issued and no stage was reset. */
  ghost predicate Still(s: Store, n: Store) {
    && n.issued == s.issued && n.tasks.Keys == s.tasks.Keys
    && (forall id :: id in s.tasks ==> AllFlowed(s.tasks[id].stages, n.tasks[id].stages))
  }

  lemma StillTransitive(a: Store, b: Store, c: Store)
    requires Still(a, b) && Still(b, c)
    ensures Still(a, c)
  {
    forall id | id in a.tasks ensures AllFlowed(a.tasks[id].stages, c.tasks[id].stages) {
      forall i | 0 <= i < |a.tasks[id].stages| ensures Flowed(a.tasks[id].stages[i], c.tasks[id].stages[i]) {
        assert Flowed(a.tasks[id].stages[i], b.tasks[id].stages[i]);
        assert Flowed(b.tasks[id].stages[i], c.tasks[id].stages[i]);
      }
    }
  }

  lemma StillPut(s: Store, id: TaskId, u: Task, now: Time)
    requires id in s.tasks && AllKept(s.tasks[id].stages, u.stages)
    ensures Still(s, PutTask(s, id, u, now))
  {
    forall i | 0 <= i < |u.stages| ensures Flowed(s.tasks[id].stages[i], u.stages[i]) {
      assert Kept(s.tasks[id].stages[i], u.stages[i]);
    }
  }

  lemma StillCommit(s: Store, id: TaskId, u: Result<Task>, reply: Reply, now: Time)
    requires id in s.tasks
    requires u.Success? ==> AllKept(s.tasks[id].stages, u.value.stages)
    ensures Still(s, Commit(s, id, u, reply, now).store)
  {
    if u.Success? {
      StillPut(s, id, u.value, now);
    }
  }

  lemma {:induction false} RequeueLoopStill(w: Sweep, expired: seq<StageRef>, now: Time)
    requires Inv(w.store) && w.store.clock <= now
    ensures var r := RequeueLoop(w, expired, now); r.Success? ==> Still(w.store, r.value.store)
    decreases |expired|
  {
    hide Inv;
    if expired != [] && HasStage(w.store, expired[0]) && StageAt(w.store, expired[0]).status.Active() {
      var r := expired[0];
      RequeueOneKeeps(w.store, r, now);
      var u := ExpireStage(w.store.tasks[r.task], r.position, now).value;
      var next := Sweep(PutTask(w.store, r.task, u, now), w.affected + WorkerOf(StageAt(w.store, r)));
      StillPut(w.store, r.task, u, now);
      RequeueLoopStill(next, expired[1..], now);
      var rest := RequeueLoop(next, expired[1..], now);
      if rest.Success? {
        StillTransitive(w.store, next.store, rest.value.store);
      }
    }
  }

  predicate HandsOut(a: Action) {
    a.Create? || a.Route? || a.AcquireLeases? || a.Retry?
  }

  lemma CompleteStill(s: Store, r: StageRef, request: CompleteRequest, now: Time)
    requires Inv(s) && s.clock <= now
    ensures Still(s, StepComplete(s, r, request, now).store)
  {
    hide Inv, TaskInv, CompleteStage, Idle, AllFlowed;
    StillTick(s, now);
    if HasStage(s, r) && s.tasks[r.task].stages[r.position].completionRequest.None? {
      var t := s.tasks[r.task];
      var u := CompleteStage(t, r.position, request, now);
      TaskHolds(s, r.task);
      CompleteRowKept(t, r.position, request, s.clock, now);
      StillCommit(s, r.task, u, Report(u, r.position), now);
    }
  }

  lemma CompleteRowKept(t: Task, i: nat, request: CompleteRequest, clock: Time, now: Time)
    requires TaskInv(t, clock) && clock <= now && i < |t.stages| && t.stages[i].completionRequest.None?
    ensures var u := CompleteStage(t, i, request, now); u.Success? ==> AllKept(t.stages, u.value.stages)
  {
    hide TaskInv, CompleteStage;
    CompleteKeeps(t, i, request, clock, now);
    if Applies(t.stages[i], request, now) {
      CompleteMoves(t, i, request, clock, now);
    }
  }

  lemma HolderStill(s: Store, r: StageRef, worker: WorkerId, token: Token, percent: real, expiresAt: Time, now: Time)
    requires HasStage(s, r)
    ensures var t := s.tasks[r.task];
      var renewed := RenewStage(t, r.position, worker, token, expiresAt, now);
      && Still(s, Commit(s, r.task, renewed, Renewal(expiresAt), now).store)
      && Still(s, StepStart(s, r, worker, token, now).store)
      && Still(s, StepProgress(s, r, worker, token, percent, now).store)
  {
    var t := s.tasks[r.task];
    RenewMoves(t, r.position, worker, token, expiresAt, now);
    StartMoves(t, r.position, worker, token, now);
    ProgressMoves(t, r.position, worker, token, percent, now);
    var renewed := RenewStage(t, r.position, worker, token, expiresAt, now);
    var started := StartStage(t, r.position, worker, token, now);
    var reported := ReportProgress(t, r.position, worker, token, percent, now);
    StillCommit(s, r.task, renewed, Renewal(expiresAt), now);
    StillCommit(s, r.task, started, Report(started, r.position), now);
    StillCommit(s, r.task, reported, Report(reported, r.position), now);
  }

  lemma RequeueStill(s: Store, expired: seq<StageRef>, now: Time)
    requires Inv(s) && s.clock <= now
    ensures Still(s, StepRequeue(s, expired, now).store)
  {
    hide Inv, RequeueLoop, AllFlowed, Idle;
    TickKeeps(s, now);
    RequeueLoopStill(Sweep(Tick(s, now), {}), expired, now);
    StillTick(s, now);
  }

  lemma StillTick(s: Store, now: Time)
    ensures Still(s, Tick(s, now))
  {
  }

  /** Every other action leaves stages where they are or moves them down. */
  lemma StillStep(s: Store, a: Action)
    requires Inv(s) && Admissible(s, a) && !HandsOut(a)
    ensures Still(s, Step(s, a).store)
  {
    hide Inv;
    match a
    case Renew(r, w, token, now) =>
      if HasStage(s, r) {
        HolderStill(s, r, w, token, 0.0, LeaseExpiry(s, now), now);
      }
    case Start(r, w, token, now) =>
      if HasStage(s, r) {
        HolderStill(s, r, w, token, 0.0, now, now);
      }
    case Progress(r, w, token, percent, now) =>
      if HasStage(s, r) {
        HolderStill(s, r, w, token, percent, now, now);
      }
    case Complete(r, request, now) => CompleteStill(s, r, request, now);
    case RequeueExpired(expired, now) => RequeueStill(s, expired, now);
    case Cancel(id, now) =>
      if id in s.tasks {
        CancelMoves(s.tasks[id], now);
        StillCommit(s, id, CancelTask(s.tasks[id], now), Stored(id), now);
      }
    case _ =>
  }

  // ---------- tokens ----------

  /** Every token in `n` was in the same place in `s`, or is newer than all of `s`. */
  ghost predicate TokensFrom(s: Store, n: Store) {
    && s.issued <= n.issued
    && (forall id, i :: id in n.tasks && 0 <= i < |n.tasks[id].stages| && n.tasks[id].stages[i].token.Some? ==>
          || s.issued <= n.tasks[id].stages[i].token.value.token.serial
          || (id in s.tasks && i < |s.tasks[id].stages| && s.tasks[id].stages[i].token == n.tasks[id].stages[i].token))
  }

  lemma StillTokens(s: Store, n: Store)
    requires Still(s, n)
    ensures TokensFrom(s, n)
  {
    forall id, i | id in n.tasks && 0 <= i < |n.tasks[id].stages| && n.tasks[id].stages[i].token.Some?
      ensures id in s.tasks && i < |s.tasks[id].stages| && s.tasks[id].stages[i].token == n.tasks[id].stages[i].token
    {
      assert AllFlowed(s.tasks[id].stages, n.tasks[id].stages);
      assert Flowed(s.tasks[id].stages[i], n.tasks[id].stages[i]);
    }
  }

  lemma TokensFromTransitive(a: Store, b: Store, c: Store)
    requires TokensFrom(a, b) && TokensFrom(b, c)
    ensures TokensFrom(a, c)
  {
  }

  lemma GrantTokens(s: Store, n: Store, w: WorkerId, r: StageRef, p: Placement, now: Time)
    requires GrantEffect(s, n, w, r, p, now)
    ensures TokensFrom(s, n)
  {
    forall id, i | id in n.tasks && 0 <= i < |n.tasks[id].stages| && n.tasks[id].stages[i].token.Some?
      ensures
        || s.issued <= n.tasks[id].stages[i].token.value.token.serial
        || (id in s.tasks && i < |s.tasks[id].stages| && s.tasks[id].stages[i].token == n.tasks[id].stages[i].token)
    {
      if id == r.task && i != r.position {
        assert n.tasks[id].stages[i] == s.tasks[id].stages[i];
      }
    }
  }

  lemma {:induction false} LeaseLoopTokens(g: Granting, w: WorkerId, pending: seq<StageRef>, slots: nat, now: Time)
    requires Inv(g.store) && g.store.clock <= now && Leasable(g.store, pending, now)
    ensures var r := LeaseLoop(g, w, pending, slots, now); r.Success? && TokensFrom(g.store, r.value.store)
    decreases |pending|
  {
    hide Inv, Offer, Grant, GrantEffect, Leasable, TokensFrom;
    if pending != [] && |g.leases| < slots && w in g.store.workers && HasStage(g.store, pending[0]) {
      var p := Offer(g.store, w, pending[0]);
      if p.Some? {
        var n := LeaseTurn(g, w, pending, p.value, now);
        LeaseLoopTokens(n, w, pending[1..], slots, now);
        GrantTokens(g.store, n.store, w, pending[0], p.value, now);
        TokensFromTransitive(g.store, n.store, LeaseLoop(n, w, pending[1..], slots, now).value.store);
      } else {
        LeasableTail(g.store, pending, now);
        LeaseLoopTokens(g, w, pending[1..], slots, now);
      }
    } else {
      SameTokens(g.store);
    }
  }

  lemma SameTokens(s: Store)
    ensures TokensFrom(s, s)
  {
  }

  lemma ResetTokens(s: Store, id: TaskId, u: Task, now: Time)
    requires id in s.tasks && AllReset(s.tasks[id].stages, u.stages)
    ensures TokensFrom(s, PutTask(s, id, u, now))
  {
    var n := PutTask(s, id, u, now);
    forall i | 0 <= i < |u.stages| && u.stages[i].token.Some?
      ensures s.tasks[id].stages[i].token == u.stages[i].token
    {
      assert Reset(s.tasks[id].stages[i], u.stages[i]);
    }
  }

  /** Tokens only come from the counter: an old token never reappears. */
  lemma StepTokens(s: Store, a: Action)
    requires Inv(s) && Admissible(s, a)
    ensures TokensFrom(s, Step(s, a).store)
  {
    hide Inv;
    if !HandsOut(a) {
      StillStep(s, a);
      StillTokens(s, Step(s, a).store);
    } else if a.AcquireLeases? {
      LeaseStepTokens(s, a.worker, a.slots, a.pending, a.now);
    } else if a.Retry? {
      if a.task in s.tasks {
        RetryMoves(s.tasks[a.task], a.now);
        var u := RetryTask(s.tasks[a.task], a.now);
        if u.Success? {
          ResetTokens(s, a.task, u.value, a.now);
        }
      }
    } else if a.Route? {
      RouteTokens(s, a.task, a.choice, a.now);
    }
  }

  /** The poll gets past the checks in front of the lease loop. */
  predicate Polls(s: Store, w: WorkerId, requested: nat) {
    w in s.workers && s.workers[w].AcceptsLeases() && FreeSlots(s, w, requested) > 0
  }

  /** A poll is its lease loop and, for a worker that is now full, a status change. */
  lemma LeaseShape(s: Store, w: WorkerId, requested: nat, pending: seq<StageRef>, now: Time)
    ensures var done := StepLease(s, w, requested, pending, now);
      if Polls(s, w, requested) then
        var g := LeaseLoop(Granting(Tick(s, now), []), w, pending, FreeSlots(s, w, requested), now);
        (g.Success? ==> (
          && done.store.tasks == g.value.store.tasks && done.reply == Leases(g.value.leases)
          && done.store.issued == g.value.store.issued))
      else
        done.store == Tick(s, now) && (done.reply.Leases? ==> done.reply.leases == [])
  {
  }

  lemma TickLeasable(s: Store, pending: seq<StageRef>, now: Time)
    requires Leasable(s, pending, now)
    ensures Leasable(Tick(s, now), pending, now)
  {
  }

  lemma LeaseStepTokens(s: Store, w: WorkerId, requested: nat, pending: seq<StageRef>, now: Time)
    requires Inv(s) && s.clock <= now && Leasable(s, pending, now)
    ensures TokensFrom(s, StepLease(s, w, requested, pending, now).store)
  {
    hide Inv, LeaseLoop, StepLease, Leasable;
    TickKeeps(s, now);
    LeaseShape(s, w, requested, pending, now);
    TickLeasable(s, pending, now);
    if Polls(s, w, requested) {
      LeaseLoopTokens(Granting(Tick(s, now), []), w, pending, FreeSlots(s, w, requested), now);
    }
  }

  lemma PutTokensFrom(s: Store, id: TaskId, u: Task, now: Time)
    requires TokensInv(s) && id in s.tasks && TokensStep(s.tasks[id].stages, u.stages, s.issued, s.issued)
    ensures TokensFrom(s, PutTask(s, id, u, now))
  {
  }

  lemma RouteTokens(s: Store, id: TaskId, choice: Option<PipelineRef>, now: Time)
    requires Inv(s) && s.clock <= now
    ensures TokensFrom(s, StepRoute(s, id, choice, now).store)
  {
    hide TokensFrom, Router.RouteTask, TaskInv, TokensStep;
    SameTokens(s);
    TickTokens(s, now);
    if id in s.tasks {
      var usable := choice.Some? && choice.value in s.pipelines;
      var pipeline := if usable then Some(s.pipelines[choice.value]) else None;
      var k, v := if usable then choice.value.id else 0, if usable then choice.value.version else 0;
      var u := Router.RouteTask(s.backends, s.tasks[id], pipeline, k, v, now);
      TaskHolds(s, id);
      Router.RouteKeeps(s.backends, s.tasks[id], pipeline, k, v, s.clock, now);
      if u.Success? {
        RoutedTokens(s, id, u.value, pipeline, k, v, now);
        PutTokensFrom(s, id, u.value, now);
      }
    }
  }

  lemma TickTokens(s: Store, now: Time)
    ensures TokensFrom(s, Tick(s, now))
  {
  }
}

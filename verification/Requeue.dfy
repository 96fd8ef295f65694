/**
 A requeue pass over expired leases: exactly when it raises, and what it leaves behind.
 The pass meets stages it cancelled itself a moment earlier, because a stage that is out
 of attempts fails its task and abandons the open siblings.
 */
module Requeue {
  import opened Common
  import opened Records
  import opened Lifecycle
  import opened TaskInvariant
  import opened Protocol
  import opened SystemInvariant

  /** An expiry of this stage fails the whole task. */
  predicate Exhausted(s: Stage) {
    s.attempt == s.spec.maximumAttempts && !s.spec.optional
  }

  predicate ExhaustedAt(s: Store, r: StageRef) {
    HasStage(s, r) && Exhausted(StageAt(s, r))
  }

  /** Some selected stage comes after a selected, exhausted stage of its own task. */
  ghost predicate Blocked(s: Store, expired: seq<StageRef>) {
    exists i, j :: Blocks(s, expired, i, j)
  }

  predicate Blocks(s: Store, expired: seq<StageRef>, i: int, j: int) {
    0 <= i < j < |expired| && expired[i].task == expired[j].task && ExhaustedAt(s, expired[i])
  }

  /** What the expiry makes of a stage before the task is reconciled. */
  function Swept(s: Stage, now: Time): Stage {
    var r := FailOrRetry(s, Some(TimeoutError(s)), now);
    if r.Success? then r.value else s
  }

  ghost predicate DoomedBy(s: Store, expired: seq<StageRef>, task: TaskId, position: nat) {
    exists q :: q in expired && q.task == task && q.position != position && ExhaustedAt(s, q)
  }

  lemma ExpireEffect(t: Task, i: nat, clock: Time, now: Time)
    requires TaskInv(t, clock) && clock <= now && i < |t.stages| && t.stages[i].status.Active()
    ensures var r := ExpireStage(t, i, now);
      && r.Success? && |r.value.stages| == |t.stages|
      && r.value.stages[i] == Swept(t.stages[i], now) && !r.value.stages[i].status.Active()
      && (forall k :: 0 <= k < |t.stages| && k != i ==>
            r.value.stages[k] == if Exhausted(t.stages[i]) then Abandon(t.stages[k], now) else t.stages[k])
      && TimesOut(t.stages[i], r.value.stages[i], now)
      && (r.value.status.Failed? <==> Exhausted(t.stages[i]))
      && (r.value.status.Failed? ==> r.value.error == Some(TIMED_OUT))
      && Reconciled(t, r.value, now)
  {
    hide TaskInv, StageInv, Reconcile, Reconciled, Abandon, TimesOut, FailOrRetry;
    StageOf(t, i, clock);
    var s := t.stages[i];
    var error := Some(TimeoutError(s));
    FailOrRetrySettles(s, s, error, clock, now);
    var settled := FailOrRetry(s, error, now).value;
    ReconcileKeeps(t, i, settled, clock, now);
    ReconciledRow(WithStage(t, i, settled), now);
    ReconciledFrom(t, i, settled, Reconcile(WithStage(t, i, settled), now).value, now);
    ExpiryEnds(s, clock, now);
    TimedOutError(s, settled, now);
    AbandonFailed(settled, now);
    var r := ExpireStage(t, i, now).value;
    if r.status.Failed? {
      CarriedError(r, i, now);
    }
  }

  lemma StageOf(t: Task, i: nat, clock: Time)
    requires TaskInv(t, clock) && i < |t.stages|
    ensures StageInv(t.stages[i], clock)
    ensures t.stages[i].status.Active() ==> !t.status.Terminal()
    ensures t.stages[i].attempt <= t.stages[i].spec.maximumAttempts
  {
  }

  lemma ReconciledFrom(t: Task, i: nat, s: Stage, u: Task, now: Time)
    requires i < |t.stages| && Reconciled(WithStage(t, i, s), u, now)
    ensures Reconciled(t, u, now)
  {
  }

  lemma TimedOutError(before: Stage, after: Stage, now: Time)
    requires TimesOut(before, after, now) && before.attempt <= before.spec.maximumAttempts
    ensures after.status.Failed? ==> after.error == Some(TIMED_OUT)
    ensures !after.status.Active()
  {
  }

  lemma AbandonFailed(s: Stage, now: Time)
    ensures !s.status.Open() ==> Abandon(s, now) == s
  {
  }

  /** The error of a stage whose last lease ran out. */
  const TIMED_OUT := ErrorDetail("TIMEOUT", "The Stage lease expired", false)

  /** An expired stage waits out its backoff, is skipped, or fails with a timeout; its lease is gone either way. */
  ghost predicate TimesOut(before: Stage, after: Stage, now: Time) {
    && after.spec == before.spec && after.attempt == before.attempt
    && after.token.None? && after.worker.None? && after.device.None? && after.expiresAt.None?
    && (after.status.Terminal() ==> after.completedAt == Some(now) && after.startedAt == before.startedAt)
    && (before.attempt < before.spec.maximumAttempts ==>
          after.status.Pending? && after.progress == 0.0 && after.error.None? && after.startedAt.None?
          && after.availableAt == now + Backoff(before.spec.retry, before.attempt))
    && (before.attempt == before.spec.maximumAttempts && before.spec.optional ==>
          after.status.Skipped? && after.error.None?)
    && (before.attempt == before.spec.maximumAttempts && !before.spec.optional ==>
          after.status.Failed? && after.error == Some(TIMED_OUT))
  }

  lemma ExpiryEnds(s: Stage, clock: Time, now: Time)
    requires StageInv(s, clock) && clock <= now && s.status.Active()
    ensures TimesOut(s, Swept(s, now), now)
  {
    hide Backoff;
    FailOrRetrySettles(s, s, Some(TimeoutError(s)), clock, now);
  }

  /** What a failing sibling does: an open stage is cancelled and released, any other stays. */
  lemma AbandonMeans(s: Stage, now: Time)
    ensures var a := Abandon(s, now);
      if s.status.Pending? || s.status.Leased? || s.status.Running? then
        && a.status.Cancelled? && a.completedAt == Some(now)
        && a.token.None? && a.worker.None? && a.device.None? && a.expiresAt.None?
        && a.spec == s.spec && a.attempt == s.attempt && a.progress == s.progress && a.error == s.error
        && a.completionRequest == s.completionRequest && a.completionWorker == s.completionWorker
      else a == s
  {
  }

  /** One turn of the loop, on a held stage. */
  lemma Turn(w: Sweep, expired: seq<StageRef>, now: Time) returns (n: Sweep)
    requires Inv(w.store) && w.store.clock <= now && expired != [] && HasStage(w.store, expired[0])
    requires StageAt(w.store, expired[0]).status.Active()
    ensures RequeueLoop(w, expired, now) == RequeueLoop(n, expired[1..], now)
    ensures Inv(n.store) && n.store.clock <= now
    ensures TurnEffect(w.store, n.store, expired[0], now)
    ensures n.affected == w.affected + WorkerOf(StageAt(w.store, expired[0]))
    ensures n.store.workers == w.store.workers
  {
    hide Inv, ExpireStage, TurnEffect;
    var r := expired[0];
    RequeueOneKeeps(w.store, r, now);
    TaskHolds(w.store, r.task);
    ExpireEffect(w.store.tasks[r.task], r.position, w.store.clock, now);
    var u := ExpireStage(w.store.tasks[r.task], r.position, now).value;
    PutTurn(w.store, r, u, now);
    n := Sweep(PutTask(w.store, r.task, u, now), w.affected + WorkerOf(StageAt(w.store, r)));
  }

  lemma PutTurn(s: Store, r: StageRef, u: Task, now: Time)
    requires HasStage(s, r) && |u.stages| == |s.tasks[r.task].stages|
    requires u.stages[r.position] == Swept(StageAt(s, r), now) && !u.stages[r.position].status.Active()
    requires forall k :: 0 <= k < |u.stages| && k != r.position ==>
      u.stages[k] ==
        if Exhausted(StageAt(s, r)) then Abandon(s.tasks[r.task].stages[k], now) else s.tasks[r.task].stages[k]
    ensures TurnEffect(s, PutTask(s, r.task, u, now), r, now)
  {
  }

  ghost predicate TurnEffect(s: Store, n: Store, r: StageRef, now: Time) {
    && HasStage(s, r) && HasStage(n, r)
    && StageAt(n, r) == Swept(StageAt(s, r), now) && !StageAt(n, r).status.Active()
    && (forall q :: HasStage(s, q) <==> HasStage(n, q))
    && (forall q :: HasStage(s, q) && q != r ==>
          StageAt(n, q) ==
            if q.task == r.task && ExhaustedAt(s, r) then Abandon(StageAt(s, q), now) else StageAt(s, q))
  }

  ghost predicate AllHeld(s: Store, expired: seq<StageRef>) {
    forall r :: r in expired ==> HasStage(s, r) && StageAt(s, r).status.Active()
  }

  ghost predicate SomeReleased(s: Store, expired: seq<StageRef>) {
    exists r :: r in expired && HasStage(s, r) && !StageAt(s, r).status.Active()
  }

  /** A stage that is no longer held makes the pass raise. */
  lemma {:induction false} ReleasedRaises(w: Sweep, expired: seq<StageRef>, now: Time)
    requires Inv(w.store) && w.store.clock <= now
    requires SomeReleased(w.store, expired) && forall r :: r in expired ==> HasStage(w.store, r)
    ensures RequeueLoop(w, expired, now) == Failure(StageConflict)
    decreases |expired|
  {
    hide Inv, ExpireStage;
    if StageAt(w.store, expired[0]).status.Active() {
      var n := Turn(w, expired, now);
      var r :| r in expired && HasStage(w.store, r) && !StageAt(w.store, r).status.Active();
      assert r in expired[1..];
      assert HasStage(n.store, r) && !StageAt(n.store, r).status.Active();
      assert forall q :: q in expired[1..] ==> q in expired;
      ReleasedRaises(n, expired[1..], now);
    } else {
      ReleasedFails(w, expired, now);
    }
  }

  lemma ReleasedFails(w: Sweep, expired: seq<StageRef>, now: Time)
    requires expired != [] && HasStage(w.store, expired[0]) && !StageAt(w.store, expired[0]).status.Active()
    ensures RequeueLoop(w, expired, now) == Failure(StageConflict)
  {
  }

  ghost predicate RestSame(s: Store, n: Store, expired: seq<StageRef>)
    requires expired != []
  {
    forall r :: r in expired[1..] ==>
      r != expired[0] && HasStage(s, r) && HasStage(n, r) && StageAt(n, r) == StageAt(s, r)
  }

  /** A turn that does not doom a later entry leaves the rest of the list as it was. */
  lemma RestUntouched(s: Store, n: Store, expired: seq<StageRef>, now: Time)
    requires expired != [] && Distinct(expired) && AllHeld(s, expired) && TurnEffect(s, n, expired[0], now)
    requires forall j :: 1 <= j < |expired| && ExhaustedAt(s, expired[0]) ==> expired[j].task != expired[0].task
    ensures AllHeld(n, expired[1..])
    ensures RestSame(s, n, expired)
    ensures Blocked(n, expired[1..]) <==> Blocked(s, expired)
  {
    forall r | r in expired[1..]
      ensures r != expired[0] && HasStage(s, r) && HasStage(n, r) && StageAt(n, r) == StageAt(s, r)
        && StageAt(s, r).status.Active()
    {
      var k :| 0 <= k < |expired[1..]| && expired[1..][k] == r;
      assert expired[k + 1] == r && r in expired;
    }
    BlockedShift(s, n, expired);
  }

  lemma BlockedShift(s: Store, n: Store, expired: seq<StageRef>)
    requires expired != [] && RestSame(s, n, expired)
    requires forall j :: 1 <= j < |expired| && ExhaustedAt(s, expired[0]) ==> expired[j].task != expired[0].task
    ensures Blocked(n, expired[1..]) <==> Blocked(s, expired)
  {
    hide StageAt;
    forall i, j ensures Blocks(n, expired[1..], i - 1, j - 1) <==> Blocks(s, expired, i, j) {
      if 1 <= i < j < |expired| {
        assert expired[1..][i - 1] == expired[i] && expired[1..][j - 1] == expired[j];
        assert expired[i] in expired[1..];
      }
    }
    if Blocked(s, expired) {
      var i, j :| Blocks(s, expired, i, j);
      assert Blocks(n, expired[1..], i - 1, j - 1);
    }
    if Blocked(n, expired[1..]) {
      var i, j :| Blocks(n, expired[1..], i, j);
      assert Blocks(n, expired[1..], (i + 1) - 1, (j + 1) - 1);
      assert Blocks(s, expired, i + 1, j + 1);
    }
  }

  ghost predicate DoomsLater(s: Store, expired: seq<StageRef>) {
    expired != [] && ExhaustedAt(s, expired[0]) && exists j :: 1 <= j < |expired| && expired[j].task == expired[0].task
  }

  lemma DoomedReleased(s: Store, n: Store, expired: seq<StageRef>, now: Time)
    requires Distinct(expired) && AllHeld(s, expired) && DoomsLater(s, expired) && TurnEffect(s, n, expired[0], now)
    ensures SomeReleased(n, expired[1..]) && Blocked(s, expired)
    ensures forall r :: r in expired[1..] ==> HasStage(n, r)
  {
    var j :| 1 <= j < |expired| && expired[j].task == expired[0].task;
    assert Blocks(s, expired, 0, j);
    assert expired[1..][j - 1] == expired[j] && expired[j] != expired[0];
    assert expired[j] in expired;
    forall r | r in expired[1..] ensures HasStage(n, r) {
      assert r in expired;
    }
  }

  lemma {:induction false} LoopRaises(w: Sweep, expired: seq<StageRef>, now: Time)
    requires Inv(w.store) && w.store.clock <= now && Distinct(expired) && AllHeld(w.store, expired)
    ensures RequeueLoop(w, expired, now).Failure? <==> Blocked(w.store, expired)
    ensures RequeueLoop(w, expired, now).Failure? ==> RequeueLoop(w, expired, now).fault == StageConflict
    decreases |expired|
  {
    hide Inv, ExpireStage, TurnEffect, Blocked, AllHeld, SomeReleased;
    if expired == [] {
      NothingBlocked(w.store);
    } else {
      HeldHead(w.store, expired);
      var n := Turn(w, expired, now);
      if DoomsLater(w.store, expired) {
        DoomedReleased(w.store, n.store, expired, now);
        ReleasedRaises(n, expired[1..], now);
      } else {
        RestUntouched(w.store, n.store, expired, now);
        LoopRaises(n, expired[1..], now);
      }
    }
  }

  lemma NothingBlocked(s: Store)
    ensures !Blocked(s, [])
  {
  }

  lemma HeldHead(s: Store, expired: seq<StageRef>)
    requires expired != [] && AllHeld(s, expired)
    ensures HasStage(s, expired[0]) && StageAt(s, expired[0]).status.Active()
  {
    assert expired[0] in expired;
  }

  /** A stage the pass does not select is abandoned if it is open and a sibling runs out, and untouched otherwise. */
  lemma {:induction false} LoopFrame(w: Sweep, expired: seq<StageRef>, now: Time, p: StageRef)
    requires Inv(w.store) && w.store.clock <= now && Distinct(expired) && AllHeld(w.store, expired)
    requires !Blocked(w.store, expired) && HasStage(w.store, p) && p !in expired
    ensures var r := RequeueLoop(w, expired, now);
      && r.Success? && HasStage(r.value.store, p)
      && StageAt(r.value.store, p) ==
          if DoomedBy(w.store, expired, p.task, p.position) then Abandon(StageAt(w.store, p), now)
          else StageAt(w.store, p)
    decreases |expired|
  {
    hide Inv, ExpireStage, TurnEffect, Blocked, AllHeld, DoomedBy, Abandon;
    if expired == [] {
      NobodyDoomed(w.store, p);
    } else {
      HeldHead(w.store, expired);
      var n := Turn(w, expired, now);
      NotBlockedHead(w.store, expired);
      RestUntouched(w.store, n.store, expired, now);
      TurnDooms(w.store, n.store, expired, now, p);
      LoopFrame(n, expired[1..], now, p);
    }
  }

  lemma NobodyDoomed(s: Store, p: StageRef)
    ensures !DoomedBy(s, [], p.task, p.position)
  {
  }

  lemma NotBlockedHead(s: Store, expired: seq<StageRef>)
    requires expired != [] && !Blocked(s, expired)
    ensures forall j :: 1 <= j < |expired| && ExhaustedAt(s, expired[0]) ==> expired[j].task != expired[0].task
  {
    forall j | 1 <= j < |expired| && ExhaustedAt(s, expired[0]) ensures expired[j].task != expired[0].task {
      assert !Blocks(s, expired, 0, j);
    }
  }

  lemma TurnDooms(s: Store, n: Store, expired: seq<StageRef>, now: Time, p: StageRef)
    requires expired != [] && TurnEffect(s, n, expired[0], now) && HasStage(s, p) && p != expired[0]
    requires RestSame(s, n, expired)
    requires forall j :: 1 <= j < |expired| && ExhaustedAt(s, expired[0]) ==> expired[j].task != expired[0].task
    ensures HasStage(n, p)
    ensures
      (if DoomedBy(n, expired[1..], p.task, p.position) then Abandon(StageAt(n, p), now) else StageAt(n, p))
      == (if DoomedBy(s, expired, p.task, p.position) then Abandon(StageAt(s, p), now) else StageAt(s, p))
  {
    if DoomedBy(n, expired[1..], p.task, p.position) {
      var q :| q in expired[1..] && q.task == p.task && q.position != p.position && ExhaustedAt(n, q);
      assert q in expired && ExhaustedAt(s, q);
    }
    if DoomedBy(s, expired, p.task, p.position) {
      var q :| q in expired && q.task == p.task && q.position != p.position && ExhaustedAt(s, q);
      if q != expired[0] {
        assert q in expired[1..];
        assert ExhaustedAt(n, q);
      } else {
        assert !DoomedBy(n, expired[1..], p.task, p.position);
      }
    }
  }

  /** Where a selected stage ends up. */
  ghost predicate EndsUp(s: Store, n: Store, expired: seq<StageRef>, p: StageRef, now: Time) {
    && HasStage(s, p) && HasStage(n, p)
    && StageAt(n, p) ==
        (if DoomedBy(s, expired, p.task, p.position) then Abandon(Swept(StageAt(s, p), now), now)
         else Swept(StageAt(s, p), now))
  }

  /** Where a stage that was not selected ends up. */
  ghost predicate Left(s: Store, n: Store, expired: seq<StageRef>, p: StageRef, now: Time) {
    && HasStage(s, p) && HasStage(n, p)
    && StageAt(n, p) ==
        (if DoomedBy(s, expired, p.task, p.position) then Abandon(StageAt(s, p), now) else StageAt(s, p))
  }

  lemma {:induction false} LoopSettles(w: Sweep, expired: seq<StageRef>, now: Time)
    requires Inv(w.store) && w.store.clock <= now && Distinct(expired) && AllHeld(w.store, expired)
    requires !Blocked(w.store, expired)
    ensures var r := RequeueLoop(w, expired, now);
      r.Success? && forall p :: p in expired ==> EndsUp(w.store, r.value.store, expired, p, now)
    decreases |expired|
  {
    hide Inv, ExpireStage, TurnEffect, Blocked, AllHeld, EndsUp;
    if expired != [] {
      HeldHead(w.store, expired);
      var n := Turn(w, expired, now);
      NotBlockedHead(w.store, expired);
      RestUntouched(w.store, n.store, expired, now);
      LoopSettles(n, expired[1..], now);
      var r := RequeueLoop(n, expired[1..], now).value;
      forall p | p in expired ensures EndsUp(w.store, r.store, expired, p, now) {
        if p == expired[0] {
          TurnStage(w.store, n.store, expired, now);
          LoopFrame(n, expired[1..], now, p);
          HeadEnds(w.store, n.store, r.store, expired, now);
        } else {
          assert p in expired[1..];
          TailEnds(w.store, n.store, r.store, expired, p, now);
        }
      }
    }
  }

  lemma TurnStage(s: Store, n: Store, expired: seq<StageRef>, now: Time)
    requires expired != [] && Distinct(expired) && TurnEffect(s, n, expired[0], now)
    ensures HasStage(s, expired[0]) && HasStage(n, expired[0])
    ensures StageAt(n, expired[0]) == Swept(StageAt(s, expired[0]), now)
    ensures expired[0] !in expired[1..]
  {
  }

  lemma HeadEnds(s: Store, n: Store, m: Store, expired: seq<StageRef>, now: Time)
    requires expired != [] && HasStage(s, expired[0]) && HasStage(n, expired[0]) && HasStage(m, expired[0])
    requires StageAt(n, expired[0]) == Swept(StageAt(s, expired[0]), now)
    requires RestSame(s, n, expired)
    requires StageAt(m, expired[0]) ==
      if DoomedBy(n, expired[1..], expired[0].task, expired[0].position) then Abandon(StageAt(n, expired[0]), now)
      else StageAt(n, expired[0])
    ensures EndsUp(s, m, expired, expired[0], now)
  {
    var p := expired[0];
    if DoomedBy(n, expired[1..], p.task, p.position) {
      var q :| q in expired[1..] && q.task == p.task && q.position != p.position && ExhaustedAt(n, q);
      assert q in expired && ExhaustedAt(s, q);
    }
    if DoomedBy(s, expired, p.task, p.position) {
      var q :| q in expired && q.task == p.task && q.position != p.position && ExhaustedAt(s, q);
      assert q in expired[1..] && ExhaustedAt(n, q);
    }
  }

  lemma TailEnds(s: Store, n: Store, m: Store, expired: seq<StageRef>, p: StageRef, now: Time)
    requires expired != [] && p in expired[1..] && EndsUp(n, m, expired[1..], p, now)
    requires RestSame(s, n, expired)
    requires forall j :: 1 <= j < |expired| && ExhaustedAt(s, expired[0]) ==> expired[j].task != expired[0].task
    ensures EndsUp(s, m, expired, p, now)
  {
    if DoomedBy(n, expired[1..], p.task, p.position) {
      var q :| q in expired[1..] && q.task == p.task && q.position != p.position && ExhaustedAt(n, q);
      assert q in expired && ExhaustedAt(s, q);
    }
    if DoomedBy(s, expired, p.task, p.position) {
      var q :| q in expired && q.task == p.task && q.position != p.position && ExhaustedAt(s, q);
      var k :| 0 <= k < |expired[1..]| && expired[1..][k] == p;
      assert expired[k + 1] == p;
      assert q in expired[1..] && ExhaustedAt(n, q);
    }
  }

  // ---------- the pass ----------

  lemma SelectedHeld(s: Store, expired: seq<StageRef>, now: Time)
    requires Expired(s, expired, now)
    ensures Distinct(expired) && AllHeld(Tick(s, now), expired)
    ensures Blocked(Tick(s, now), expired) <==> Blocked(s, expired)
  {
    assert forall i, j :: Blocks(Tick(s, now), expired, i, j) <==> Blocks(s, expired, i, j);
  }

  /** The pass raises exactly when it would meet a stage it has cancelled itself, and then changes no row. */
  lemma PassRaisesIff(s: Store, expired: seq<StageRef>, now: Time)
    requires Inv(s) && s.clock <= now && Expired(s, expired, now)
    ensures var done := StepRequeue(s, expired, now);
      && (done.reply.Raised? <==> Blocked(s, expired))
      && (Blocked(s, expired) ==> done.reply == Raised(StageConflict) && done.store == Tick(s, now))
      && (!Blocked(s, expired) ==> done.reply == Reply.Swept(expired))
  {
    hide Inv, RequeueLoop, Expired;
    TickKeeps(s, now);
    SelectedHeld(s, expired, now);
    LoopRaises(Sweep(Tick(s, now), {}), expired, now);
  }

  /** A blocked pass stays blocked: selecting the same rows again raises again. */
  lemma BlockedStaysBlocked(s: Store, expired: seq<StageRef>, now: Time, later: Time)
    requires Inv(s) && s.clock <= now <= later && Expired(s, expired, now) && Blocked(s, expired)
    ensures var n := StepRequeue(s, expired, now).store;
      Expired(n, expired, later) && StepRequeue(n, expired, later).reply == Raised(StageConflict)
  {
    hide Inv, StepRequeue, Blocked;
    PassRaisesIff(s, expired, now);
    var n := Tick(s, now);
    TickKeeps(s, now);
    StillSelected(s, expired, now, later);
    PassRaisesIff(n, expired, later);
  }

  lemma StillSelected(s: Store, expired: seq<StageRef>, now: Time, later: Time)
    requires Expired(s, expired, now) && now <= later && Blocked(s, expired)
    ensures Expired(Tick(s, now), expired, later) && Blocked(Tick(s, now), expired)
  {
    assert forall i, j :: Blocks(Tick(s, now), expired, i, j) <==> Blocks(s, expired, i, j);
  }

  /** A pass that finishes leaves every selected stage settled and every other stage as siblings demand. */
  lemma PassSettles(s: Store, expired: seq<StageRef>, now: Time)
    requires Inv(s) && s.clock <= now && Expired(s, expired, now) && !Blocked(s, expired)
    ensures var n := StepRequeue(s, expired, now).store;
      && Inv(n)
      && (forall p :: p in expired ==> EndsUp(s, n, expired, p, now) && !StageAt(n, p).status.Active())
      && (forall p :: HasStage(s, p) && p !in expired ==> Left(s, n, expired, p, now))
  {
    hide Inv, RequeueLoop, Expired, DoomedBy, Swept;
    TickKeeps(s, now);
    SelectedHeld(s, expired, now);
    RequeueStepKeeps(s, expired, now);
    var start := Sweep(Tick(s, now), {});
    LoopSettles(start, expired, now);
    var m := RequeueLoop(start, expired, now).value.store;
    var n := StepRequeue(s, expired, now).store;
    assert n.tasks == m.tasks;
    forall p | p in expired ensures EndsUp(s, n, expired, p, now) && !StageAt(n, p).status.Active() {
      SameEnds(start.store, m, s, n, expired, p, now);
    }
    forall p | HasStage(s, p) && p !in expired
      ensures Left(s, n, expired, p, now)
    {
      LoopFrame(start, expired, now, p);
      SameDoom(start.store, s, expired, p);
    }
  }

  lemma SameDoom(a: Store, s: Store, expired: seq<StageRef>, p: StageRef)
    requires a.tasks == s.tasks
    ensures DoomedBy(a, expired, p.task, p.position) <==> DoomedBy(s, expired, p.task, p.position)
  {
    assert forall q :: ExhaustedAt(a, q) <==> ExhaustedAt(s, q);
  }

  lemma SameEnds(a: Store, b: Store, s: Store, n: Store, expired: seq<StageRef>, p: StageRef, now: Time)
    requires EndsUp(a, b, expired, p, now) && a.tasks == s.tasks && b.tasks == n.tasks
    requires AllHeld(a, expired) && p in expired
    ensures EndsUp(s, n, expired, p, now) && !StageAt(n, p).status.Active()
  {
    SameDoom(a, s, expired, p);
    SweptReleased(StageAt(s, p), now);
  }

  lemma SweptReleased(s: Stage, now: Time)
    requires s.status.Active()
    ensures !Swept(s, now).status.Active() && !Abandon(Swept(s, now), now).status.Active()
  {
  }

  // ---------- releasing the workers ----------

  /** The workers that held the selected stages. */
  function HoldersOf(s: Store, expired: seq<StageRef>): set<WorkerId> {
    set r | r in expired && HasStage(s, r) && StageAt(s, r).worker.Some? :: StageAt(s, r).worker.value
  }

  lemma {:induction false} LoopAffects(w: Sweep, expired: seq<StageRef>, now: Time)
    requires Inv(w.store) && w.store.clock <= now && Distinct(expired) && AllHeld(w.store, expired)
    requires !Blocked(w.store, expired)
    ensures var r := RequeueLoop(w, expired, now);
      && r.Success? && r.value.affected == w.affected + HoldersOf(w.store, expired)
      && r.value.store.workers == w.store.workers
    decreases |expired|
  {
    hide Inv, ExpireStage, TurnEffect, Blocked, AllHeld;
    if expired != [] {
      HeldHead(w.store, expired);
      var n := Turn(w, expired, now);
      NotBlockedHead(w.store, expired);
      RestUntouched(w.store, n.store, expired, now);
      LoopAffects(n, expired[1..], now);
      HoldersSplit(w.store, n.store, expired);
    }
  }

  lemma HoldersSplit(s: Store, n: Store, expired: seq<StageRef>)
    requires expired != [] && RestSame(s, n, expired) && HasStage(s, expired[0])
    ensures HoldersOf(s, expired) == WorkerOf(StageAt(s, expired[0])) + HoldersOf(n, expired[1..])
  {
    assert expired == [expired[0]] + expired[1..];
    assert forall r :: r in expired <==> r == expired[0] || r in expired[1..];
  }

  /** After a pass that finishes, each worker that held a selected stage is online if it was busy and holds nothing. */
  lemma PassReleases(s: Store, expired: seq<StageRef>, now: Time, w: WorkerId)
    requires Inv(s) && s.clock <= now && Expired(s, expired, now) && !Blocked(s, expired) && w in s.workers
    ensures var n := StepRequeue(s, expired, now).store;
      && w in n.workers && n.workers[w] == s.workers[w].(status := n.workers[w].status)
      && n.workers[w].status ==
          if w in HoldersOf(s, expired) && s.workers[w].enabled && s.workers[w].status.Busy?
             && (forall r :: !Holds(n, r, w))
          then Online else s.workers[w].status
  {
    hide Inv, RequeueLoop, Expired, Blocked;
    TickKeeps(s, now);
    SelectedHeld(s, expired, now);
    var start := Sweep(Tick(s, now), {});
    LoopAffects(start, expired, now);
    var m := RequeueLoop(start, expired, now).value;
    SameHolders(s, start.store, expired);
    var n := StepRequeue(s, expired, now).store;
    assert forall r :: Holds(n, r, w) <==> Holds(m.store, r, w);
    NothingHeldIff(m.store, w);
  }

  lemma SameHolders(s: Store, n: Store, expired: seq<StageRef>)
    requires n.tasks == s.tasks
    ensures HoldersOf(n, expired) == HoldersOf(s, expired)
  {
  }

  lemma NothingHeldIff(s: Store, w: WorkerId)
    ensures HeldBy(s, w) == {} <==> forall r :: !Holds(s, r, w)
  {
    forall r | Holds(s, r, w) ensures r in HeldBy(s, w) {
      assert r == StageRef(r.task, r.position);
    }
  }
}

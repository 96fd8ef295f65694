/**
 The inductive invariant of one task and its stages, and the proof that every operation
 of the lease protocol keeps it and trips no transition guard.
 */
module TaskInvariant {
  import opened Common
  import opened TaskState
  import opened PipelineDag
  import opened Records
  import opened Lifecycle

  /** One stage row on its own. */
  ghost predicate StageInv(s: Stage, clock: Time) {
    && Distinct(s.spec.dependsOn) && Distinct(s.spec.candidates) && Distinct(s.spec.requiredRuntimes)
    && 1 <= s.spec.maximumAttempts
    && RetryValid(s.spec.retry)
    && s.spec.createdAt <= clock
    && 0.0 <= s.progress <= 100.0
    && (s.token.Some? <==> s.status.Active())
    && (s.expiresAt.Some? <==> s.status.Active())
    && (s.status.Active() ==> s.worker.Some? && s.device.Some? && 1 <= s.attempt && s.completionRequest.None?)
    && s.attempt <= s.spec.maximumAttempts
    && (s.status.Pending? ==> s.attempt < s.spec.maximumAttempts)
    && (s.completionRequest.Some? <==> s.completionWorker.Some?)
    && (s.completionRequest.Some? <==> s.completionToken.Some?)
    && (s.completionDevice.Some? ==> s.completionWorker.Some?)
    && (s.status.Pending? || s.status.Leased? ==> s.startedAt.None?)
    && (s.status.Running? ==> s.startedAt.Some?)
    && (s.status.Terminal() <==> s.completedAt.Some?)
    && (s.status.Failed? <==> s.error.Some?)
    && (s.resultUri.Some? ==> s.status.Succeeded?)
    && (s.startedAt.Some? ==> s.spec.createdAt <= s.startedAt.value <= clock)
    && (s.completedAt.Some? ==> s.completedAt.value <= clock)
    && (s.startedAt.Some? && s.completedAt.Some? ==> s.startedAt.value <= s.completedAt.value)
  }

  /** The task status and the stage statuses agree. */
  ghost predicate Coupled(status: TaskStatus, stages: seq<Stage>) {
    match status
    case Pending => NoneHeld(stages) && (stages != [] ==> Unfinished(stages))
    case Leased =>
      && (exists i :: 0 <= i < |stages| && stages[i].status.Leased?)
      && (forall i :: 0 <= i < |stages| ==>
            stages[i].status.Pending? || stages[i].status.Leased? || stages[i].status.Done())
    case Running =>
      && Unfinished(stages)
      && (forall i :: 0 <= i < |stages| ==> stages[i].status.Open() || stages[i].status.Done())
    case Succeeded => stages != [] && AllDone(stages)
    case Failed =>
      && (exists i :: 0 <= i < |stages| && stages[i].status.Failed?)
      && (forall i :: 0 <= i < |stages| ==> stages[i].status.Terminal())
      && (forall i, j :: 0 <= i < j < |stages| ==> !(stages[i].status.Failed? && stages[j].status.Failed?))
    case Cancelled =>
      && (stages != [] ==> exists i :: 0 <= i < |stages| && stages[i].status.Cancelled?)
      && (forall i :: 0 <= i < |stages| ==> stages[i].status.Cancelled? || stages[i].status.Done())
  }

  ghost predicate Unfinished(stages: seq<Stage>) {
    exists i :: 0 <= i < |stages| && !stages[i].status.Done()
  }

  /** A stage that has been handed out waited for every stage it depends on. */
  ghost predicate Causal(stages: seq<Stage>) {
    forall i :: 0 <= i < |stages| && !stages[i].status.Pending? && !stages[i].status.Cancelled? ==>
      DependenciesDone(stages, i)
  }

  /** The error of the task is that of its failed stage. */
  ghost predicate CarriesError(t: Task) {
    forall i :: 0 <= i < |t.stages| && t.stages[i].status.Failed? ==> t.error == t.stages[i].error
  }

  /** The task row on its own. */
  ghost predicate RowInv(t: Task, clock: Time) {
    && (t.pipelineId.Some? <==> t.pipelineVersion.Some?)
    && (t.stages != [] ==> t.pipelineId.Some?)
    && 0.0 <= t.progress <= 100.0
    && (t.status.Succeeded? ==> t.progress == 100.0 && t.resultUri == LastResult(t.stages))
    && (t.status.Terminal() <==> t.completedAt.Some?)
    && (t.status.Failed? <==> t.error.Some?)
    && (t.status.Failed? ==> CarriesError(t))
    && (t.resultUri.Some? ==> t.status.Succeeded?)
    && (t.status.Running? ==> t.startedAt.Some?)
    && (t.status.Pending? || t.status.Leased? ==> t.startedAt.None?)
    && t.createdAt <= clock
    && (t.startedAt.Some? ==> t.createdAt <= t.startedAt.value <= clock)
    && (t.completedAt.Some? ==> t.completedAt.value <= clock)
    && (t.startedAt.Some? && t.completedAt.Some? ==> t.startedAt.value <= t.completedAt.value)
  }

  ghost predicate StagesInv(stages: seq<Stage>, clock: Time) {
    forall i :: 0 <= i < |stages| ==> StageInv(stages[i], clock)
  }

  ghost predicate TaskInv(t: Task, clock: Time) {
    && RowInv(t, clock)
    && StagesInv(t.stages, clock)
    && Coupled(t.status, t.stages)
    && Causal(t.stages)
    && WellFormed(NodesOf(t.stages))
  }

  // ---------- frames ----------

  ghost predicate SameSpecs(a: seq<Stage>, b: seq<Stage>) {
    |a| == |b| && forall i :: 0 <= i < |a| ==> a[i].spec == b[i].spec
  }

  lemma SameGraph(a: seq<Stage>, b: seq<Stage>)
    requires SameSpecs(a, b)
    ensures NodesOf(a) == NodesOf(b)
  {
  }

  /** Nothing that was done is undone. */
  ghost predicate DonePersists(a: seq<Stage>, b: seq<Stage>) {
    |a| == |b| && forall i :: 0 <= i < |a| && a[i].status.Done() ==> b[i].status.Done()
  }

  lemma DependenciesPersist(a: seq<Stage>, b: seq<Stage>, i: nat)
    requires SameSpecs(a, b) && DonePersists(a, b) && i < |a|
    requires DependenciesDone(a, i)
    ensures DependenciesDone(b, i)
  {
    forall d | d in b[i].spec.dependsOn
      ensures exists j :: 0 <= j < |b| && b[j].spec.name == d && b[j].status.Done()
    {
      var j :| 0 <= j < |a| && a[j].spec.name == d && a[j].status.Done();
      assert b[j].spec.name == d && b[j].status.Done();
    }
  }

  /** Stages move only where their dependencies allow, so causality is kept. */
  lemma CausalPersists(a: seq<Stage>, b: seq<Stage>)
    requires Causal(a) && SameSpecs(a, b) && DonePersists(a, b)
    requires forall i :: 0 <= i < |a| && !b[i].status.Pending? && !b[i].status.Cancelled? ==> DependenciesDone(a, i)
    ensures Causal(b)
  {
    forall i | 0 <= i < |b| && !b[i].status.Pending? && !b[i].status.Cancelled? ensures DependenciesDone(b, i) {
      DependenciesPersist(a, b, i);
    }
  }

  lemma {:induction false} CreditBounds(stages: seq<Stage>)
    requires forall i :: 0 <= i < |stages| ==> 0.0 <= stages[i].progress <= 100.0
    ensures 0.0 <= TotalCredit(stages) <= 100.0 * |stages| as real
    ensures AllDone(stages) ==> TotalCredit(stages) == 100.0 * |stages| as real
  {
    if stages != [] {
      CreditBounds(stages[..|stages| - 1]);
    }
  }

  /** The mean progress is a percentage, and 100 once every stage is done. */
  lemma ProgressBounds(t: Task, now: Time)
    requires forall i :: 0 <= i < |t.stages| ==> 0.0 <= t.stages[i].progress <= 100.0
    ensures 0.0 <= UpdateProgress(t, now).progress <= 100.0
    ensures t.stages != [] && AllDone(t.stages) ==> UpdateProgress(t, now).progress == 100.0
  {
    if t.stages != [] {
      CreditBounds(t.stages);
      DivideBetween(TotalCredit(t.stages), |t.stages| as real, 100.0);
    }
  }

  // ---------- assembling the invariant ----------

  /** The graph and causality follow from the frame; the rest is given piecewise. */
  lemma Assemble(t: Task, u: Task, clock: Time, now: Time)
    requires TaskInv(t, clock)
    requires SameSpecs(t.stages, u.stages) && DonePersists(t.stages, u.stages)
    requires forall i :: 0 <= i < |t.stages| && !u.stages[i].status.Pending? && !u.stages[i].status.Cancelled? ==>
      DependenciesDone(t.stages, i)
    requires RowInv(u, now) && StagesInv(u.stages, now) && Coupled(u.status, u.stages)
    ensures TaskInv(u, now)
  {
    SameGraph(t.stages, u.stages);
    CausalPersists(t.stages, u.stages);
  }

  lemma StagesUpdate(stages: seq<Stage>, i: nat, s: Stage, clock: Time, now: Time)
    requires StagesInv(stages, clock) && clock <= now && i < |stages| && StageInv(s, now)
    ensures StagesInv(stages[i := s], now)
  {
  }

  /** One held or leasable stage changes and the others stay. */
  lemma AssembleOne(t: Task, i: nat, u: Task, clock: Time, now: Time)
    requires TaskInv(t, clock) && clock <= now && i < |t.stages|
    requires |u.stages| == |t.stages| && u.stages == t.stages[i := u.stages[i]]
    requires u.stages[i].spec == t.stages[i].spec && StageInv(u.stages[i], now)
    requires !t.stages[i].status.Done() && DependenciesDone(t.stages, i)
    requires RowInv(u, now) && Coupled(u.status, u.stages)
    ensures TaskInv(u, now)
  {
    StagesUpdate(t.stages, i, u.stages[i], clock, now);
    forall k | 0 <= k < |t.stages| && !u.stages[k].status.Pending? && !u.stages[k].status.Cancelled?
      ensures DependenciesDone(t.stages, k)
    {
      if k != i {
        assert u.stages[k] == t.stages[k];
      }
    }
    Assemble(t, u, clock, now);
  }

  /** A worker can hold a stage only in a leased or running task. */
  lemma HeldTask(t: Task, i: nat, clock: Time)
    requires TaskInv(t, clock) && i < |t.stages| && t.stages[i].status.Active()
    ensures t.status.Leased? || t.status.Running?
    ensures t.stages[i].status.Running? ==> t.status.Running?
    ensures DependenciesDone(t.stages, i)
    ensures t.resultUri.None? && t.error.None? && t.completedAt.None?
  {
  }

  // ---------- reconciliation ----------

  /** A held stage has just been settled or put back; the task is not reconciled yet. */
  ghost predicate Settled(before: Stage, after: Stage, now: Time) {
    && before.status.Active()
    && after.spec == before.spec
    && StageInv(after, now)
    && after.token.None?
    && after.attempt == before.attempt
    && (after.status.Pending? || after.status.Done() || after.status.Failed?)
  }

  lemma CoupledAfterFailure(status: TaskStatus, stages: seq<Stage>, i: nat, s: Stage, now: Time)
    requires Coupled(status, stages) && (status.Leased? || status.Running?)
    requires i < |stages| && s.status.Failed?
    ensures FirstFailed(stages[i := s]) == i
    ensures var u := stages[i := s]; forall k :: 0 <= k < |u| && u[k].status.Failed? ==> k == i
    ensures Coupled(TaskStatus.Failed, AbandonAll(stages[i := s], now))
  {
    var u := stages[i := s];
    assert forall k :: 0 <= k < |u| && k != i ==> !u[k].status.Failed?;
    assert u[i].status.Failed?;
    var r := AbandonAll(u, now);
    assert forall k :: 0 <= k < |r| ==> r[k] == Abandon(u[k], now);
    assert r[i].status.Failed?;
  }

  lemma AbandonInv(s: Stage, clock: Time, now: Time)
    requires StageInv(s, clock) && clock <= now
    ensures StageInv(Abandon(s, now), now)
  {
  }

  lemma AbandonAllInv(stages: seq<Stage>, now: Time)
    requires StagesInv(stages, now)
    ensures StagesInv(AbandonAll(stages, now), now)
  {
    forall i | 0 <= i < |stages| ensures StageInv(AbandonAll(stages, now)[i], now) {
      AbandonInv(stages[i], now, now);
    }
  }

  /** The row of a held task carries no outcome yet. */
  ghost predicate OpenRow(t: Task, clock: Time) {
    RowInv(t, clock) && (t.status.Leased? || t.status.Running?) && t.stages != []
  }

  lemma FailedRow(t: Task, k: nat, clock: Time, now: Time)
    requires OpenRow(t, clock) && clock <= now && k < |t.stages| && t.stages[k].error.Some?
    requires StagesInv(AbandonAll(t.stages, now), now)
    requires forall i :: 0 <= i < |t.stages| && t.stages[i].status.Failed? ==> i == k
    ensures RowInv(FailedTask(t, k, now), now)
  {
    var stages := AbandonAll(t.stages, now);
    assert forall i :: 0 <= i < |stages| ==> stages[i] == Abandon(t.stages[i], now);
    assert forall i :: 0 <= i < |stages| ==> StageInv(stages[i], now);
    ProgressBounds(t.(stages := stages), now);
  }

  lemma ReconcileFailure(t: Task, i: nat, s: Stage, clock: Time, now: Time)
    requires TaskInv(t, clock) && clock <= now && i < |t.stages| && Settled(t.stages[i], s, now) && s.status.Failed?
    ensures var r := Reconcile(WithStage(t, i, s), now);
      && r.Success? && TaskInv(r.value, now) && r.value.status.Failed?
      && r.value.stages == AbandonAll(t.stages[i := s], now)
  {
    var u := WithStage(t, i, s);
    HeldTask(t, i, clock);
    CoupledAfterFailure(t.status, t.stages, i, s, now);
    var r := FailedTask(u, i, now);
    assert Reconcile(u, now) == Success(r);
    assert RowInv(r, now) && StagesInv(r.stages, now) by {
      StagesUpdate(t.stages, i, s, clock, now);
      AbandonAllInv(u.stages, now);
      FailedRow(u, i, clock, now);
    }
    AbandonedFrame(t.stages, i, s, now);
    Assemble(t, r, clock, now);
  }

  lemma AbandonedFrame(stages: seq<Stage>, i: nat, s: Stage, now: Time)
    requires i < |stages| && s.spec == stages[i].spec && s.status.Failed?
    requires Causal(stages) && DependenciesDone(stages, i) && !stages[i].status.Done()
    ensures var after := AbandonAll(stages[i := s], now);
      && SameSpecs(stages, after) && DonePersists(stages, after)
      && (forall k :: 0 <= k < |stages| && !after[k].status.Pending? && !after[k].status.Cancelled? ==>
            DependenciesDone(stages, k))
  {
    var after := AbandonAll(stages[i := s], now);
    assert forall k :: 0 <= k < |after| ==> after[k] == Abandon(stages[i := s][k], now);
    forall k | 0 <= k < |stages| && !after[k].status.Pending? && !after[k].status.Cancelled?
      ensures DependenciesDone(stages, k)
    {
      if k != i {
        assert after[k] == stages[k];
      }
    }
  }

  lemma CoupledAfterSettling(status: TaskStatus, stages: seq<Stage>, i: nat, s: Stage)
    requires Coupled(status, stages) && (status.Leased? || status.Running?)
    requires i < |stages| && (s.status.Pending? || s.status.Done())
    ensures var u := stages[i := s];
      && FirstFailed(u) == |u|
      && (AllDone(u) ==> Coupled(TaskStatus.Succeeded, u))
      && (!AllDone(u) && status.Leased? && NoneHeld(u) ==> Coupled(TaskStatus.Pending, u))
      && (!AllDone(u) && !(status.Leased? && NoneHeld(u)) ==> Coupled(status, u))
  {
    var u := stages[i := s];
    assert forall k :: 0 <= k < |u| && k != i ==> u[k] == stages[k];
    assert u[i] == s;
    if !AllDone(u) && status.Leased? && !NoneHeld(u) {
      var k :| 0 <= k < |u| && !(u[k].status.Pending? || u[k].status.Done());
      assert u[k].status.Leased?;
    }
  }

  lemma SettledRow(t: Task, clock: Time, now: Time)
    requires OpenRow(t, clock) && clock <= now && StagesInv(t.stages, now)
    ensures RowInv(UpdateProgress(t, now), now)
    ensures t.status.Leased? ==> RowInv(UpdateProgress(t.(status := TaskStatus.Pending), now), now)
    ensures AllDone(t.stages) ==> RowInv(SucceededTask(t, now), now)
  {
    assert forall i :: 0 <= i < |t.stages| ==> StageInv(t.stages[i], now);
    ProgressBounds(t, now);
  }

  lemma ReconcileOther(t: Task, i: nat, s: Stage, clock: Time, now: Time)
    requires TaskInv(t, clock) && clock <= now && i < |t.stages| && Settled(t.stages[i], s, now) && !s.status.Failed?
    ensures var r := Reconcile(WithStage(t, i, s), now);
      && r.Success? && TaskInv(r.value, now)
      && r.value.stages == t.stages[i := s]
      && (r.value.status == t.status || r.value.status in TaskTransitions(t.status))
      && !r.value.status.Failed?
  {
    var u := WithStage(t, i, s);
    HeldTask(t, i, clock);
    CoupledAfterSettling(t.status, t.stages, i, s);
    var r := Reconcile(u, now).value;
    assert RowInv(r, now) by {
      StagesUpdate(t.stages, i, s, clock, now);
      SettledRow(u, clock, now);
    }
    AssembleOne(t, i, r, clock, now);
  }

  // ---------- one operation at a time ----------

  lemma {:induction false} PowerAtLeastOne(base: real, n: nat)
    requires 1.0 <= base
    ensures 1.0 <= Power(base, n)
  {
    if n > 0 {
      PowerAtLeastOne(base, n - 1);
      Times(base, 1.0, Power(base, n - 1));
    }
  }

  lemma PowerGrows(base: real, n: nat)
    requires 1.0 <= base
    ensures Power(base, n) <= Power(base, n + 1)
  {
    PowerAtLeastOne(base, n);
    Times(Power(base, n), 1.0, base);
  }

  /** The delay starts at the initial delay, never falls as attempts go by, and is capped. */
  lemma BackoffBounds(r: RetryPolicy, attempt: nat)
    requires RetryValid(r)
    ensures r.initialDelay <= Backoff(r, attempt) <= r.maximumDelay
    ensures Backoff(r, attempt) <= Backoff(r, attempt + 1)
    ensures attempt <= 1 ==> Backoff(r, attempt) == r.initialDelay
  {
    hide Uncapped;
    var n := if attempt == 0 then 0 else attempt - 1;
    UncappedGrows(r, n);
  }

  /**
   The whole sequence of delays: the initial one, then each the multiple of the one before,
   up to the maximum.
   */
  lemma BackoffRecurrence(r: RetryPolicy, attempt: nat)
    requires RetryValid(r)
    ensures Backoff(r, 0) == Backoff(r, 1) == r.initialDelay
    ensures attempt >= 1 ==> Backoff(r, attempt + 1) == MinReal(r.multiplier * Backoff(r, attempt), r.maximumDelay)
  {
    BackoffBounds(r, 0);
    BackoffBounds(r, 1);
    if attempt >= 1 {
      UncappedStep(r, attempt - 1);
      Times(r.multiplier, r.maximumDelay, MaxReal(Uncapped(r, attempt - 1), r.maximumDelay));
      Grows(r.multiplier, r.maximumDelay);
      hide Uncapped;
    }
  }

  lemma UncappedStep(r: RetryPolicy, n: nat)
    ensures Uncapped(r, n + 1) == r.multiplier * Uncapped(r, n)
  {
    var a, m, p := r.initialDelay, r.multiplier, Power(r.multiplier, n);
    assert Power(m, n + 1) == m * p;
    assert a * (m * p) == m * (a * p);
  }

  lemma Grows(factor: real, x: real)
    requires 1.0 <= factor && 0.0 <= x
    ensures x <= factor * x
  {
    Times(x, 1.0, factor);
    assert x * factor == factor * x;
  }

  lemma UncappedGrows(r: RetryPolicy, n: nat)
    requires RetryValid(r)
    ensures Uncapped(r, 0) == r.initialDelay <= Uncapped(r, n) <= Uncapped(r, n + 1)
  {
    PowerAtLeastOne(r.multiplier, n);
    PowerGrows(r.multiplier, n);
    hide Power;
    Times(r.initialDelay, 1.0, Power(r.multiplier, n));
    Times(r.initialDelay, Power(r.multiplier, n), Power(r.multiplier, n + 1));
    FirstUncapped(r);
  }

  lemma FirstUncapped(r: RetryPolicy)
    ensures Uncapped(r, 0) == r.initialDelay
  {
    assert Power(r.multiplier, 0) == 1.0;
  }

  /** A held stage, before or after its completion is put on record. */
  ghost predicate Held(s: Stage, h: Stage, clock: Time) {
    && StageInv(s, clock) && s.status.Active()
    && (h == s || exists request :: h == Recorded(s, request))
  }

  lemma FailOrRetrySettles(s: Stage, h: Stage, error: Option<ErrorDetail>, clock: Time, now: Time)
    requires Held(s, h, clock) && clock <= now
    ensures var r := FailOrRetry(h, error, now);
      && r.Success? && Settled(s, r.value, now)
      && (r.value.status.Failed? <==> s.attempt == s.spec.maximumAttempts && !s.spec.optional)
      && (r.value.status.Pending? <==> s.attempt < s.spec.maximumAttempts)
  {
  }

  lemma SucceedSettles(s: Stage, request: CompleteRequest, clock: Time, now: Time)
    requires StageInv(s, clock) && s.status.Running? && clock <= now
    ensures var r := SucceedStage(Recorded(s, request), request.resultUri, now);
      r.Success? && Settled(s, r.value, now) && r.value.status.Succeeded?
  {
  }

  /** Reconciliation after any settling never trips a guard. */
  lemma ReconcileKeeps(t: Task, i: nat, s: Stage, clock: Time, now: Time)
    requires TaskInv(t, clock) && clock <= now && i < |t.stages| && Settled(t.stages[i], s, now)
    ensures var r := Reconcile(WithStage(t, i, s), now);
      && r.Success? && TaskInv(r.value, now)
      && r.value.stages == (if s.status.Failed? then AbandonAll(t.stages[i := s], now) else t.stages[i := s])
      && (r.value.status == t.status || r.value.status in TaskTransitions(t.status))
      && (r.value.status.Failed? <==> s.status.Failed?)
  {
    HeldTask(t, i, clock);
    if s.status.Failed? {
      ReconcileFailure(t, i, s, clock, now);
    } else {
      ReconcileOther(t, i, s, clock, now);
    }
  }

  lemma ExpireKeeps(t: Task, i: nat, clock: Time, now: Time)
    requires TaskInv(t, clock) && clock <= now && i < |t.stages| && t.stages[i].status.Active()
    ensures var r := ExpireStage(t, i, now); r.Success? && TaskInv(r.value, now)
  {
    var s := t.stages[i];
    FailOrRetrySettles(s, s, Some(TimeoutError(s)), clock, now);
    ReconcileKeeps(t, i, FailOrRetry(s, Some(TimeoutError(s)), now).value, clock, now);
  }

  /** The completion is accepted for the first time. */
  predicate Applies(s: Stage, request: CompleteRequest, now: Time) {
    && s.completionRequest.None?
    && RequireValidLease(s, request.worker, request.token, now).Success?
    && s.status.Running?
  }

  /** The stage an accepted completion leaves behind. */
  function SettledBy(s: Stage, request: CompleteRequest, now: Time): Result<Stage> {
    if request.succeeded then SucceedStage(Recorded(s, request), request.resultUri, now)
    else FailOrRetry(Recorded(s, request), request.error, now)
  }

  lemma CompletionSettles(s: Stage, request: CompleteRequest, clock: Time, now: Time)
    requires StageInv(s, clock) && clock <= now && Applies(s, request, now)
    ensures var r := SettledBy(s, request, now); r.Success? && Settled(s, r.value, now) && Replays(r.value, request)
  {
    if request.succeeded {
      SucceedSettles(s, request, clock, now);
    } else {
      FailOrRetrySettles(s, Recorded(s, request), request.error, clock, now);
    }
  }

  lemma CompleteKeeps(t: Task, i: nat, request: CompleteRequest, clock: Time, now: Time)
    requires TaskInv(t, clock) && clock <= now && i < |t.stages|
    ensures var r := CompleteStage(t, i, request, now);
      && (r.Success? ==> TaskInv(r.value, now))
      && (r.Success? <==> Applies(t.stages[i], request, now) || Replays(t.stages[i], request))
      && (r.Failure? ==> r.fault.StageConflict? || r.fault.InvalidLease? || r.fault.LeaseExpired?)
  {
    if Applies(t.stages[i], request, now) {
      CompletionSettles(t.stages[i], request, clock, now);
      ReconcileKeeps(t, i, SettledBy(t.stages[i], request, now).value, clock, now);
    } else if CompleteStage(t, i, request, now).Success? {
      Age(t, clock, now);
    }
  }

  lemma Age(t: Task, clock: Time, now: Time)
    requires TaskInv(t, clock) && clock <= now
    ensures TaskInv(t, now)
  {
  }

  lemma CoupledGrant(status: TaskStatus, stages: seq<Stage>, i: nat, s: Stage)
    requires Coupled(status, stages) && !status.Terminal() && i < |stages|
    requires stages[i].status.Pending? && s.status.Leased?
    ensures Coupled(if status.Pending? then TaskStatus.Leased else status, stages[i := s])
  {
    var u := stages[i := s];
    assert u[i].status.Leased?;
    assert forall k :: 0 <= k < |u| && k != i ==> u[k] == stages[k];
  }

  lemma GrantedInv(
    s: Stage, worker: WorkerId, p: Placement, token: Token, expiresAt: Time, clock: Time, now: Time)
    requires StageInv(s, clock) && clock <= now && s.status.Pending?
    ensures StageInv(Granted(s, worker, p, token, expiresAt, now), now)
  {
  }

  lemma GrantKeeps(
    t: Task, i: nat, worker: WorkerId, p: Placement, token: Token, expiresAt: Time, clock: Time, now: Time)
    requires TaskInv(t, clock) && clock <= now && i < |t.stages|
    requires t.stages[i].status.Pending? && DependenciesDone(t.stages, i)
    requires !t.status.Terminal()
    ensures var r := GrantStage(t, i, worker, p, token, expiresAt, now);
      && r.Success? && TaskInv(r.value, now)
      && (r.value.status == t.status || r.value.status in TaskTransitions(t.status))
  {
    var r := GrantStage(t, i, worker, p, token, expiresAt, now).value;
    GrantedInv(t.stages[i], worker, p, token, expiresAt, clock, now);
    CoupledGrant(t.status, t.stages, i, r.stages[i]);
    AssembleOne(t, i, r, clock, now);
  }

  lemma CoupledSame(status: TaskStatus, stages: seq<Stage>, i: nat, s: Stage)
    requires Coupled(status, stages) && (status.Leased? || status.Running?) && i < |stages|
    requires s.status == stages[i].status
    ensures Coupled(status, stages[i := s])
  {
    var u := stages[i := s];
    assert forall k :: 0 <= k < |u| ==> u[k].status == stages[k].status;
    if status.Leased? {
      var k :| 0 <= k < |stages| && stages[k].status.Leased?;
      assert u[k].status.Leased?;
    } else {
      var k :| 0 <= k < |stages| && !stages[k].status.Done();
      assert !u[k].status.Done();
    }
  }

  lemma RenewKeeps(t: Task, i: nat, worker: WorkerId, token: Token, expiresAt: Time, clock: Time, now: Time)
    requires TaskInv(t, clock) && clock <= now && i < |t.stages|
    ensures var r := RenewStage(t, i, worker, token, expiresAt, now);
      && (r.Success? ==> TaskInv(r.value, now))
      && (r.Failure? ==> r.fault.InvalidLease? || r.fault.LeaseExpired?)
  {
    var r := RenewStage(t, i, worker, token, expiresAt, now);
    assert StageInv(t.stages[i], clock);
    if r.Success? {
      HeldTask(t, i, clock);
      CoupledSame(t.status, t.stages, i, r.value.stages[i]);
      AssembleOne(t, i, r.value, clock, now);
    }
  }

  lemma CoupledStart(status: TaskStatus, stages: seq<Stage>, i: nat, s: Stage)
    requires Coupled(status, stages) && (status.Leased? || status.Running?) && i < |stages| && s.status.Running?
    ensures Coupled(TaskStatus.Running, stages[i := s])
  {
    var u := stages[i := s];
    assert forall k :: 0 <= k < |u| && k != i ==> u[k] == stages[k];
    assert !u[i].status.Done();
  }

  lemma StartKeeps(t: Task, i: nat, worker: WorkerId, token: Token, clock: Time, now: Time)
    requires TaskInv(t, clock) && clock <= now && i < |t.stages|
    ensures var r := StartStage(t, i, worker, token, now);
      && (r.Success? ==> TaskInv(r.value, now) && r.value.status.Running?)
      && (r.Failure? ==> r.fault.StageConflict? || r.fault.InvalidLease? || r.fault.LeaseExpired?)
  {
    var r := StartStage(t, i, worker, token, now);
    assert StageInv(t.stages[i], clock);
    if t.stages[i].status.Leased? {
      HeldTask(t, i, clock);
      if r.Success? {
        CoupledStart(t.status, t.stages, i, r.value.stages[i]);
        AssembleOne(t, i, r.value, clock, now);
      }
    }
  }

  lemma ProgressKeeps(t: Task, i: nat, worker: WorkerId, token: Token, percent: real, clock: Time, now: Time)
    requires TaskInv(t, clock) && clock <= now && i < |t.stages| && 0.0 <= percent <= 100.0
    ensures var r := ReportProgress(t, i, worker, token, percent, now);
      && (r.Success? ==> TaskInv(r.value, now))
      && (r.Failure? ==> r.fault.StageConflict? || r.fault.InvalidLease? || r.fault.LeaseExpired?)
  {
    var r := ReportProgress(t, i, worker, token, percent, now);
    if r.Success? {
      HeldTask(t, i, clock);
      var s := r.value.stages[i];
      assert StageInv(t.stages[i], clock);
      CoupledSame(t.status, t.stages, i, s);
      StagesUpdate(t.stages, i, s, clock, now);
      ProgressBounds(WithStage(t, i, s), now);
      AssembleOne(t, i, r.value, clock, now);
    }
  }

  lemma CancelStageInv(s: Stage, clock: Time, now: Time)
    requires StageInv(s, clock) && clock <= now
    ensures StageInv(CancelStage(s, now), now)
  {
  }

  lemma CoupledCancel(status: TaskStatus, stages: seq<Stage>, after: seq<Stage>, now: Time)
    requires Coupled(status, stages) && !status.Terminal()
    requires |after| == |stages| && forall k :: 0 <= k < |after| ==> after[k] == CancelStage(stages[k], now)
    ensures Coupled(TaskStatus.Cancelled, after)
  {
    if stages != [] {
      var k :| 0 <= k < |stages| && !stages[k].status.Done();
      assert after[k].status.Cancelled?;
    }
  }

  lemma CancelKeeps(t: Task, clock: Time, now: Time)
    requires TaskInv(t, clock) && clock <= now
    ensures var r := CancelTask(t, now);
      && (r.Success? ==> TaskInv(r.value, now) && r.value.status in TaskTransitions(t.status))
      && (r.Failure? <==> t.status.Terminal())
      && (r.Failure? ==> r.fault.TaskNotCancellable?)
  {
    var r := CancelTask(t, now);
    if r.Success? {
      CoupledCancel(t.status, t.stages, r.value.stages, now);
      CancelAllKeeps(t.stages, clock, now);
      hide CancelAll, StagesInv, Coupled, Causal, WellFormed;
      Assemble(t, r.value, clock, now);
    }
  }

  lemma CancelAllKeeps(stages: seq<Stage>, clock: Time, now: Time)
    requires StagesInv(stages, clock) && clock <= now && Causal(stages)
    ensures var after := CancelAll(stages, now);
      && StagesInv(after, now) && SameSpecs(stages, after) && DonePersists(stages, after)
      && (forall k :: 0 <= k < |stages| && !after[k].status.Pending? && !after[k].status.Cancelled? ==>
            DependenciesDone(stages, k))
  {
    hide StageInv, DependenciesDone;
    var after := CancelAll(stages, now);
    forall k | 0 <= k < |stages| ensures StageInv(after[k], now) {
      CancelStageInv(stages[k], clock, now);
    }
  }

  lemma ResetStageInv(s: Stage, clock: Time, now: Time)
    requires StageInv(s, clock) && clock <= now
    ensures StageInv(ResetStage(s, now), now)
  {
  }

  lemma CoupledReset(status: TaskStatus, stages: seq<Stage>, after: seq<Stage>, now: Time)
    requires Coupled(status, stages) && (status.Failed? || status.Cancelled?)
    requires |after| == |stages| && forall k :: 0 <= k < |after| ==> after[k] == ResetStage(stages[k], now)
    ensures Coupled(TaskStatus.Pending, after)
  {
    if stages != [] {
      var k :| 0 <= k < |stages| && (stages[k].status.Failed? || stages[k].status.Cancelled?);
      assert !after[k].status.Done();
    }
  }

  lemma RetryKeeps(t: Task, clock: Time, now: Time)
    requires TaskInv(t, clock) && clock <= now
    ensures var r := RetryTask(t, now);
      && (r.Success? ==> TaskInv(r.value, now) && r.value.status in TaskTransitions(t.status))
      && (r.Success? <==> t.status.Failed? || t.status.Cancelled?)
      && (r.Failure? ==> r.fault.TaskNotRetryable?)
  {
    var r := RetryTask(t, now);
    if r.Success? {
      CoupledReset(t.status, t.stages, r.value.stages, now);
      ResetAllKeeps(t.stages, clock, now);
      hide ResetAll, StagesInv, Coupled, Causal, WellFormed;
      Assemble(t, r.value, clock, now);
    }
  }

  lemma ResetAllKeeps(stages: seq<Stage>, clock: Time, now: Time)
    requires StagesInv(stages, clock) && clock <= now && Causal(stages)
    ensures var after := ResetAll(stages, now);
      && StagesInv(after, now) && SameSpecs(stages, after) && DonePersists(stages, after)
      && (forall k :: 0 <= k < |stages| && !after[k].status.Pending? && !after[k].status.Cancelled? ==>
            DependenciesDone(stages, k))
  {
    hide StageInv, DependenciesDone;
    var after := ResetAll(stages, now);
    forall k | 0 <= k < |stages| ensures StageInv(after[k], now) {
      ResetStageInv(stages[k], clock, now);
    }
  }

  // ---------- what the invariant gives ----------

  /** Every row meets the validators of the public schema. */
  lemma RecordsValid(t: Task, clock: Time)
    requires TaskInv(t, clock)
    ensures TaskDetailValid(t)
  {
  }

  /** A routed task has succeeded exactly when all its stages are done. */
  lemma SucceededIffDone(t: Task, clock: Time)
    requires TaskInv(t, clock) && t.stages != []
    ensures t.status.Succeeded? <==> AllDone(t.stages)
  {
  }

  lemma NodeAt(stages: seq<Stage>, i: nat)
    requires UniqueNames(NodesOf(stages)) && i < |stages|
    ensures stages[i].spec.name in GraphOf(NodesOf(stages))
    ensures GraphOf(NodesOf(stages))[stages[i].spec.name] == Elements(stages[i].spec.dependsOn)
  {
    GraphAt(NodesOf(stages), i);
  }

  /** Some stage is held by a worker, or can be leased. */
  ghost predicate CanAdvance(stages: seq<Stage>) {
    exists i :: 0 <= i < |stages| &&
      (stages[i].status.Active() || (stages[i].status.Pending? && DependenciesDone(stages, i)))
  }

  /** Among the unfinished stages of an acyclic plan one waits only for finished ones. */
  lemma FirstWaiting(stages: seq<Stage>) returns (i: nat)
    requires WellFormed(NodesOf(stages)) && Unfinished(stages)
    ensures i < |stages| && !stages[i].status.Done() && DependenciesDone(stages, i)
  {
    var nodes := NodesOf(stages);
    var g := GraphOf(nodes);
    GraphKeys(nodes);
    var waiting := set k | 0 <= k < |stages| && !stages[k].status.Done() :: stages[k].spec.name;
    forall n | n in waiting ensures n in g {
      var k :| 0 <= k < |stages| && stages[k].spec.name == n;
      NodeAt(stages, k);
    }
    var k :| 0 <= k < |stages| && !stages[k].status.Done();
    assert stages[k].spec.name in waiting;
    var n := MinimalElement(g, waiting);
    i :| 0 <= i < |stages| && !stages[i].status.Done() && stages[i].spec.name == n;
    WaitsForDone(stages, i, waiting);
  }

  lemma WaitsForDone(stages: seq<Stage>, i: nat, waiting: set<Name>)
    requires UniqueNames(NodesOf(stages)) && KnownDependencies(NodesOf(stages)) && i < |stages|
    requires stages[i].spec.name in GraphOf(NodesOf(stages))
    requires GraphOf(NodesOf(stages))[stages[i].spec.name] * waiting == {}
    requires forall k :: 0 <= k < |stages| && !stages[k].status.Done() ==> stages[k].spec.name in waiting
    ensures DependenciesDone(stages, i)
  {
    var nodes := NodesOf(stages);
    NodeAt(stages, i);
    forall d | d in stages[i].spec.dependsOn
      ensures exists j :: 0 <= j < |stages| && stages[j].spec.name == d && stages[j].status.Done()
    {
      assert d in nodes[i].dependsOn;
      assert d in Names(nodes);
      var j :| 0 <= j < |nodes| && nodes[j].name == d;
      assert d !in GraphOf(nodes)[stages[i].spec.name] * waiting;
      assert stages[j].spec.name == d;
    }
  }

  /** Deadlock freedom: a routed task that is not terminal can always advance. */
  lemma NeverStuck(t: Task, clock: Time)
    requires TaskInv(t, clock) && t.stages != [] && !t.status.Terminal()
    ensures CanAdvance(t.stages)
  {
    assert Unfinished(t.stages);
    if forall k :: 0 <= k < |t.stages| ==> !t.stages[k].status.Active() {
      var i := FirstWaiting(t.stages);
      hide WellFormed, DependenciesDone, StagesInv, Causal;
      assert t.stages[i].status.Pending?;
    }
  }

  /** Causality over whole chains: everything a handed-out stage transitively waits for is done. */
  lemma {:induction false} AncestorsDone(t: Task, clock: Time, i: nat, p: seq<Name>) returns (j: nat)
    requires TaskInv(t, clock) && i < |t.stages|
    requires !t.stages[i].status.Pending? && !t.stages[i].status.Cancelled?
    requires Walk(TaskGraph(t), p) && |p| >= 2 && p[0] == t.stages[i].spec.name
    ensures j < |t.stages| && t.stages[j].spec.name == p[|p| - 1] && t.stages[j].status.Done()
    decreases |p|
  {
    NodeAt(t.stages, i);
    assert p[0 + 1] in TaskGraph(t)[p[0]];
    assert p[1] in t.stages[i].spec.dependsOn;
    assert DependenciesDone(t.stages, i);
    var k :| 0 <= k < |t.stages| && t.stages[k].spec.name == p[1] && t.stages[k].status.Done();
    if |p| == 2 {
      j := k;
    } else {
      assert Walk(TaskGraph(t), p[1..]) by {
        forall m | 0 <= m < |p[1..]| - 1 ensures p[1..][m + 1] in TaskGraph(t)[p[1..][m]] {
          assert p[(m + 1) + 1] in TaskGraph(t)[p[m + 1]];
        }
      }
      j := AncestorsDone(t, clock, k, p[1..]);
    }
  }

  /** What an accepted completion does to its stage and to the task row, case by case. */
  lemma CompletionOutcome(t: Task, i: nat, request: CompleteRequest, clock: Time, now: Time)
    requires TaskInv(t, clock) && clock <= now && i < |t.stages| && Applies(t.stages[i], request, now)
    ensures var before := t.stages[i];
      var r := CompleteStage(t, i, request, now);
      && r.Success? && |r.value.stages| == |t.stages|
      && Ends(before, r.value.stages[i], request, now)
      && (r.value.status.Failed? <==>
            !request.succeeded && before.attempt == before.spec.maximumAttempts && !before.spec.optional)
      && (r.value.status.Failed? ==> r.value.error == Some(ReportedError(request)))
      && Reconciled(t, r.value, now)
  {
    var s := t.stages[i];
    CompletionSettles(s, request, clock, now);
    var settled := SettledBy(s, request, now).value;
    assert CompleteStage(t, i, request, now) == Reconcile(WithStage(t, i, settled), now);
    ReconcileKeeps(t, i, settled, clock, now);
    ReconciledRow(WithStage(t, i, settled), now);
    CompletionEnds(s, request, clock, now);
  }

  lemma CompletionEnds(s: Stage, request: CompleteRequest, clock: Time, now: Time)
    requires StageInv(s, clock) && clock <= now && Applies(s, request, now)
    ensures SettledBy(s, request, now).Success? && Ends(s, SettledBy(s, request, now).value, request, now)
  {
    hide Backoff;
    if request.succeeded {
      SucceedSettles(s, request, clock, now);
    } else {
      FailOrRetrySettles(s, Recorded(s, request), request.error, clock, now);
    }
  }

  /** The error a failing completion leaves behind. */
  function ReportedError(request: CompleteRequest): ErrorDetail {
    match request.error
    case Some(error) => error
    case None => ErrorDetail("INTERNAL_ERROR", "The Stage failed without error details", false)
  }

  /** What stages count for in the progress of their task. */
  function Counted(s: Stage): real {
    match s.status
    case Succeeded => 100.0
    case Skipped => 100.0
    case _ => s.progress
  }

  function CountedSum(stages: seq<Stage>): real {
    if stages == [] then 0.0 else Counted(stages[0]) + CountedSum(stages[1..])
  }

  /** Reconciling makes the progress the mean over the stages and dates the end of the task. */
  ghost predicate Reconciled(before: Task, after: Task, now: Time) {
    && after.progress * |after.stages| as real == CountedSum(after.stages)
    && (after.status.Terminal() ==> after.completedAt == Some(now))
    && after.startedAt == before.startedAt && after.createdAt == before.createdAt
  }

  lemma {:induction false} SumsAgree(stages: seq<Stage>)
    ensures TotalCredit(stages) == CountedSum(stages)
  {
    if stages != [] {
      var n := |stages| - 1;
      SumsAgree(stages[..n]);
      SumSplits(stages);
    }
  }

  lemma {:induction false} SumSplits(stages: seq<Stage>)
    requires stages != []
    ensures CountedSum(stages) == CountedSum(stages[..|stages| - 1]) + Counted(stages[|stages| - 1])
  {
    var n := |stages| - 1;
    if n > 0 {
      SumSplits(stages[1..]);
      assert stages[1..][..n - 1] == stages[..n][1..];
    }
  }

  /** The recomputed progress is the exact mean. */
  lemma MeanExact(t: Task, now: Time)
    ensures t.stages != [] ==> UpdateProgress(t, now).progress * |t.stages| as real == CountedSum(t.stages)
    ensures t.stages == [] ==> UpdateProgress(t, now).progress == 0.0
  {
    if t.stages != [] {
      SumsAgree(t.stages);
      Quotient(TotalCredit(t.stages), |t.stages| as real);
    }
  }

  lemma Quotient(total: real, m: real)
    requires 0.0 < m
    ensures total / m * m == total
  {
  }

  lemma ReconciledRow(t: Task, now: Time)
    requires !t.status.Terminal() && t.stages != []
    ensures var r := Reconcile(t, now); r.Success? ==> Reconciled(t, r.value, now)
  {
    hide UpdateProgress, Reconciled, FirstFailed, AbandonAll, LastResult;
    var k := FirstFailed(t.stages);
    if k < |t.stages| {
      AbandonLength(t.stages, now);
      RecomputedRow(t, t.(status := TaskStatus.Failed, error := t.stages[k].error, completedAt := Some(now),
        stages := AbandonAll(t.stages, now)), now);
    } else {
      RecomputedRow(t, t.(status := TaskStatus.Succeeded, progress := 100.0, completedAt := Some(now),
        resultUri := LastResult(t.stages)), now);
      RecomputedRow(t, t.(status := TaskStatus.Pending), now);
      RecomputedRow(t, t, now);
    }
  }

  lemma AbandonLength(stages: seq<Stage>, now: Time)
    ensures |AbandonAll(stages, now)| == |stages|
  {
  }

  lemma RecomputedRow(before: Task, t: Task, now: Time)
    requires t.stages != [] && t.startedAt == before.startedAt && t.createdAt == before.createdAt
    requires t.status.Terminal() ==> t.completedAt == Some(now)
    ensures Reconciled(before, UpdateProgress(t, now), now)
  {
    MeanExact(t, now);
    hide CountedSum;
  }

  /** The error of a failed task is that of its failed stage. */
  lemma CarriedError(t: Task, i: nat, clock: Time)
    requires TaskInv(t, clock) && t.status.Failed? && i < |t.stages| && t.stages[i].status.Failed?
    ensures t.error == t.stages[i].error
  {
  }

  /** Success keeps its result; a failure waits out its backoff, is skipped, or fails with its error. */
  ghost predicate Ends(before: Stage, after: Stage, request: CompleteRequest, now: Time) {
    && Replays(after, request) && after.completionDevice == before.device
    && after.token.None? && after.worker.None? && after.device.None? && after.expiresAt.None?
    && (after.status.Terminal() ==> after.completedAt == Some(now) && after.startedAt == before.startedAt)
    && (request.succeeded ==>
          after.status.Succeeded? && after.resultUri == request.resultUri && after.progress == 100.0)
    && (!request.succeeded && before.attempt < before.spec.maximumAttempts ==>
          after.status.Pending? && after.progress == 0.0 && after.error.None? && after.startedAt.None?
          && after.availableAt == now + Backoff(before.spec.retry, before.attempt))
    && (!request.succeeded && before.attempt == before.spec.maximumAttempts && before.spec.optional ==>
          after.status.Skipped? && after.error.None?)
    && (!request.succeeded && before.attempt == before.spec.maximumAttempts && !before.spec.optional ==>
          after.status.Failed? && after.error == Some(ReportedError(request)))
  }
}

/**
 How one operation moves the stages of a task, pointwise: the facts that the tokens, the
 termination measure, the worker counts and the transition table all rest on.
 */
module Movement {
  import opened Common
  import opened TaskState
  import opened Records
  import opened Lifecycle
  import opened TaskInvariant

  /** What a stage may still cost: an attempt outweighs every step inside an attempt. */
  function Weight(s: Stage): int {
    4 * (s.spec.maximumAttempts - s.attempt)
      + (match s.status case Pending => 1 case Leased => 3 case Running => 2 case _ => 0)
  }

  predicate SameShape(a: Stage, b: Stage) {
    a.status == b.status && a.attempt == b.attempt
  }

  /** Any number of operations, none of them a grant or a manual retry of this stage. */
  ghost predicate Flowed(a: Stage, b: Stage) {
    && b.spec == a.spec
    && b.attempt == a.attempt
    && (a.status.Done() ==> b.status == a.status)
    && (b.status.Done() || b.status.Failed? ==> b.status == a.status || a.status.Active())
    && (b.token.None? || b.token == a.token)
    && (b.status.Active() ==> a.status.Active() && b.worker == a.worker && b.device == a.device && b.token == a.token)
    && (SameShape(a, b) || Weight(b) < Weight(a))
  }

  /** One such operation: the status follows the transition table. */
  ghost predicate Kept(a: Stage, b: Stage) {
    Flowed(a, b) && StagePath(a.status, b.status)
  }

  /** A grant under a fresh token. */
  ghost predicate Handed(a: Stage, b: Stage, token: Token) {
    && b.spec == a.spec
    && a.status.Pending? && b.status.Leased?
    && b.attempt == a.attempt + 1
    && b.token == Some(LeaseDigest(token))
    && Weight(b) < Weight(a)
  }

  /** A manual retry. */
  ghost predicate Reset(a: Stage, b: Stage) {
    && b.spec == a.spec
    && (b == a || ((a.status.Failed? || a.status.Cancelled?) && b.status.Pending? && b.attempt == 0 && b.token.None?))
  }

  ghost predicate AllKept(a: seq<Stage>, b: seq<Stage>) {
    |a| == |b| && forall i :: 0 <= i < |a| ==> Kept(a[i], b[i])
  }

  ghost predicate AllReset(a: seq<Stage>, b: seq<Stage>) {
    |a| == |b| && forall i :: 0 <= i < |a| ==> Reset(a[i], b[i])
  }

  ghost predicate OneHanded(a: seq<Stage>, b: seq<Stage>, i: nat, token: Token) {
    && |a| == |b| && i < |a|
    && b == a[i := b[i]]
    && Handed(a[i], b[i], token)
  }

  lemma SettledKept(a: Stage, b: Stage, clock: Time, now: Time)
    requires StageInv(a, clock) && Settled(a, b, now) && StagePath(a.status, b.status)
    ensures Kept(a, b)
  {
  }

  lemma FailOrRetryPath(s: Stage, h: Stage, error: Option<ErrorDetail>, clock: Time, now: Time)
    requires Held(s, h, clock) && FailOrRetry(h, error, now).Success?
    ensures StagePath(s.status, FailOrRetry(h, error, now).value.status)
  {
  }

  lemma AbandonKept(s: Stage, clock: Time, now: Time)
    requires StageInv(s, clock)
    ensures Kept(s, Abandon(s, now))
  {
  }

  lemma ReconcileMoves(t: Task, i: nat, s: Stage, clock: Time, now: Time)
    requires TaskInv(t, clock) && clock <= now && i < |t.stages| && Settled(t.stages[i], s, now)
    requires StagePath(t.stages[i].status, s.status)
    ensures var r := Reconcile(WithStage(t, i, s), now);
      && r.Success? && AllKept(t.stages, r.value.stages) && r.value.stages[i] == s
      && (r.value.status == t.status || r.value.status in TaskTransitions(t.status))
  {
    ReconcileKeeps(t, i, s, clock, now);
    var r := Reconcile(WithStage(t, i, s), now).value;
    SettledKept(t.stages[i], s, clock, now);
    forall k | 0 <= k < |t.stages| ensures Kept(t.stages[k], r.stages[k]) {
      AbandonKept(t.stages[k], clock, now);
    }
  }

  lemma ReconcileFrame(t: Task, now: Time)
    ensures var r := Reconcile(t, now); r.Success? ==> r.value.request == t.request && r.value.key == t.key
  {
  }

  lemma Lighter(a: Stage, b: Stage)
    requires Kept(a, b) && a.status.Active() && !b.status.Active()
    ensures Weight(b) < Weight(a)
  {
  }

  lemma ExpireMoves(t: Task, i: nat, clock: Time, now: Time)
    requires TaskInv(t, clock) && clock <= now && i < |t.stages| && t.stages[i].status.Active()
    ensures var r := ExpireStage(t, i, now);
      && r.Success? && AllKept(t.stages, r.value.stages)
      && !r.value.stages[i].status.Active()
      && Weight(r.value.stages[i]) < Weight(t.stages[i])
      && (r.value.status == t.status || r.value.status in TaskTransitions(t.status))
      && r.value.request == t.request && r.value.key == t.key
  {
    var s := t.stages[i];
    var error := Some(TimeoutError(s));
    FailOrRetrySettles(s, s, error, clock, now);
    FailOrRetryPath(s, s, error, clock, now);
    var settled := FailOrRetry(s, error, now).value;
    ReconcileMoves(t, i, settled, clock, now);
    ReconcileFrame(WithStage(t, i, settled), now);
    Lighter(s, settled);
  }

  lemma CompletionPath(s: Stage, request: CompleteRequest, clock: Time, now: Time)
    requires StageInv(s, clock) && clock <= now && Applies(s, request, now)
    ensures var r := SettledBy(s, request, now);
      r.Success? && Settled(s, r.value, now) && Replays(r.value, request) && StagePath(s.status, r.value.status)
  {
    CompletionSettles(s, request, clock, now);
    if !request.succeeded {
      FailOrRetryPath(s, Recorded(s, request), request.error, clock, now);
    }
  }

  lemma CompleteMoves(t: Task, i: nat, request: CompleteRequest, clock: Time, now: Time)
    requires TaskInv(t, clock) && clock <= now && i < |t.stages| && Applies(t.stages[i], request, now)
    ensures var r := CompleteStage(t, i, request, now);
      && r.Success? && AllKept(t.stages, r.value.stages)
      && Replays(r.value.stages[i], request) && !r.value.stages[i].status.Active()
      && Weight(r.value.stages[i]) < Weight(t.stages[i])
      && (r.value.status == t.status || r.value.status in TaskTransitions(t.status))
      && r.value.request == t.request && r.value.key == t.key
  {
    var s := t.stages[i];
    CompletionPath(s, request, clock, now);
    var settled := SettledBy(s, request, now).value;
    assert CompleteStage(t, i, request, now) == Reconcile(WithStage(t, i, settled), now);
    ReconcileMoves(t, i, settled, clock, now);
    ReconcileFrame(WithStage(t, i, settled), now);
    Lighter(s, settled);
  }

  lemma GrantMoves(t: Task, i: nat, worker: WorkerId, p: Placement, token: Token, expiresAt: Time, now: Time)
    requires i < |t.stages| && t.stages[i].status.Pending?
    ensures var r := GrantStage(t, i, worker, p, token, expiresAt, now);
      r.Success? ==> (
        && OneHanded(t.stages, r.value.stages, i, token)
        && r.value.request == t.request && r.value.key == t.key)
  {
  }

  lemma RenewMoves(t: Task, i: nat, worker: WorkerId, token: Token, expiresAt: Time, now: Time)
    requires i < |t.stages|
    ensures var r := RenewStage(t, i, worker, token, expiresAt, now);
      r.Success? ==> (
        && AllKept(t.stages, r.value.stages)
        && r.value.status == t.status && r.value.request == t.request && r.value.key == t.key)
  {
  }

  lemma StartMoves(t: Task, i: nat, worker: WorkerId, token: Token, now: Time)
    requires i < |t.stages|
    ensures var r := StartStage(t, i, worker, token, now);
      r.Success? ==> (
        && AllKept(t.stages, r.value.stages)
        && Weight(r.value.stages[i]) < Weight(t.stages[i])
        && (r.value.status == t.status || r.value.status in TaskTransitions(t.status))
        && r.value.request == t.request && r.value.key == t.key)
  {
  }

  lemma ProgressMoves(t: Task, i: nat, worker: WorkerId, token: Token, percent: real, now: Time)
    requires i < |t.stages|
    ensures var r := ReportProgress(t, i, worker, token, percent, now);
      r.Success? ==> (
        && AllKept(t.stages, r.value.stages)
        && r.value.status == t.status && r.value.request == t.request && r.value.key == t.key)
  {
  }

  lemma CancelMoves(t: Task, now: Time)
    ensures var r := CancelTask(t, now);
      r.Success? ==> AllKept(t.stages, r.value.stages) && r.value.request == t.request && r.value.key == t.key
  {
  }

  lemma RetryMoves(t: Task, now: Time)
    ensures var r := RetryTask(t, now);
      r.Success? ==> AllReset(t.stages, r.value.stages) && r.value.request == t.request && r.value.key == t.key
  {
  }
}

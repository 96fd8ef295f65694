/**
 What one operation does to one task and its stages, as functions of the row values.
 A failure is a raised exception; the guards that can raise are written where the code
 has them, and the invariant shows which of them never do.
 */
module Lifecycle {
  import opened Common
  import opened TaskState
  import opened Records

  // ---------- stages ----------

  function ClearLease(s: Stage): Stage {
    s.(worker := None, device := None, token := None, expiresAt := None)
  }

  function RequireValidLease(s: Stage, worker: WorkerId, token: Token, now: Time): Result<()> {
    if s.worker != Some(worker) || s.token != Some(LeaseDigest(token)) then Failure(InvalidLease)
    else if s.expiresAt.None? || s.expiresAt.value <= now then Failure(LeaseExpired)
    else Success(())
  }

  function Power(base: real, exponent: nat): real {
    if exponent == 0 then 1.0 else base * Power(base, exponent - 1)
  }

  /** Seconds a failed attempt waits before the stage may be leased again. */
  function Backoff(r: RetryPolicy, attempt: nat): real {
    MinReal(Uncapped(r, if attempt == 0 then 0 else attempt - 1), r.maximumDelay)
  }

  function Uncapped(r: RetryPolicy, n: nat): real {
    r.initialDelay * Power(r.multiplier, n)
  }

  function Succeeded(s: Stage, resultUri: Option<Uri>, now: Time): Stage {
    ClearLease(s.(
      status := StageStatus.Succeeded, progress := 100.0, resultUri := resultUri,
      completedAt := Some(now), updatedAt := now))
  }

  function SucceedStage(s: Stage, resultUri: Option<Uri>, now: Time): Result<Stage> {
    Then(RequireStage(StageStatus.Running, StageStatus.Succeeded), Success(Succeeded(s, resultUri, now)))
  }

  const NO_DETAILS := ErrorDetail("INTERNAL_ERROR", "The Stage failed without error details", false)

  /** The stage goes back to the queue and waits out its backoff. */
  function Requeued(s: Stage, now: Time): Stage {
    ClearLease(s.(
      status := StageStatus.Pending, progress := 0.0, error := None, startedAt := None, completedAt := None,
      availableAt := now + Backoff(s.spec.retry, s.attempt), updatedAt := now))
  }

  function Skipped(s: Stage, now: Time): Stage {
    ClearLease(s.(status := StageStatus.Skipped, error := None, completedAt := Some(now), updatedAt := now))
  }

  function Failed(s: Stage, error: Option<ErrorDetail>, now: Time): Stage {
    ClearLease(s.(
      status := StageStatus.Failed, error := Some(if error.Some? then error.value else NO_DETAILS),
      completedAt := Some(now), updatedAt := now))
  }

  function RequireRetry(current: StageStatus): Result<()> {
    if current.Running? then
      Then(RequireStage(current, StageStatus.Failed), RequireStage(StageStatus.Failed, StageStatus.Pending))
    else
      RequireStage(current, StageStatus.Pending)
  }

  function FailOrRetry(s: Stage, error: Option<ErrorDetail>, now: Time): Result<Stage> {
    if !s.status.Active() then Failure(StageConflict)
    else if s.attempt < s.spec.maximumAttempts then
      Then(RequireRetry(s.status), Success(Requeued(s, now)))
    else if s.spec.optional then
      Then(RequireStage(s.status, StageStatus.Failed),
        Then(RequireStage(StageStatus.Failed, StageStatus.Skipped), Success(Skipped(s, now))))
    else
      Then(RequireStage(s.status, StageStatus.Failed), Success(Failed(s, error, now)))
  }

  // ---------- tasks ----------

  function WithStage(t: Task, i: nat, s: Stage): Task
    requires i < |t.stages|
  {
    t.(stages := t.stages[i := s])
  }

  function Credit(s: Stage): real {
    if s.status.Done() then 100.0 else s.progress
  }

  function TotalCredit(stages: seq<Stage>): real {
    if stages == [] then 0.0 else TotalCredit(stages[..|stages| - 1]) + Credit(stages[|stages| - 1])
  }

  /** The mean progress of the stages. */
  function UpdateProgress(t: Task, now: Time): Task {
    t.(progress := if t.stages == [] then 0.0 else TotalCredit(t.stages) / |t.stages| as real, updatedAt := now)
  }

  /** Index of the first failed stage, or the number of stages. */
  function FirstFailed(stages: seq<Stage>): (k: nat)
    ensures k <= |stages|
    ensures k < |stages| ==> stages[k].status.Failed?
    ensures forall i :: 0 <= i < k ==> !stages[i].status.Failed?
  {
    if stages == [] then 0
    else
      var k := FirstFailed(stages[..|stages| - 1]);
      if k < |stages| - 1 then k
      else if stages[|stages| - 1].status.Failed? then k
      else |stages|
  }

  /** The result of the last stage that has one. */
  function LastResult(stages: seq<Stage>): Option<Uri> {
    if stages == [] then None
    else if stages[|stages| - 1].resultUri.Some? then stages[|stages| - 1].resultUri
    else LastResult(stages[..|stages| - 1])
  }

  /** What `LastResult` finds. */
  lemma {:induction false} LastResultMeans(stages: seq<Stage>)
    ensures LastResult(stages).None? <==> forall i :: 0 <= i < |stages| ==> stages[i].resultUri.None?
    ensures LastResult(stages).Some? ==> exists i :: LastAt(stages, i) && stages[i].resultUri == LastResult(stages)
  {
    if stages != [] {
      var n := |stages| - 1;
      LastResultMeans(stages[..n]);
      if stages[n].resultUri.Some? {
        assert LastAt(stages, n);
      } else if LastResult(stages).Some? {
        var i :| LastAt(stages[..n], i) && stages[..n][i].resultUri == LastResult(stages[..n]);
        assert LastAt(stages, i);
      }
    }
  }

  /** Stage `i` has a result and no later stage has one. */
  ghost predicate LastAt(stages: seq<Stage>, i: int) {
    && 0 <= i < |stages| && stages[i].resultUri.Some?
    && (forall j :: i < j < |stages| ==> stages[j].resultUri.None?)
  }

  predicate AllDone(stages: seq<Stage>) {
    forall i :: 0 <= i < |stages| ==> stages[i].status.Done()
  }

  predicate NoneHeld(stages: seq<Stage>) {
    forall i :: 0 <= i < |stages| ==> stages[i].status.Pending? || stages[i].status.Done()
  }

  /** What a failing sibling does to an open stage. */
  function Abandon(s: Stage, now: Time): Stage {
    if s.status.Open() then
      ClearLease(s.(status := StageStatus.Cancelled, completedAt := Some(now), updatedAt := now))
    else s
  }

  function AbandonAll(stages: seq<Stage>, now: Time): seq<Stage> {
    seq(|stages|, i requires 0 <= i < |stages| => Abandon(stages[i], now))
  }

  /** Stage `k` has failed: the task fails with its error and the open stages are abandoned. */
  function FailedTask(t: Task, k: nat, now: Time): Task
    requires k < |t.stages|
  {
    UpdateProgress(t.(
      status := TaskStatus.Failed, error := t.stages[k].error, completedAt := Some(now),
      stages := AbandonAll(t.stages, now)), now)
  }

  function SucceededTask(t: Task, now: Time): Task {
    UpdateProgress(t.(
      status := TaskStatus.Succeeded, progress := 100.0, completedAt := Some(now),
      resultUri := LastResult(t.stages)), now)
  }

  /** `_reconcile_task`: the task status that the stage statuses call for. */
  function Reconcile(t: Task, now: Time): Result<Task> {
    var k := FirstFailed(t.stages);
    if k < |t.stages| then
      Then(RequireTask(t.status, TaskStatus.Failed), Success(FailedTask(t, k, now)))
    else if t.stages != [] && AllDone(t.stages) then
      Then(RequireTask(t.status, TaskStatus.Succeeded), Success(SucceededTask(t, now)))
    else if t.status.Leased? && NoneHeld(t.stages) then
      Then(RequireTask(t.status, TaskStatus.Pending), Success(UpdateProgress(t.(status := TaskStatus.Pending), now)))
    else
      Success(UpdateProgress(t, now))
  }

  // ---------- the operations ----------

  predicate DependenciesDone(stages: seq<Stage>, i: nat)
    requires i < |stages|
  {
    forall d :: d in stages[i].spec.dependsOn ==>
      exists j :: 0 <= j < |stages| && stages[j].spec.name == d && stages[j].status.Done()
  }

  /** Where a lease places a stage. */
  datatype Placement = Placement(backend: BackendId, runtime: Runtime, device: DeviceId)

  function Granted(s: Stage, worker: WorkerId, p: Placement, token: Token, expiresAt: Time, now: Time): Stage {
    s.(status := StageStatus.Leased, backend := Some(p.backend), worker := Some(worker), runtime := Some(p.runtime),
       device := Some(p.device), attempt := s.attempt + 1, token := Some(LeaseDigest(token)),
       completionWorker := None, completionDevice := None, completionToken := None, completionRequest := None,
       expiresAt := Some(expiresAt), updatedAt := now)
  }

  /** The body of the lease loop once every gate has let the stage through. */
  function GrantStage(t: Task, i: nat, worker: WorkerId, p: Placement, token: Token, expiresAt: Time, now: Time)
    : Result<Task>
    requires i < |t.stages|
  {
    var granted := WithStage(t, i, Granted(t.stages[i], worker, p, token, expiresAt, now));
    Then(RequireStage(StageStatus.Pending, StageStatus.Leased),
      if t.status.Pending? then
        Then(RequireTask(t.status, TaskStatus.Leased),
          Success(granted.(status := TaskStatus.Leased, updatedAt := now)))
      else
        Success(granted))
  }

  function Renewed(s: Stage, expiresAt: Time, now: Time): Stage {
    s.(expiresAt := Some(expiresAt), updatedAt := now)
  }

  function RenewStage(t: Task, i: nat, worker: WorkerId, token: Token, expiresAt: Time, now: Time): Result<Task>
    requires i < |t.stages|
  {
    var s := t.stages[i];
    Then(RequireValidLease(s, worker, token, now),
      Then(Require(s.status.Active(), StageConflict),
        Success(WithStage(t, i, Renewed(s, expiresAt, now)))))
  }

  function OrNow(time: Option<Time>, now: Time): Option<Time> {
    if time.Some? then time else Some(now)
  }

  function Started(s: Stage, now: Time): Stage {
    s.(status := StageStatus.Running, startedAt := OrNow(s.startedAt, now), updatedAt := now)
  }

  function StartStage(t: Task, i: nat, worker: WorkerId, token: Token, now: Time): Result<Task>
    requires i < |t.stages|
  {
    var s := t.stages[i];
    var started := WithStage(t, i, Started(s, now));
    Then(RequireValidLease(s, worker, token, now),
      Then(Require(s.status.Leased?, StageConflict),
        Then(RequireStage(s.status, StageStatus.Running),
          if t.status.Leased? then
            Then(RequireTask(t.status, TaskStatus.Running),
              Success(started.(
                status := TaskStatus.Running, startedAt := OrNow(t.startedAt, now), updatedAt := now)))
          else
            Success(started))))
  }

  function ReportProgress(t: Task, i: nat, worker: WorkerId, token: Token, percent: real, now: Time): Result<Task>
    requires i < |t.stages|
  {
    var s := t.stages[i];
    Then(RequireValidLease(s, worker, token, now),
      Then(Require(s.status.Running?, StageConflict),
        Success(UpdateProgress(WithStage(t, i, s.(progress := percent, updatedAt := now)), now))))
  }

  /** A completion is already on record: it is replayed or refused, never applied. */
  predicate Replays(s: Stage, request: CompleteRequest) {
    && s.completionWorker == Some(request.worker)
    && s.completionToken == Some(LeaseDigest(request.token))
    && s.completionRequest == Some(CompletionDigest(request))
  }

  function Recorded(s: Stage, request: CompleteRequest): Stage {
    s.(completionWorker := Some(request.worker), completionDevice := s.device,
       completionToken := Some(LeaseDigest(request.token)), completionRequest := Some(CompletionDigest(request)))
  }

  function CompleteStage(t: Task, i: nat, request: CompleteRequest, now: Time): Result<Task>
    requires i < |t.stages|
  {
    var s := t.stages[i];
    if s.completionRequest.Some? then
      if Replays(s, request) then Success(t) else Failure(StageConflict)
    else
      Then(RequireValidLease(s, request.worker, request.token, now),
        Then(Require(s.status.Running?, StageConflict),
          var settled :=
            if request.succeeded then SucceedStage(Recorded(s, request), request.resultUri, now)
            else FailOrRetry(Recorded(s, request), request.error, now);
          if settled.Failure? then Failure(settled.fault)
          else Reconcile(WithStage(t, i, settled.value), now)))
  }

  function TimeoutError(s: Stage): ErrorDetail {
    ErrorDetail("TIMEOUT", "The Stage lease expired", s.attempt < s.spec.maximumAttempts)
  }

  /** One turn of the `requeue_expired` loop. */
  function ExpireStage(t: Task, i: nat, now: Time): Result<Task>
    requires i < |t.stages|
  {
    var settled :- FailOrRetry(t.stages[i], Some(TimeoutError(t.stages[i])), now);
    Reconcile(WithStage(t, i, settled), now)
  }

  /** What cancelling the task does to an open stage: the worker and device stay on record. */
  function CancelStage(s: Stage, now: Time): Stage {
    if s.status.Open() then
      s.(status := StageStatus.Cancelled, completedAt := Some(now), updatedAt := now,
         token := None, expiresAt := None,
         completionWorker := None, completionDevice := None, completionToken := None, completionRequest := None)
    else s
  }

  function CancelAll(stages: seq<Stage>, now: Time): seq<Stage> {
    seq(|stages|, i requires 0 <= i < |stages| => CancelStage(stages[i], now))
  }

  function CancelTask(t: Task, now: Time): Result<Task> {
    if t.status.Terminal() then Failure(TaskNotCancellable)
    else
      Then(RequireTask(t.status, TaskStatus.Cancelled),
        Success(t.(
          status := TaskStatus.Cancelled, completedAt := Some(now), updatedAt := now,
          stages := CancelAll(t.stages, now))))
  }

  /** What a manual retry does to a failed or cancelled stage: the device stays on record. */
  function ResetStage(s: Stage, now: Time): Stage {
    if s.status.Failed? || s.status.Cancelled? then
      s.(status := StageStatus.Pending, progress := 0.0, worker := None, attempt := 0,
         token := None, expiresAt := None,
         completionWorker := None, completionDevice := None, completionToken := None, completionRequest := None,
         error := None, startedAt := None, completedAt := None, updatedAt := now)
    else s
  }

  function ResetAll(stages: seq<Stage>, now: Time): seq<Stage> {
    seq(|stages|, i requires 0 <= i < |stages| => ResetStage(stages[i], now))
  }

  function RetryTask(t: Task, now: Time): Result<Task> {
    if !t.status.Failed? && !t.status.Cancelled? then Failure(TaskNotRetryable)
    else
      Then(RequireTask(t.status, TaskStatus.Pending),
        Success(t.(
          status := TaskStatus.Pending, progress := 0.0, error := None, resultUri := None,
          startedAt := None, completedAt := None, updatedAt := now,
          stages := ResetAll(t.stages, now))))
  }
}

/** What the steps of the outbox do, in terms of the rows, and what that gives over whole runs. */
module CallbackLaws {
  import opened Common
  import opened TaskState
  import opened Records
  import opened Callbacks
  import opened CallbackRuns
  import Lifecycle

  // ---------- what is due ----------

  /** No claim may take the delivery now: finished, waiting for its time, freshly claimed, or out of attempts. */
  ghost predicate AtRest(c: Settings, d: Delivery, now: Time) {
    || d.status.Succeeded? || d.status.Failed? || d.status.Cancelled?
    || (d.status.RetryWait? && d.nextAt.Some? && now < d.nextAt.value)
    || (d.status.Delivering? && now < d.updatedAt + c.claimTimeout)
    || (d.status.Delivering? && d.attempt >= d.maximum)
  }

  /** The last attempt was claimed a claim timeout ago and never answered. */
  ghost predicate GivenUp(c: Settings, d: Delivery, now: Time) {
    d.status.Delivering? && d.updatedAt + c.claimTimeout <= now && d.attempt >= d.maximum
  }

  lemma DueIff(c: Settings, d: Delivery, now: Time)
    requires DeliveryInv(d)
    ensures IsDue(c, d, now) <==> !AtRest(c, d, now)
    ensures IsExhausted(c, d, now) <==> GivenUp(c, d, now)
  {
  }

  /** The row a claim leaves, and the row of a claim that is given up. */
  lemma ClaimRows(d: Delivery, now: Time)
    ensures var e := Claimed(d, now);
      && e.status.Delivering? && e.attempt == d.attempt + 1 && e.sequence == d.sequence + 1
      && e.nextAt.None? && e.updatedAt == now && e.event == d.event && e.task == d.task && e.kind == d.kind
      && e.maximum == d.maximum && e.createdAt == d.createdAt && e.responseCode == d.responseCode
    ensures var e := Exhaust(d, now);
      && e.status.Failed? && e.attempt == d.attempt && e.sequence == d.sequence && e.updatedAt == now
      && e.nextAt == d.nextAt && e.event == d.event && e.task == d.task && e.maximum == d.maximum
      && (d.summary.Some? ==> e.summary == d.summary)
      && (d.summary.None? ==> e.summary == Some(Label("Callback claim expired after the final attempt")))
  {
  }

  // ---------- at least once ----------

  predicate Open(d: Delivery) {
    d.status.Pending? || d.status.RetryWait? || d.status.Delivering?
  }

  /** The delivery was taken for another attempt, or given up after its last. */
  ghost predicate Attended(d: Delivery, e: Delivery, now: Time) {
    || (e.status.Delivering? && e.attempt == d.attempt + 1 && e.sequence == d.sequence + 1 && e.updatedAt == now)
    || (e.status.Failed? && e.attempt == d.attempt == d.maximum)
  }

  /** Some claim that is possible now attends to the delivery. */
  ghost predicate Attendable(c: Settings, o: Outbox, id: DeliveryId, now: Time) {
    id in o.deliveries && exists exhausted, due ::
      && Possible(c, o, Claim(exhausted, due, now))
      && id in ClaimDue(o, exhausted, due, now).deliveries
      && Attended(o.deliveries[id], ClaimDue(o, exhausted, due, now).deliveries[id], now)
  }

  /** The time from which on an open delivery can be attended to. */
  function AttendFrom(c: Settings, d: Delivery): Time {
    match d.status
    case Delivering => d.updatedAt + c.claimTimeout
    case RetryWait => (match d.nextAt case Some(t) => t case None => d.createdAt)
    case _ => d.createdAt
  }

  lemma OpenAttendable(c: Settings, o: Outbox, id: DeliveryId, now: Time)
    requires Inv(o) && id in o.deliveries && Open(o.deliveries[id]) && AttendFrom(c, o.deliveries[id]) <= now
    ensures Attendable(c, o, id, now)
  {
    var d := o.deliveries[id];
    assert DeliveryInv(d);
    DueIff(c, d, now);
    if GivenUp(c, d, now) {
      assert Possible(c, o, Claim(Some(id), None, now));
      assert Attended(d, ClaimDue(o, Some(id), None, now).deliveries[id], now);
    } else {
      assert Possible(c, o, Claim(None, Some(id), now));
      assert Attended(d, ClaimDue(o, None, Some(id), now).deliveries[id], now);
    }
  }

  /**
   At least once: in every reachable outbox, an open delivery, whatever became of the
   dispatcher that claimed it, has a time from which on a claim can attend to it.
   */
  lemma AtLeastOnce(c: Settings, acts: seq<Act>, id: DeliveryId) returns (from: Time)
    requires Feasible(c, EMPTY_OUTBOX, acts) && id in Run(c, EMPTY_OUTBOX, acts).deliveries
    requires Open(Run(c, EMPTY_OUTBOX, acts).deliveries[id])
    ensures forall now :: from <= now ==> Attendable(c, Run(c, EMPTY_OUTBOX, acts), id, now)
  {
    hide Run, Feasible, Attendable, Inv;
    EmptyAccounted();
    RunKeeps(c, EMPTY_OUTBOX, acts);
    var o := Run(c, EMPTY_OUTBOX, acts);
    from := AttendFrom(c, o.deliveries[id]);
    forall now | from <= now ensures Attendable(c, o, id, now) {
      OpenAttendable(c, o, id, now);
    }
  }

  // ---------- results ----------

  /** What a result under the current sequence makes of the delivery. */
  ghost predicate Settles(c: Settings, d: Delivery, e: Delivery, r: Response, now: Time) {
    && (e.status.Succeeded? <==> r.delivered)
    && (e.status.RetryWait? <==> !r.delivered && r.retryable && d.attempt < d.maximum)
    && (e.status.Failed? <==> !r.delivered && (!r.retryable || d.attempt >= d.maximum))
    && (e.status.RetryWait? ==> e.nextAt == Some(now + RetryDelay(c, d.attempt)))
    && (!e.status.RetryWait? ==> e.nextAt.None?)
    && e.responseCode == r.code && e.summary == r.summary && e.updatedAt == now
    && e.attempt == d.attempt && e.sequence == d.sequence && e.maximum == d.maximum
    && e.event == d.event && e.task == d.task && e.kind == d.kind && e.createdAt == d.createdAt
  }

  /** The result moves the delivery under its current sequence, and no delivery under any other. */
  lemma ResultLaw(c: Settings, o: Outbox, t: Ticket, r: Response, now: Time)
    requires t.delivery in o.deliveries
    ensures var n := RecordResult(c, o, t, r, now);
      && n.deliveries.Keys == o.deliveries.Keys
      && (forall id :: id in o.deliveries && id != t.delivery ==> n.deliveries[id] == o.deliveries[id])
      && (t.sequence == o.deliveries[t.delivery].sequence ==>
            Settles(c, o.deliveries[t.delivery], n.deliveries[t.delivery], r, now))
      && (t.sequence != o.deliveries[t.delivery].sequence ==> n.deliveries[t.delivery] == o.deliveries[t.delivery])
  {
    hide RetryDelay;
  }

  /** Retry delays: the initial one, then doubled from attempt to attempt, up to the maximum. */
  lemma RetryDelayRecurrence(c: Settings, attempt: nat)
    requires SettingsValid(c)
    ensures RetryDelay(c, 0) == RetryDelay(c, 1) == c.initialRetry
    ensures attempt >= 1 ==> RetryDelay(c, attempt + 1) == MinReal(2.0 * RetryDelay(c, attempt), c.maximumRetry)
  {
    assert Lifecycle.Power(2.0, 0) == 1.0;
    assert c.initialRetry * 1.0 == c.initialRetry;
    if attempt >= 1 {
      var p := Lifecycle.Power(2.0, attempt - 1);
      assert Lifecycle.Power(2.0, attempt) == 2.0 * p;
      assert c.initialRetry * (2.0 * p) == 2.0 * (c.initialRetry * p);
    }
  }

  /** A resend is refused exactly for an open delivery; a finished one starts afresh under its old sequence. */
  lemma ResendIff(o: Outbox, id: DeliveryId, now: Time)
    requires id in o.deliveries
    ensures var n, d := Resend(o, id, now), o.deliveries[id];
      && (n.Failure? <==> Open(d))
      && (n.Failure? ==> n.fault == CallbackNotRetryable)
      && (n.Success? ==> id in n.value.deliveries)
      && (n.Success? ==> StartsAfresh(d, n.value.deliveries[id], now))
  {
  }

  ghost predicate StartsAfresh(d: Delivery, e: Delivery, now: Time) {
    && e.status.Pending? && e.attempt == 0 && e.sequence == d.sequence && e.maximum == d.maximum
    && e.responseCode.None? && e.summary.None? && e.nextAt.None? && e.updatedAt == now
    && e.event == d.event && e.task == d.task && e.kind == d.kind && e.createdAt == d.createdAt
  }

  // ---------- success is backed by a delivered attempt ----------

  /** The attempt of the current sequence is stored, and was delivered. */
  ghost predicate Delivered(o: Outbox, id: DeliveryId)
    requires id in o.deliveries
  {
    exists i :: 0 <= i < |o.attempts| && Uses(o.attempts[i], id, o.deliveries[id].sequence) && o.attempts[i].delivered
  }

  /** A delivery counts as succeeded only on a delivered attempt, and after one only a resend reopens it. */
  ghost predicate Truthful(o: Outbox) {
    forall id :: id in o.deliveries ==>
      && (o.deliveries[id].status.Succeeded? ==> Delivered(o, id))
      && (Delivered(o, id) ==> o.deliveries[id].status.Succeeded? || o.deliveries[id].status.Pending?)
  }

  /** Same attempts, same sequence: same answer. */
  lemma DeliveredSame(o: Outbox, n: Outbox, id: DeliveryId)
    requires id in o.deliveries && id in n.deliveries
    requires n.attempts == o.attempts && n.deliveries[id].sequence == o.deliveries[id].sequence
    ensures Delivered(n, id) <==> Delivered(o, id)
  {
  }

  lemma MaterializeTruthful(
    o: Outbox, selected: seq<EventId>, tasks: map<TaskId, Subscription>, maximum: nat, now: Time)
    requires Inv(o) && Truthful(o) && AllMaterializable(o, selected) && 1 <= maximum <= 20
    ensures Truthful(MaterializeAll(o, selected, tasks, maximum, now))
  {
    MaterializeKeeps(o, selected, tasks, maximum, now);
    var n := MaterializeAll(o, selected, tasks, maximum, now);
    hide MaterializeAll, Inv;
    forall id | id in n.deliveries
      ensures n.deliveries[id].status.Succeeded? ==> Delivered(n, id)
      ensures Delivered(n, id) ==> n.deliveries[id].status.Succeeded? || n.deliveries[id].status.Pending?
    {
      if id in o.deliveries {
        DeliveredSame(o, n, id);
      }
    }
  }

  /** A sequence that was just handed out has no attempt yet. */
  lemma NewSequence(o: Outbox, id: DeliveryId, n: Outbox)
    requires Inv(o) && id in o.deliveries && id in n.deliveries && n.attempts == o.attempts
    requires n.deliveries[id].sequence == o.deliveries[id].sequence + 1
    ensures !Delivered(n, id)
  {
  }

  lemma ClaimTruthful(c: Settings, o: Outbox, exhausted: Option<DeliveryId>, due: Option<DeliveryId>, now: Time)
    requires Inv(o) && Truthful(o) && Possible(c, o, Claim(exhausted, due, now))
    ensures Truthful(ClaimDue(o, exhausted, due, now))
  {
    var n := ClaimDue(o, exhausted, due, now);
    ClaimKeys(o, exhausted, due, now);
    hide Inv;
    forall id | id in n.deliveries
      ensures n.deliveries[id].status.Succeeded? ==> Delivered(n, id)
      ensures Delivered(n, id) ==> n.deliveries[id].status.Succeeded? || n.deliveries[id].status.Pending?
    {
      ClaimFollows(c, o, exhausted, due, now, id);
      if due == Some(id) {
        NewSequence(o, id, n);
      } else {
        DeliveredSame(o, n, id);
      }
    }
  }

  lemma ClaimKeys(o: Outbox, exhausted: Option<DeliveryId>, due: Option<DeliveryId>, now: Time)
    ensures ClaimDue(o, exhausted, due, now).deliveries.Keys == o.deliveries.Keys
    ensures ClaimDue(o, exhausted, due, now).attempts == o.attempts
  {
  }

  lemma RecordTruthful(c: Settings, o: Outbox, t: Ticket, r: Response, now: Time)
    requires Inv(o) && Truthful(o) && t in o.tickets
    ensures Truthful(RecordResult(c, o, t, r, now))
  {
    var n, last := RecordResult(c, o, t, r, now), |o.attempts|;
    ResultLaw(c, o, t, r, now);
    RecordAttempt(c, o, t, r, now);
    forall id | id in n.deliveries
      ensures n.deliveries[id].status.Succeeded? ==> Delivered(n, id)
      ensures Delivered(n, id) ==> n.deliveries[id].status.Succeeded? || n.deliveries[id].status.Pending?
    {
      if id == t.delivery && t.sequence == o.deliveries[id].sequence {
        assert forall i :: 0 <= i < last ==> !Uses(o.attempts[i], id, t.sequence);
        assert Uses(n.attempts[last], id, t.sequence);
      } else {
        assert !Uses(n.attempts[last], id, n.deliveries[id].sequence);
        DeliveredPrefix(o, n, id);
      }
    }
  }

  lemma RecordAttempt(c: Settings, o: Outbox, t: Ticket, r: Response, now: Time)
    requires t.delivery in o.deliveries
    ensures RecordResult(c, o, t, r, now).attempts ==
      o.attempts + [Attempt(t.delivery, t.sequence, t.number, r.delivered)]
  {
  }

  lemma DeliveredPrefix(o: Outbox, n: Outbox, id: DeliveryId)
    requires id in o.deliveries && id in n.deliveries && n.deliveries[id].sequence == o.deliveries[id].sequence
    requires |n.attempts| == |o.attempts| + 1 && n.attempts[..|o.attempts|] == o.attempts
    requires !Uses(n.attempts[|o.attempts|], id, n.deliveries[id].sequence)
    ensures Delivered(n, id) <==> Delivered(o, id)
  {
    assert forall i :: 0 <= i < |o.attempts| ==> n.attempts[i] == n.attempts[..|o.attempts|][i];
    if Delivered(o, id) {
      var i :| 0 <= i < |o.attempts| && Uses(o.attempts[i], id, o.deliveries[id].sequence) && o.attempts[i].delivered;
      assert n.attempts[i] == o.attempts[i];
    }
  }

  lemma ResendTruthful(o: Outbox, id: DeliveryId, now: Time)
    requires Truthful(o) && id in o.deliveries && Resend(o, id, now).Success?
    ensures Truthful(Resend(o, id, now).value)
  {
    var n := Resend(o, id, now).value;
    forall x | x in n.deliveries
      ensures n.deliveries[x].status.Succeeded? ==> Delivered(n, x)
      ensures Delivered(n, x) ==> n.deliveries[x].status.Succeeded? || n.deliveries[x].status.Pending?
    {
      DeliveredSame(o, n, x);
    }
  }

  lemma SameDeliveries(o: Outbox, n: Outbox)
    requires Truthful(o) && n.deliveries == o.deliveries && n.attempts == o.attempts
    ensures Truthful(n)
  {
    forall id | id in n.deliveries
      ensures n.deliveries[id].status.Succeeded? ==> Delivered(n, id)
      ensures Delivered(n, id) ==> n.deliveries[id].status.Succeeded? || n.deliveries[id].status.Pending?
    {
      DeliveredSame(o, n, id);
    }
  }

  lemma StepTruthful(c: Settings, o: Outbox, a: Act)
    requires Inv(o) && Possible(c, o, a) && Truthful(o)
    ensures Truthful(Step(c, o, a))
  {
    hide Inv, Truthful;
    match a
    case PublishEvent(_, _, _) => SameDeliveries(o, Step(c, o, a));
    case Materialize(selected, tasks, maximum, now) => MaterializeTruthful(o, selected, tasks, maximum, now);
    case Claim(exhausted, due, now) => ClaimTruthful(c, o, exhausted, due, now);
    case Record(ticket, response, now) => RecordTruthful(c, o, ticket, response, now);
    case ResendDelivery(id, now) =>
      if id in o.deliveries && Resend(o, id, now).Success? {
        ResendTruthful(o, id, now);
      }
    case RetainEvents(_, _) => SameDeliveries(o, Step(c, o, a));
  }

  /** Over every run a delivery is succeeded only on a delivered attempt of its current sequence. */
  lemma {:induction false} SuccessBacked(c: Settings, o: Outbox, acts: seq<Act>)
    requires Inv(o) && Truthful(o) && Feasible(c, o, acts)
    ensures Truthful(Run(c, o, acts))
    decreases |acts|
  {
    hide Inv, Truthful, Possible, Step;
    if acts != [] {
      var n := |acts| - 1;
      FeasiblePrefix(c, o, acts, n);
      SuccessBacked(c, o, acts[..n]);
      Midway(c, o, acts, n);
      assert acts[..n + 1] == acts;
      StepTruthful(c, Run(c, o, acts[..n]), acts[n]);
    }
  }

  // ---------- which callback an event makes ----------

  /** The configured task of the event subscribed to the callback. */
  ghost predicate Subscribed(event: Event, tasks: map<TaskId, Subscription>, kind: CallbackKind) {
    && event.task.Some? && event.task.value in tasks && tasks[event.task.value].events.Some?
    && kind in tasks[event.task.value].events.value
  }

  /**
   Each selected event makes the callback of its own kind and no other, and only for a
   subscribed task: created, progress, running, succeeded, cancelled, and failed as long as
   the task has an error.  A task that is leased or pending again makes none.
   */
  lemma CallbackOfEvent(
    o: Outbox, selected: seq<EventId>, tasks: map<TaskId, Subscription>, maximum: nat, now: Time, e: EventId)
    requires Inv(o) && AllMaterializable(o, selected) && 1 <= maximum <= 20 && e in selected
    ensures e in o.events
    ensures var n, event := MaterializeAll(o, selected, tasks, maximum, now), o.events[e];
      && (Delivers(n, e, CreatedCallback) <==> event.kind.TaskCreated? && Subscribed(event, tasks, CreatedCallback))
      && (Delivers(n, e, ProgressCallback) <==>
            event.kind.ProgressUpdated? && Subscribed(event, tasks, ProgressCallback))
      && (Delivers(n, e, RunningCallback) <==>
            event.kind == StatusChanged(TaskStatus.Running) && Subscribed(event, tasks, RunningCallback))
      && (Delivers(n, e, SucceededCallback) <==>
            event.kind == StatusChanged(TaskStatus.Succeeded) && Subscribed(event, tasks, SucceededCallback))
      && (Delivers(n, e, CancelledCallback) <==>
            event.kind == StatusChanged(TaskStatus.Cancelled) && Subscribed(event, tasks, CancelledCallback))
      && (Delivers(n, e, FailedCallback) <==>
            event.kind == StatusChanged(TaskStatus.Failed) && Subscribed(event, tasks, FailedCallback)
            && tasks[event.task.value].task.error.Some?)
  {
    MaterializeExact(o, selected, tasks, maximum, now, e);
    hide MaterializeAll, Delivers, Inv;
  }

  /** The rows that materialising adds. */
  ghost predicate AddedRow(o: Outbox, d: Delivery, maximum: nat, now: Time) {
    && d.status.Pending? && d.attempt == 0 && d.sequence == 0 && d.maximum == maximum && d.nextAt.None?
    && d.createdAt == now && d.updatedAt == now && d.responseCode.None? && d.summary.None?
    && d.event in o.events && o.events[d.event].task == Some(d.task)
  }

  lemma {:induction false} AddedRows(
    o: Outbox, selected: seq<EventId>, tasks: map<TaskId, Subscription>, maximum: nat, now: Time, id: DeliveryId)
    requires Inv(o) && AllMaterializable(o, selected) && 1 <= maximum <= 20
    requires id in MaterializeAll(o, selected, tasks, maximum, now).deliveries && id !in o.deliveries
    ensures AddedRow(o, MaterializeAll(o, selected, tasks, maximum, now).deliveries[id], maximum, now)
    decreases |selected|
  {
    if selected != [] {
      RestMaterializable(o, selected, tasks, maximum, now);
      var n := MaterializeOne(o, selected[0], tasks, maximum, now);
      assert selected[0] in selected;
      if id in n.deliveries {
        MaterializeStays(n, selected[1..], tasks, maximum, now, id);
      } else {
        AddedRows(n, selected[1..], tasks, maximum, now, id);
        var added := MaterializeAll(n, selected[1..], tasks, maximum, now).deliveries[id];
        AddedBack(o, selected[0], tasks, maximum, now, added);
        MaterializeKeeps(n, selected[1..], tasks, maximum, now);
      }
    }
  }

  lemma AddedBack(o: Outbox, e: EventId, tasks: map<TaskId, Subscription>, maximum: nat, now: Time, d: Delivery)
    requires Inv(o) && Materializable(o, e)
    requires AddedRow(MaterializeOne(o, e, tasks, maximum, now), d, maximum, now)
    ensures d.event in o.events ==> AddedRow(o, d, maximum, now)
  {
  }

  // ---------- retention ----------

  /** What a retention pass deletes was old enough, and was handled or is no source of callbacks. */
  lemma DeletedWasOld(c: Settings, o: Outbox, a: Act, e: EventId)
    requires Inv(o) && Possible(c, o, a) && e in o.events && e !in Step(c, o, a).events
    ensures a.RetainEvents? && c.retention.Some? && o.events[e].occurredAt + c.retention.value <= a.now
    ensures o.events[e].processed || o.events[e].kind.DeliveryChanged? || o.events[e].kind.Unrelated?
  {
    match a
    case Materialize(selected, tasks, maximum, now) => MaterializeKeeps(o, selected, tasks, maximum, now);
    case _ =>
  }

  /** A published event is stored under the next identifier, not yet handled. */
  lemma PublishMeans(o: Outbox, kind: EventKind, task: Option<TaskId>, now: Time)
    ensures var n := Publish(o, kind, task, now);
      && o.nextEvent in n.events && n.events[o.nextEvent] == Event(kind, task, false, now)
      && n.nextEvent == o.nextEvent + 1 && n.deliveries == o.deliveries && n.attempts == o.attempts
      && (forall e :: e in o.events && e != o.nextEvent ==> e in n.events && n.events[e] == o.events[e])
  {
  }
}

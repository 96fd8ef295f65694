/**
 The callback outbox: task events become deliveries, deliveries are claimed, attempted,
 recorded, retried and resent, and retention deletes events underneath.
 What a query returns is part of the action, constrained by `Possible`.
 */
module Callbacks {
  import opened Common
  import opened TaskState
  import opened Records
  import Lifecycle

  type EventId = nat
  type DeliveryId = nat

  datatype DeliveryStatus = Pending | Delivering | Succeeded | RetryWait | Failed | Cancelled

  datatype CallbackKind =
    | CreatedCallback
    | RunningCallback
    | ProgressCallback
    | SucceededCallback
    | FailedCallback
    | CancelledCallback

  datatype EventKind =
    | TaskCreated
    | StatusChanged(current: TaskStatus)
    | ProgressUpdated
    | DeliveryChanged(delivery: DeliveryId)
    | Unrelated

  datatype Event = Event(kind: EventKind, task: Option<TaskId>, processed: bool, occurredAt: Time)

  datatype Delivery = Delivery(
    event: EventId,
    kind: CallbackKind,
    task: TaskId,
    status: DeliveryStatus,
    attempt: nat,
    sequence: nat,
    maximum: nat,
    responseCode: Option<int>,
    summary: Option<Label>,
    nextAt: Option<Time>,
    createdAt: Time,
    updatedAt: Time
  )

  /** What a dispatcher remembers between claiming a delivery and recording its result. */
  datatype Ticket = Ticket(delivery: DeliveryId, sequence: nat, number: nat)

  datatype Response = Response(delivered: bool, retryable: bool, code: Option<int>, summary: Option<Label>)

  /** A stored attempt; the table has a unique constraint on delivery and sequence. */
  datatype Attempt = Attempt(delivery: DeliveryId, sequence: nat, number: nat, delivered: bool)

  /** A task with its callback configuration: the kinds it subscribed to. */
  datatype Subscription = Subscription(task: Task, events: Option<set<CallbackKind>>)

  datatype Settings = Settings(initialRetry: real, maximumRetry: real, claimTimeout: real, retention: Option<real>)

  /** Deployment settings are validated to be positive and ordered. */
  ghost predicate SettingsValid(c: Settings) {
    0.0 < c.initialRetry <= c.maximumRetry && 0.0 < c.claimTimeout && (c.retention.Some? ==> 1.0 <= c.retention.value)
  }

  datatype Outbox = Outbox(
    events: map<EventId, Event>,
    nextEvent: EventId,
    deliveries: map<DeliveryId, Delivery>,
    nextDelivery: DeliveryId,
    attempts: seq<Attempt>,
    tickets: set<Ticket>
  )

  // ---------- events ----------

  /** The events that callbacks are made from. */
  predicate Source(k: EventKind) {
    k.TaskCreated? || k.StatusChanged? || k.ProgressUpdated?
  }

  function Publish(o: Outbox, kind: EventKind, task: Option<TaskId>, now: Time): Outbox {
    o.(events := o.events[o.nextEvent := Event(kind, task, false, now)], nextEvent := o.nextEvent + 1)
  }

  function Announce(o: Outbox, id: DeliveryId, now: Time): Outbox
    requires id in o.deliveries
  {
    Publish(o, DeliveryChanged(id), Some(o.deliveries[id].task), now)
  }

  // ---------- materialising ----------

  /** The callback an event stands for, given how its task stands now. */
  function KindOf(event: EventKind, task: Task): Option<CallbackKind> {
    match event
    case TaskCreated => Some(CreatedCallback)
    case ProgressUpdated => Some(ProgressCallback)
    case StatusChanged(current) =>
      (match current
       case Running => Some(RunningCallback)
       case Succeeded => Some(SucceededCallback)
       case Failed => if task.error.None? then None else Some(FailedCallback)
       case Cancelled => Some(CancelledCallback)
       case _ => None)
    case _ => None
  }

  /** `_callback_event`, with the checks in front of it. */
  function Mapped(event: Event, tasks: map<TaskId, Subscription>): Option<CallbackKind> {
    if event.task.None? || event.task.value !in tasks || tasks[event.task.value].events.None? then None
    else
      var kind := KindOf(event.kind, tasks[event.task.value].task);
      if kind.Some? && kind.value in tasks[event.task.value].events.value then kind else None
  }

  function NewDelivery(event: EventId, kind: CallbackKind, task: TaskId, maximum: nat, now: Time): Delivery {
    Delivery(event, kind, task, DeliveryStatus.Pending, 0, 0, maximum, None, None, None, now, now)
  }

  function MaterializeOne(o: Outbox, e: EventId, tasks: map<TaskId, Subscription>, maximum: nat, now: Time): Outbox
    requires e in o.events
  {
    var event := o.events[e];
    var kind := Mapped(event, tasks);
    var marked := o.(events := o.events[e := event.(processed := true)]);
    if kind.None? then marked
    else
      var d := NewDelivery(e, kind.value, event.task.value, maximum, now);
      Announce(
        marked.(deliveries := o.deliveries[o.nextDelivery := d], nextDelivery := o.nextDelivery + 1),
        o.nextDelivery, now)
  }

  function MaterializeAll(
    o: Outbox, selected: seq<EventId>, tasks: map<TaskId, Subscription>, maximum: nat, now: Time): Outbox
    decreases |selected|
  {
    if selected == [] || selected[0] !in o.events then o
    else MaterializeAll(MaterializeOne(o, selected[0], tasks, maximum, now), selected[1..], tasks, maximum, now)
  }

  predicate Materializable(o: Outbox, e: EventId) {
    && e in o.events && Source(o.events[e].kind) && o.events[e].task.Some? && !o.events[e].processed
    && (forall d :: d in o.deliveries ==> o.deliveries[d].event != e)
  }

  // ---------- claiming ----------

  function StaleBefore(c: Settings, now: Time): Time {
    now - c.claimTimeout
  }

  predicate IsExhausted(c: Settings, d: Delivery, now: Time) {
    d.status.Delivering? && d.updatedAt <= StaleBefore(c, now) && d.attempt >= d.maximum
  }

  predicate IsDue(c: Settings, d: Delivery, now: Time) {
    || d.status.Pending?
    || (d.status.RetryWait? && d.nextAt.Some? && d.nextAt.value <= now)
    || (d.status.Delivering? && d.updatedAt <= StaleBefore(c, now) && d.attempt < d.maximum)
  }

  const CLAIM_EXPIRED := Label("Callback claim expired after the final attempt")

  function Exhaust(d: Delivery, now: Time): Delivery {
    d.(status := DeliveryStatus.Failed, updatedAt := now,
       summary := if d.summary.Some? then d.summary else Some(CLAIM_EXPIRED))
  }

  function Claimed(d: Delivery, now: Time): Delivery {
    d.(status := Delivering, attempt := d.attempt + 1, sequence := d.sequence + 1, nextAt := None, updatedAt := now)
  }

  function PutDelivery(o: Outbox, id: DeliveryId, d: Delivery, now: Time): Outbox {
    Announce(o.(deliveries := o.deliveries[id := d]), id, now)
  }

  function FailExhausted(o: Outbox, exhausted: Option<DeliveryId>, now: Time): Outbox {
    if exhausted.None? || exhausted.value !in o.deliveries then o
    else PutDelivery(o, exhausted.value, Exhaust(o.deliveries[exhausted.value], now), now)
  }

  /** `claim_due`: gives up one exhausted claim, then claims one due delivery. */
  function ClaimDue(o: Outbox, exhausted: Option<DeliveryId>, due: Option<DeliveryId>, now: Time): Outbox {
    var swept := FailExhausted(o, exhausted, now);
    if due.None? || due.value !in swept.deliveries then swept
    else
      var d := Claimed(swept.deliveries[due.value], now);
      var claimed := PutDelivery(swept, due.value, d, now);
      claimed.(tickets := o.tickets + {Ticket(due.value, d.sequence, d.attempt)})
  }

  // ---------- results ----------

  function RetryDelay(c: Settings, attempt: nat): real {
    MinReal(c.initialRetry * Lifecycle.Power(2.0, if attempt == 0 then 0 else attempt - 1), c.maximumRetry)
  }

  function Answered(c: Settings, d: Delivery, r: Response, now: Time): Delivery {
    var e := d.(responseCode := r.code, summary := r.summary, updatedAt := now);
    if r.delivered then e.(status := DeliveryStatus.Succeeded, nextAt := None)
    else if r.retryable && d.attempt < d.maximum then
      e.(status := RetryWait, nextAt := Some(now + RetryDelay(c, d.attempt)))
    else e.(status := DeliveryStatus.Failed, nextAt := None)
  }

  /** `record_result`: the attempt is always stored; the delivery moves only for its current sequence. */
  function RecordResult(c: Settings, o: Outbox, t: Ticket, r: Response, now: Time): Outbox {
    if t.delivery !in o.deliveries then o.(tickets := o.tickets - {t})
    else
      var d := o.deliveries[t.delivery];
      var stored := o.(
        tickets := o.tickets - {t}, attempts := o.attempts + [Attempt(t.delivery, t.sequence, t.number, r.delivered)]);
      if d.sequence != t.sequence then stored
      else PutDelivery(stored, t.delivery, Answered(c, d, r, now), now)
  }

  // ---------- manual resend and retention ----------

  function Reopened(d: Delivery, now: Time): Delivery {
    d.(status := DeliveryStatus.Pending, attempt := 0, responseCode := None, summary := None,
       nextAt := None, updatedAt := now)
  }

  predicate Resendable(d: Delivery) {
    d.status.Failed? || d.status.Cancelled? || d.status.Succeeded?
  }

  /** `retry`: nothing for an unknown delivery, a fault for an open one. */
  function Resend(o: Outbox, id: DeliveryId, now: Time): Result<Outbox> {
    if id !in o.deliveries then Success(o)
    else if !Resendable(o.deliveries[id]) then Failure(CallbackNotRetryable)
    else Success(PutDelivery(o, id, Reopened(o.deliveries[id], now), now))
  }

  predicate Deletable(c: Settings, o: Outbox, e: EventId, now: Time) {
    && c.retention.Some? && e in o.events
    && o.events[e].occurredAt <= now - c.retention.value
    && (o.events[e].processed || !Source(o.events[e].kind))
  }

  function Retain(o: Outbox, expired: seq<EventId>): Outbox {
    o.(events := o.events - Elements(expired))
  }

  // ---------- all together ----------

  datatype Act =
    | PublishEvent(kind: EventKind, task: Option<TaskId>, now: Time)
    | Materialize(selected: seq<EventId>, tasks: map<TaskId, Subscription>, maximum: nat, now: Time)
    | Claim(exhausted: Option<DeliveryId>, due: Option<DeliveryId>, now: Time)
    | Record(ticket: Ticket, response: Response, now: Time)
    | ResendDelivery(delivery: DeliveryId, now: Time)
    | RetainEvents(expired: seq<EventId>, now: Time)

  function Step(c: Settings, o: Outbox, a: Act): Outbox {
    match a
    case PublishEvent(kind, task, now) => Publish(o, kind, task, now)
    case Materialize(selected, tasks, maximum, now) => MaterializeAll(o, selected, tasks, maximum, now)
    case Claim(exhausted, due, now) => ClaimDue(o, exhausted, due, now)
    case Record(ticket, response, now) => RecordResult(c, o, ticket, response, now)
    case ResendDelivery(id, now) => (match Resend(o, id, now) case Success(n) => n case Failure(_) => o)
    case RetainEvents(expired, now) => Retain(o, expired)
  }

  /** Queries tell the truth, settings are in range, and a result is recorded once per claim. */
  ghost predicate Possible(c: Settings, o: Outbox, a: Act) {
    match a
    case Materialize(selected, tasks, maximum, now) =>
      1 <= maximum <= 20 && Distinct(selected) && forall e :: e in selected ==> Materializable(o, e)
    case Claim(exhausted, due, now) =>
      && (exhausted.Some? ==> exhausted.value in o.deliveries && IsExhausted(c, o.deliveries[exhausted.value], now))
      && (due.Some? ==> due.value in o.deliveries && IsDue(c, o.deliveries[due.value], now))
    case Record(ticket, response, now) => ticket in o.tickets
    case RetainEvents(expired, now) => forall e :: e in expired ==> Deletable(c, o, e, now)
    case _ => true
  }

  function Run(c: Settings, o: Outbox, acts: seq<Act>): Outbox {
    if acts == [] then o else Step(c, Run(c, o, acts[..|acts| - 1]), acts[|acts| - 1])
  }

  ghost predicate Feasible(c: Settings, o: Outbox, acts: seq<Act>) {
    forall i :: 0 <= i < |acts| ==> Possible(c, Run(c, o, acts[..i]), acts[i])
  }

  // ---------- the invariant ----------

  /** One delivery row, times aside: what `validate_delivery` demands and what keeps it true. */
  ghost predicate DeliveryInv(d: Delivery) {
    && 1 <= d.maximum <= 20
    && d.attempt <= d.maximum
    && d.attempt <= d.sequence
    && (d.status.Pending? ==> d.attempt == 0)
    && (d.status.RetryWait? <==> d.nextAt.Some?)
    && (d.status.RetryWait? ==> d.attempt < d.maximum)
    && (d.status.Delivering? ==> 1 <= d.attempt)
  }

  ghost predicate DeliveriesInv(o: Outbox) {
    forall d :: d in o.deliveries ==> d < o.nextDelivery && DeliveryInv(o.deliveries[d])
  }

  /** One delivery per event, and only for events that were marked. */
  ghost predicate EventsInv(o: Outbox) {
    && (forall e :: e in o.events ==> e < o.nextEvent)
    && (forall d :: d in o.deliveries ==> o.deliveries[d].event < o.nextEvent)
    && (forall a, b :: a in o.deliveries && b in o.deliveries && o.deliveries[a].event == o.deliveries[b].event ==>
          a == b)
    && (forall d :: d in o.deliveries && o.deliveries[d].event in o.events ==>
          o.events[o.deliveries[d].event].processed)
  }

  ghost predicate Uses(a: Attempt, id: DeliveryId, sequence: nat) {
    a.delivery == id && a.sequence == sequence
  }

  /** Attempt rows meet their unique constraint, and no outstanding ticket can break it. */
  ghost predicate AttemptsInv(o: Outbox) {
    && (forall i, j :: 0 <= i < j < |o.attempts| ==>
          !Uses(o.attempts[j], o.attempts[i].delivery, o.attempts[i].sequence))
    && (forall i :: 0 <= i < |o.attempts| ==>
          o.attempts[i].delivery in o.deliveries && 1 <= o.attempts[i].number
          && o.attempts[i].sequence <= o.deliveries[o.attempts[i].delivery].sequence)
    && (forall t :: t in o.tickets ==>
          && t.delivery in o.deliveries && 1 <= t.number && 1 <= t.sequence <= o.deliveries[t.delivery].sequence
          && (forall i :: 0 <= i < |o.attempts| ==> !Uses(o.attempts[i], t.delivery, t.sequence)))
    && (forall t, u :: t in o.tickets && u in o.tickets && t.delivery == u.delivery && t.sequence == u.sequence ==>
          t == u)
  }

  ghost predicate Inv(o: Outbox) {
    DeliveriesInv(o) && EventsInv(o) && AttemptsInv(o)
  }

  // ---------- one row ----------

  lemma RowsKept(c: Settings, d: Delivery, r: Response, now: Time)
    requires DeliveryInv(d)
    ensures IsDue(c, d, now) ==> DeliveryInv(Claimed(d, now))
    ensures IsExhausted(c, d, now) ==> DeliveryInv(Exhaust(d, now))
    ensures DeliveryInv(Answered(c, d, r, now))
    ensures Resendable(d) ==> DeliveryInv(Reopened(d, now))
  {
  }

  /** A delivery row is rewritten; its event, limit and age stay, its sequence does not fall. */
  ghost predicate Rewrites(d: Delivery, e: Delivery) {
    && e.event == d.event && e.maximum == d.maximum && e.createdAt == d.createdAt
    && d.sequence <= e.sequence && DeliveryInv(e)
  }

  lemma PutKeeps(o: Outbox, id: DeliveryId, d: Delivery, now: Time)
    requires Inv(o) && id in o.deliveries && Rewrites(o.deliveries[id], d)
    ensures Inv(PutDelivery(o, id, d, now))
  {
    var n := PutDelivery(o, id, d, now);
    assert n.attempts == o.attempts && n.tickets == o.tickets;
  }

  lemma ExhaustKeeps(c: Settings, o: Outbox, exhausted: Option<DeliveryId>, now: Time)
    requires Inv(o)
    requires exhausted.Some? ==> exhausted.value in o.deliveries && IsExhausted(c, o.deliveries[exhausted.value], now)
    ensures Inv(FailExhausted(o, exhausted, now))
  {
    if exhausted.Some? {
      PutKeeps(o, exhausted.value, Exhaust(o.deliveries[exhausted.value], now), now);
    }
  }

  lemma TicketKeeps(o: Outbox, t: Ticket)
    requires Inv(o) && t.delivery in o.deliveries && 1 <= t.number
    requires 1 <= t.sequence <= o.deliveries[t.delivery].sequence
    requires forall i :: 0 <= i < |o.attempts| ==> !Uses(o.attempts[i], t.delivery, t.sequence)
    requires forall u :: u in o.tickets ==> u.delivery != t.delivery || u.sequence != t.sequence
    ensures Inv(o.(tickets := o.tickets + {t}))
  {
  }

  lemma ClaimKeeps(c: Settings, o: Outbox, exhausted: Option<DeliveryId>, due: Option<DeliveryId>, now: Time)
    requires Inv(o) && Possible(c, o, Claim(exhausted, due, now))
    ensures Inv(ClaimDue(o, exhausted, due, now))
  {
    ExhaustKeeps(c, o, exhausted, now);
    var swept := FailExhausted(o, exhausted, now);
    if due.Some? {
      StillDue(c, o, exhausted, due.value, now);
      ClaimOneKeeps(c, swept, due.value, now);
    }
  }

  /** Giving up an exhausted claim does not touch the due delivery. */
  lemma StillDue(c: Settings, o: Outbox, exhausted: Option<DeliveryId>, id: DeliveryId, now: Time)
    requires exhausted.Some? ==> exhausted.value in o.deliveries && IsExhausted(c, o.deliveries[exhausted.value], now)
    requires id in o.deliveries && IsDue(c, o.deliveries[id], now)
    ensures var swept := FailExhausted(o, exhausted, now);
      id in swept.deliveries && swept.deliveries[id] == o.deliveries[id] && swept.tickets == o.tickets
  {
  }

  lemma ClaimOneKeeps(c: Settings, o: Outbox, id: DeliveryId, now: Time)
    requires Inv(o) && id in o.deliveries && IsDue(c, o.deliveries[id], now)
    ensures var d := Claimed(o.deliveries[id], now);
      var n := PutDelivery(o, id, d, now);
      Inv(n.(tickets := o.tickets + {Ticket(id, d.sequence, d.attempt)}))
  {
    var d := Claimed(o.deliveries[id], now);
    RowsKept(c, o.deliveries[id], Response(false, false, None, None), now);
    PutKeeps(o, id, d, now);
    hide DeliveryInv;
    TicketKeeps(PutDelivery(o, id, d, now), Ticket(id, d.sequence, d.attempt));
  }

  lemma StoredKeeps(o: Outbox, t: Ticket, delivered: bool)
    requires Inv(o) && t in o.tickets
    ensures var a := Attempt(t.delivery, t.sequence, t.number, delivered);
      Inv(o.(tickets := o.tickets - {t}, attempts := o.attempts + [a]))
  {
    var a := Attempt(t.delivery, t.sequence, t.number, delivered);
    var n := o.(tickets := o.tickets - {t}, attempts := o.attempts + [a]);
    forall u | u in n.tickets
      ensures forall i :: 0 <= i < |n.attempts| ==> !Uses(n.attempts[i], u.delivery, u.sequence)
    {
      assert u in o.tickets && u != t;
    }
  }

  lemma RecordKeeps(c: Settings, o: Outbox, t: Ticket, r: Response, now: Time)
    requires Inv(o) && t in o.tickets
    ensures Inv(RecordResult(c, o, t, r, now))
  {
    StoredKeeps(o, t, r.delivered);
    var d := o.deliveries[t.delivery];
    if d.sequence == t.sequence {
      var stored := o.(
        tickets := o.tickets - {t}, attempts := o.attempts + [Attempt(t.delivery, t.sequence, t.number, r.delivered)]);
      PutKeeps(stored, t.delivery, Answered(c, d, r, now), now);
    }
  }

  lemma ResendKeeps(o: Outbox, id: DeliveryId, now: Time)
    requires Inv(o) && Resend(o, id, now).Success?
    ensures Inv(Resend(o, id, now).value)
  {
    if id in o.deliveries {
      PutKeeps(o, id, Reopened(o.deliveries[id], now), now);
    }
  }

  // ---------- materialising and retention ----------

  lemma MarkKeeps(o: Outbox, e: EventId)
    requires Inv(o) && e in o.events
    ensures Inv(o.(events := o.events[e := o.events[e].(processed := true)]))
  {
  }

  /** A new pending delivery for a marked event that has none. */
  lemma AddKeeps(o: Outbox, d: Delivery, now: Time)
    requires Inv(o) && DeliveryInv(d) && d.event in o.events && o.events[d.event].processed
    requires forall x :: x in o.deliveries ==> o.deliveries[x].event != d.event
    ensures var id := o.nextDelivery;
      Inv(Announce(o.(deliveries := o.deliveries[id := d], nextDelivery := id + 1), id, now))
  {
    var id := o.nextDelivery;
    var n := Announce(o.(deliveries := o.deliveries[id := d], nextDelivery := id + 1), id, now);
    AddRows(o, d, now);
    hide DeliveryInv, DeliveriesInv, EventsInv;
    AddAttempts(o, n);
  }

  lemma AddRows(o: Outbox, d: Delivery, now: Time)
    requires DeliveriesInv(o) && EventsInv(o) && DeliveryInv(d) && d.event in o.events && o.events[d.event].processed
    requires forall x :: x in o.deliveries ==> o.deliveries[x].event != d.event
    ensures var id := o.nextDelivery;
      var n := Announce(o.(deliveries := o.deliveries[id := d], nextDelivery := id + 1), id, now);
      DeliveriesInv(n) && EventsInv(n) && id !in o.deliveries
  {
    hide DeliveryInv;
  }

  lemma AddAttempts(o: Outbox, n: Outbox)
    requires AttemptsInv(o) && n.attempts == o.attempts && n.tickets == o.tickets
    requires forall d :: d in o.deliveries ==> d in n.deliveries && n.deliveries[d] == o.deliveries[d]
    ensures AttemptsInv(n)
  {
  }

  /** Marking one event and, for a subscribed task, adding its delivery. */
  lemma MaterializeOneKeeps(o: Outbox, e: EventId, tasks: map<TaskId, Subscription>, maximum: nat, now: Time)
    requires Inv(o) && Materializable(o, e) && 1 <= maximum <= 20
    ensures Inv(MaterializeOne(o, e, tasks, maximum, now))
  {
    hide Inv;
    MarkKeeps(o, e);
    var kind := Mapped(o.events[e], tasks);
    if kind.Some? {
      var marked := o.(events := o.events[e := o.events[e].(processed := true)]);
      AddKeeps(marked, NewDelivery(e, kind.value, o.events[e].task.value, maximum, now), now);
    }
  }

  lemma OthersMaterializable(
    o: Outbox, e: EventId, tasks: map<TaskId, Subscription>, maximum: nat, now: Time, x: EventId)
    requires EventsInv(o) && Materializable(o, e) && x != e && Materializable(o, x)
    ensures Materializable(MaterializeOne(o, e, tasks, maximum, now), x)
  {
  }

  ghost predicate AllMaterializable(o: Outbox, selected: seq<EventId>) {
    Distinct(selected) && forall e :: e in selected ==> Materializable(o, e)
  }

  lemma RestMaterializable(o: Outbox, selected: seq<EventId>, tasks: map<TaskId, Subscription>, maximum: nat, now: Time)
    requires Inv(o) && selected != [] && AllMaterializable(o, selected) && 1 <= maximum <= 20
    ensures selected[0] in o.events
    ensures var n := MaterializeOne(o, selected[0], tasks, maximum, now);
      Inv(n) && AllMaterializable(n, selected[1..])
  {
    assert selected[0] in selected;
    MaterializeOneKeeps(o, selected[0], tasks, maximum, now);
    var n := MaterializeOne(o, selected[0], tasks, maximum, now);
    forall e | e in selected[1..] ensures Materializable(n, e) {
      assert e != selected[0] && e in selected;
      OthersMaterializable(o, selected[0], tasks, maximum, now, e);
    }
  }

  /** What materialising does to every event and to the set of deliveries. */
  ghost predicate Materialized(o: Outbox, n: Outbox, selected: seq<EventId>) {
    && (forall e :: e in o.events ==> e in n.events)
    && (forall e :: e in o.events ==>
          n.events[e] == (if e in selected then o.events[e].(processed := true) else o.events[e]))
    && (forall e :: e in n.events && e !in o.events ==> !Source(n.events[e].kind))
    && (forall d :: d in o.deliveries ==> d in n.deliveries && n.deliveries[d] == o.deliveries[d])
    && (forall d :: d in n.deliveries && d !in o.deliveries ==>
          n.deliveries[d].event in selected && n.deliveries[d].status.Pending?)
    && n.attempts == o.attempts && n.tickets == o.tickets
  }

  lemma {:induction false} MaterializeKeeps(
    o: Outbox, selected: seq<EventId>, tasks: map<TaskId, Subscription>, maximum: nat, now: Time)
    requires Inv(o) && AllMaterializable(o, selected) && 1 <= maximum <= 20
    ensures Inv(MaterializeAll(o, selected, tasks, maximum, now))
    ensures Materialized(o, MaterializeAll(o, selected, tasks, maximum, now), selected)
    decreases |selected|
  {
    if selected != [] {
      RestMaterializable(o, selected, tasks, maximum, now);
      var n := MaterializeOne(o, selected[0], tasks, maximum, now);
      MaterializeKeeps(n, selected[1..], tasks, maximum, now);
      MaterializedOne(o, selected[0], tasks, maximum, now);
      MaterializedJoin(o, n, MaterializeAll(o, selected, tasks, maximum, now), selected);
    }
  }

  lemma MaterializedOne(o: Outbox, e: EventId, tasks: map<TaskId, Subscription>, maximum: nat, now: Time)
    requires Inv(o) && Materializable(o, e)
    ensures Materialized(o, MaterializeOne(o, e, tasks, maximum, now), [e])
  {
  }

  lemma MaterializedJoin(o: Outbox, n: Outbox, m: Outbox, selected: seq<EventId>)
    requires selected != [] && Materialized(o, n, [selected[0]]) && Materialized(n, m, selected[1..])
    requires forall e :: e in selected ==> e in o.events
    ensures Materialized(o, m, selected)
  {
    assert forall e :: e in selected <==> e == selected[0] || e in selected[1..];
  }

  lemma RetainKeeps(o: Outbox, expired: seq<EventId>)
    requires Inv(o)
    ensures Inv(Retain(o, expired))
  {
  }

  // ---------- every action ----------

  lemma StepKeeps(c: Settings, o: Outbox, a: Act)
    requires Inv(o) && Possible(c, o, a)
    ensures Inv(Step(c, o, a))
  {
    match a
    case PublishEvent(kind, task, now) =>
    case Materialize(selected, tasks, maximum, now) => MaterializeKeeps(o, selected, tasks, maximum, now);
    case Claim(exhausted, due, now) => ClaimKeeps(c, o, exhausted, due, now);
    case Record(ticket, response, now) => RecordKeeps(c, o, ticket, response, now);
    case ResendDelivery(id, now) =>
      if Resend(o, id, now).Success? {
        ResendKeeps(o, id, now);
      }
    case RetainEvents(expired, now) => RetainKeeps(o, expired);
  }

  lemma {:induction false} RunKeeps(c: Settings, o: Outbox, acts: seq<Act>)
    requires Inv(o) && Feasible(c, o, acts)
    ensures Inv(Run(c, o, acts))
  {
    if acts != [] {
      var n := |acts| - 1;
      FeasiblePrefix(c, o, acts, n);
      RunKeeps(c, o, acts[..n]);
      StepKeeps(c, Run(c, o, acts[..n]), acts[n]);
    }
  }

  lemma FeasiblePrefix(c: Settings, o: Outbox, acts: seq<Act>, n: nat)
    requires Feasible(c, o, acts) && n <= |acts|
    ensures Feasible(c, o, acts[..n])
  {
    forall i | 0 <= i < n ensures Possible(c, Run(c, o, acts[..n][..i]), acts[..n][i]) {
      assert acts[..n][..i] == acts[..i];
    }
  }

  /** The state in which the `i`th action of a run happens. */
  lemma Midway(c: Settings, o: Outbox, acts: seq<Act>, i: nat)
    requires Inv(o) && Feasible(c, o, acts) && i < |acts|
    ensures Inv(Run(c, o, acts[..i])) && Possible(c, Run(c, o, acts[..i]), acts[i])
    ensures Run(c, o, acts[..i + 1]) == Step(c, Run(c, o, acts[..i]), acts[i])
  {
    FeasiblePrefix(c, o, acts, i);
    RunKeeps(c, o, acts[..i]);
    assert acts[..i + 1][..i] == acts[..i];
  }
}

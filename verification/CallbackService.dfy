/** The callback repository and dispatcher as they run, proved against the outbox actions. */
module CallbackService {
  import opened Common
  import opened Records
  import opened Callbacks
  import opened CallbackRuns
  import opened CallbackLaws

  /** The order of the claim queries: oldest first, then the identifier. */
  predicate Older(a: Delivery, i: DeliveryId, b: Delivery, j: DeliveryId) {
    a.createdAt < b.createdAt || (a.createdAt == b.createdAt && i < j)
  }

  lemma MaterializeTurn(o: Outbox, selected: seq<EventId>, tasks: map<TaskId, Subscription>, maximum: nat, now: Time)
    requires selected != [] && selected[0] in o.events
    ensures MaterializeAll(o, selected, tasks, maximum, now)
         == MaterializeAll(MaterializeOne(o, selected[0], tasks, maximum, now), selected[1..], tasks, maximum, now)
  {
  }

  lemma MaterializeEnd(o: Outbox, tasks: map<TaskId, Subscription>, maximum: nat, now: Time)
    ensures MaterializeAll(o, [], tasks, maximum, now) == o
  {
  }

  /** A claimed delivery rests; so does every delivery that rested before. */
  lemma ClaimRestsAll(
    c: Settings, o: Outbox, exhausted: Option<DeliveryId>, due: Option<DeliveryId>, now: Time, id: DeliveryId)
    requires SettingsValid(c) && Inv(o) && Possible(c, o, Claim(exhausted, due, now))
    requires due == Some(id) || (id in o.deliveries && Resting(o.deliveries[id], now))
    ensures var n := ClaimDue(o, exhausted, due, now); id in n.deliveries && Resting(n.deliveries[id], now)
  {
    var a := Claim(exhausted, due, now);
    if due == Some(id) {
      ClaimRests(c, o, a, id);
    } else {
      StepRests(c, o, a, id, now);
    }
  }

  lemma ClaimParts(o: Outbox, exhausted: Option<DeliveryId>, due: Option<DeliveryId>, now: Time)
    ensures var swept := FailExhausted(o, exhausted, now);
      ClaimDue(o, exhausted, due, now) ==
        if due.None? || due.value !in swept.deliveries then swept
        else
          var d := Claimed(swept.deliveries[due.value], now);
          PutDelivery(swept, due.value, d, now).(tickets := o.tickets + {Ticket(due.value, d.sequence, d.attempt)})
  {
  }

  /** The task still has a callback configuration. */
  predicate Configured(tasks: map<TaskId, Subscription>, task: TaskId) {
    task in tasks && tasks[task].events.Some?
  }

  /** The deliveries stay, each for its own task. */
  ghost predicate SameTasks(o: Outbox, n: Outbox) {
    forall id :: id in o.deliveries ==> id in n.deliveries && n.deliveries[id].task == o.deliveries[id].task
  }

  /** The attempt row of a claim, delivered exactly when the task is configured and the transport delivered. */
  ghost predicate Entry(
    o: Outbox, a: Attempt, t: Ticket, tasks: map<TaskId, Subscription>, response: Response)
  {
    && Uses(a, t.delivery, t.sequence) && t.delivery in o.deliveries
    && (a.delivered <==> Configured(tasks, o.deliveries[t.delivery].task) && response.delivered)
  }

  /** The attempt rows from position `first` on are those of the claims, in order. */
  ghost predicate Entries(
    o: Outbox, first: nat, claimed: seq<Ticket>, tasks: map<TaskId, Subscription>, responses: nat -> Response)
  {
    && |o.attempts| == first + |claimed|
    && (forall i :: 0 <= i < |claimed| ==> Entry(o, o.attempts[first + i], claimed[i], tasks, responses(i)))
  }

  lemma EntriesGrow(
    o: Outbox, n: Outbox, first: nat, claimed: seq<Ticket>, t: Ticket, tasks: map<TaskId, Subscription>,
    responses: nat -> Response)
    requires Entries(o, first, claimed, tasks, responses) && SameTasks(o, n)
    requires |n.attempts| == |o.attempts| + 1 && n.attempts[..|o.attempts|] == o.attempts
    requires Entry(n, n.attempts[|o.attempts|], t, tasks, responses(|claimed|))
    ensures Entries(n, first, claimed + [t], tasks, responses)
  {
    forall i | 0 <= i < |claimed| + 1 ensures Entry(n, n.attempts[first + i], (claimed + [t])[i], tasks, responses(i)) {
      if i < |claimed| {
        assert n.attempts[first + i] == n.attempts[..|o.attempts|][first + i];
        assert Entry(o, o.attempts[first + i], claimed[i], tasks, responses(i));
      }
    }
  }

  /** No delivery twice. */
  ghost predicate EachOnce(claimed: seq<Ticket>) {
    forall i, j :: 0 <= i < j < |claimed| ==> claimed[i].delivery != claimed[j].delivery
  }

  ghost predicate AllRest(o: Outbox, claimed: seq<Ticket>, now: Time) {
    forall i :: 0 <= i < |claimed| ==>
      claimed[i].delivery in o.deliveries && Resting(o.deliveries[claimed[i].delivery], now)
  }

  lemma ClaimTasks(o: Outbox, exhausted: Option<DeliveryId>, due: Option<DeliveryId>, now: Time)
    ensures SameTasks(o, ClaimDue(o, exhausted, due, now))
  {
  }

  lemma RecordTasks(c: Settings, o: Outbox, t: Ticket, r: Response, now: Time)
    ensures SameTasks(o, RecordResult(c, o, t, r, now))
  {
  }

  lemma RecordShape(c: Settings, o: Outbox, t: Ticket, r: Response, now: Time)
    requires t.delivery in o.deliveries
    ensures var n := RecordResult(c, o, t, r, now);
      && n.tickets == o.tickets - {t}
      && n.attempts == o.attempts + [Attempt(t.delivery, t.sequence, t.number, r.delivered)]
  {
  }

  /** The due delivery that the claim query puts first. */
  ghost predicate FirstDue(c: Settings, o: Outbox, first: DeliveryId, now: Time) {
    && first in o.deliveries && IsDue(c, o.deliveries[first], now)
    && (forall id :: id in o.deliveries && id != first && IsDue(c, o.deliveries[id], now) ==>
          Older(o.deliveries[first], first, o.deliveries[id], id))
  }

  /** The exhausted claim that the query puts first. */
  ghost predicate FirstExhausted(c: Settings, o: Outbox, first: DeliveryId, now: Time) {
    && first in o.deliveries && IsExhausted(c, o.deliveries[first], now)
    && (forall id :: id in o.deliveries && id != first && IsExhausted(c, o.deliveries[id], now) ==>
          Older(o.deliveries[first], first, o.deliveries[id], id))
  }

  class CallbackStore {
    const settings: Settings
    var events: map<EventId, Event>
    var nextEvent: EventId
    var deliveries: map<DeliveryId, Delivery>
    var nextDelivery: DeliveryId
    var attempts: seq<Attempt>
    /** Claims whose result has not been recorded: the local variables of the dispatchers. */
    ghost var tickets: set<Ticket>

    ghost function View(): Outbox
      reads this
    {
      Outbox(events, nextEvent, deliveries, nextDelivery, attempts, tickets)
    }

    ghost predicate Valid()
      reads this
    {
      SettingsValid(settings) && Inv(View())
    }

    constructor (settings: Settings)
      requires SettingsValid(settings)
      ensures Valid() && View() == Outbox(map[], 0, map[], 0, [], {})
    {
      this.settings := settings;
      events, nextEvent, deliveries, nextDelivery, attempts := map[], 0, map[], 0, [];
      tickets := {};
    }

    // ----- rows and events -----

    method PublishEvent(kind: EventKind, task: Option<TaskId>, now: Time)
      modifies this`events, this`nextEvent
      ensures View() == Publish(old(View()), kind, task, now)
    {
      events, nextEvent := events[nextEvent := Event(kind, task, false, now)], nextEvent + 1;
    }

    method WriteDelivery(id: DeliveryId, d: Delivery, now: Time)
      modifies this`events, this`nextEvent, this`deliveries
      ensures View() == PutDelivery(old(View()), id, d, now)
    {
      deliveries := deliveries[id := d];
      PublishEvent(DeliveryChanged(id), Some(d.task), now);
    }

    // ----- materialize -----

    method Materialize(selected: seq<EventId>, tasks: map<TaskId, Subscription>, maximum: nat, now: Time)
      returns (created: seq<DeliveryId>)
      requires Valid() && AllMaterializable(View(), selected) && 1 <= maximum <= 20
      modifies this`events, this`nextEvent, this`deliveries, this`nextDelivery
      ensures Valid() && View() == MaterializeAll(old(View()), selected, tasks, maximum, now)
      ensures forall id :: id in deliveries <==> id in old(deliveries) || id in created
    {
      hide Inv, MaterializeAll, AllMaterializable;
      created := [];
      var cache: map<TaskId, Option<Subscription>> := map[];
      assert selected[0..] == selected;
      for i := 0 to |selected|
        invariant Inv(View()) && AllMaterializable(View(), selected[i..])
        invariant MaterializeAll(old(View()), selected, tasks, maximum, now)
               == MaterializeAll(View(), selected[i..], tasks, maximum, now)
        invariant forall t :: t in cache ==> cache[t] == if t in tasks then Some(tasks[t]) else None
        invariant forall id :: id in deliveries <==> id in old(deliveries) || id in created
      {
        var e := selected[i];
        assert selected[i..][0] == e && selected[i..][1..] == selected[i + 1..];
        RestMaterializable(View(), selected[i..], tasks, maximum, now);
        MaterializeTurn(View(), selected[i..], tasks, maximum, now);
        var event := events[e];
        events := events[e := event.(processed := true)];
        if event.task.Some? {
          var task := event.task.value;
          if task !in cache {
            cache := cache[task := if task in tasks then Some(tasks[task]) else None];
          }
          var subscription := cache[task];
          if subscription.Some? && subscription.value.events.Some? {
            var kind := KindOf(event.kind, subscription.value.task);
            if kind.Some? && kind.value in subscription.value.events.value {
              var id := nextDelivery;
              nextDelivery := nextDelivery + 1;
              WriteDelivery(id, NewDelivery(e, kind.value, task, maximum, now), now);
              created := created + [id];
            }
          }
        }
      }
      MaterializeEnd(View(), tasks, maximum, now);
    }

    // ----- claim_due -----

    /** The first row of a query over the deliveries. */
    method Oldest(among: set<DeliveryId>) returns (first: Option<DeliveryId>)
      requires among <= deliveries.Keys
      ensures first.None? <==> among == {}
      ensures first.Some? ==> first.value in among
      ensures first.Some? ==> forall id :: id in among && id != first.value ==>
        Older(deliveries[first.value], first.value, deliveries[id], id)
    {
      first := None;
      var rest := among;
      while rest != {}
        invariant rest <= among
        invariant first.None? <==> rest == among
        invariant first.Some? ==> first.value in among
        invariant first.Some? ==> forall id :: id in among - rest && id != first.value ==>
          Older(deliveries[first.value], first.value, deliveries[id], id)
        decreases rest
      {
        var id :| id in rest;
        if first.None? || Older(deliveries[id], id, deliveries[first.value], first.value) {
          first := Some(id);
        }
        rest := rest - {id};
      }
    }

    /** Fails the oldest exhausted claim, then claims the oldest due delivery, if there is one. */
    method ClaimNext(now: Time) returns (ticket: Option<Ticket>, ghost exhausted: Option<DeliveryId>)
      requires Valid()
      modifies this`events, this`nextEvent, this`deliveries, this`tickets
      ensures Valid()
      ensures ticket.None? <==> forall id :: id in old(deliveries) ==> AtRest(settings, old(deliveries[id]), now)
      ensures var due := if ticket.Some? then Some(ticket.value.delivery) else None;
        && Possible(settings, old(View()), Claim(exhausted, due, now))
        && View() == ClaimDue(old(View()), exhausted, due, now)
        && (ticket.Some? ==> tickets == old(tickets) + {ticket.value} && ticket.value !in old(tickets))
        && (ticket.None? ==> tickets == old(tickets))
      ensures ticket.Some? ==> FirstDue(settings, old(View()), ticket.value.delivery, now)
      ensures exhausted.None? <==> forall id :: id in old(deliveries) ==> !GivenUp(settings, old(deliveries[id]), now)
      ensures exhausted.Some? ==> FirstExhausted(settings, old(View()), exhausted.value, now)
    {
      hide Inv, ClaimDue, FailExhausted, PutDelivery, IsDue, IsExhausted, AtRest, GivenUp;
      AllDueIff(settings, View(), now);
      var last := OldestExhausted(now);
      var due := OldestDue(now);
      exhausted := last;
      ClaimKeeps(settings, View(), last, due, now);
      ClaimParts(View(), last, due, now);
      if due.Some? {
        StillDue(settings, View(), last, due.value, now);
      }
      GiveUp(last, now);
      if due.None? {
        return None, last;
      }
      var claimed := Take(due.value, now);
      NewTicket(old(View()), due.value, claimed.sequence, claimed.number);
      ticket := Some(claimed);
    }

    method OldestExhausted(now: Time) returns (first: Option<DeliveryId>)
      ensures first.None? <==> forall id :: id in deliveries ==> !IsExhausted(settings, deliveries[id], now)
      ensures first.Some? ==> FirstExhausted(settings, View(), first.value, now)
    {
      var stale := set id | id in deliveries && IsExhausted(settings, deliveries[id], now);
      assert forall id :: id in deliveries && IsExhausted(settings, deliveries[id], now) ==> id in stale;
      first := Oldest(stale);
    }

    method OldestDue(now: Time) returns (first: Option<DeliveryId>)
      ensures first.None? <==> forall id :: id in deliveries ==> !IsDue(settings, deliveries[id], now)
      ensures first.Some? ==> FirstDue(settings, View(), first.value, now)
    {
      var waiting := set id | id in deliveries && IsDue(settings, deliveries[id], now);
      assert forall id :: id in deliveries && IsDue(settings, deliveries[id], now) ==> id in waiting;
      first := Oldest(waiting);
    }

    method GiveUp(exhausted: Option<DeliveryId>, now: Time)
      requires exhausted.Some? ==> exhausted.value in deliveries
      modifies this`events, this`nextEvent, this`deliveries
      ensures View() == FailExhausted(old(View()), exhausted, now)
    {
      if exhausted.Some? {
        var d := deliveries[exhausted.value];
        d := d.(status := DeliveryStatus.Failed, updatedAt := now,
          summary := if d.summary.Some? then d.summary else Some(CLAIM_EXPIRED));
        WriteDelivery(exhausted.value, d, now);
      }
    }

    method Take(id: DeliveryId, now: Time) returns (ticket: Ticket)
      requires id in deliveries
      modifies this`events, this`nextEvent, this`deliveries, this`tickets
      ensures ticket == Ticket(id, old(deliveries[id].sequence) + 1, old(deliveries[id].attempt) + 1)
      ensures tickets == old(tickets) + {ticket}
      ensures View() == PutDelivery(old(View()), id, Claimed(old(deliveries[id]), now), now).(tickets := tickets)
    {
      var d := deliveries[id];
      d := d.(status := Delivering, attempt := d.attempt + 1, sequence := d.sequence + 1);
      d := d.(nextAt := None, updatedAt := now);
      WriteDelivery(id, d, now);
      ticket := Ticket(id, d.sequence, d.attempt);
      tickets := tickets + {ticket};
    }

    // ----- record_result and retry -----

    method Record(t: Ticket, r: Response, now: Time)
      requires Valid() && t in tickets
      modifies this`events, this`nextEvent, this`deliveries, this`attempts, this`tickets
      ensures Valid() && View() == RecordResult(settings, old(View()), t, r, now)
      ensures old(t.delivery in deliveries && deliveries[t.delivery].sequence == t.sequence) ==>
        t.delivery in deliveries && Settles(settings, old(deliveries[t.delivery]), deliveries[t.delivery], r, now)
    {
      hide Inv;
      if t.delivery in deliveries {
        ResultLaw(settings, View(), t, r, now);
      }
      RecordKeeps(settings, View(), t, r, now);
      tickets := tickets - {t};
      if t.delivery !in deliveries {
        return;
      }
      attempts := attempts + [Attempt(t.delivery, t.sequence, t.number, r.delivered)];
      var d := deliveries[t.delivery];
      if d.sequence != t.sequence {
        return;
      }
      var attempt := d.attempt;
      d := d.(responseCode := r.code, summary := r.summary);
      if r.delivered {
        d := d.(status := DeliveryStatus.Succeeded, nextAt := None);
      } else if r.retryable && attempt < d.maximum {
        d := d.(status := RetryWait, nextAt := Some(now + RetryDelay(settings, attempt)));
      } else {
        d := d.(status := DeliveryStatus.Failed, nextAt := None);
      }
      WriteDelivery(t.delivery, d.(updatedAt := now), now);
    }

    method Retry(id: DeliveryId, now: Time) returns (done: Result<()>)
      requires Valid()
      modifies this`events, this`nextEvent, this`deliveries
      ensures Valid()
      ensures var n := Resend(old(View()), id, now);
        if n.Success? then done == Success(()) && View() == n.value
        else done == Failure(n.fault) && View() == old(View())
    {
      hide Inv;
      if id !in deliveries {
        return Success(());
      }
      if !Resendable(deliveries[id]) {
        return Failure(CallbackNotRetryable);
      }
      ResendKeeps(View(), id, now);
      WriteDelivery(id, Reopened(deliveries[id], now), now);
      return Success(());
    }

    // ----- retention -----

    /** The event part of the retention pass: the selected rows go, nothing else changes. */
    method DeleteExpired(expired: seq<EventId>, now: Time)
      requires Valid() && forall e :: e in expired ==> Deletable(settings, View(), e, now)
      modifies this`events
      ensures Valid() && View() == Retain(old(View()), expired)
      ensures forall e :: e in events <==> e in old(events) && e !in expired
      ensures forall e :: e in old(events) && Source(old(events[e].kind)) && !old(events[e].processed) ==> e in events
    {
      for i := 0 to |expired|
        invariant events == old(events) - Elements(expired[..i])
      {
        assert Elements(expired[..i + 1]) == Elements(expired[..i]) + {expired[i]};
        events := events - {expired[i]};
      }
      assert expired[..|expired|] == expired;
      RetainKeeps(old(View()), expired);
    }

    // ----- run_once -----

    /** What the transport answers, or the verdict when the configuration is gone. */
    function AnswerFor(id: DeliveryId, tasks: map<TaskId, Subscription>, response: Response): Response
      reads this
      requires id in deliveries
    {
      if Configured(tasks, deliveries[id].task) then response
      else Response(false, false, None, Some(Label("Callback configuration no longer exists")))
    }

    /**
     `run_once`: materialises, then claims, delivers and records up to a batch.
     No delivery is claimed twice, every claim leaves one attempt row, and a pass that
     stops early leaves nothing due.
     */
    method RunOnce(
      selected: seq<EventId>, tasks: map<TaskId, Subscription>, maximum: nat, batch: nat, responses: nat -> Response,
      now: Time)
      returns (count: nat, ghost claimed: seq<Ticket>)
      requires Valid() && AllMaterializable(View(), selected) && 1 <= maximum <= 20
      modifies this
      ensures Valid() && tickets == old(tickets)
      ensures count == |claimed| <= batch && EachOnce(claimed)
      ensures Entries(View(), |old(attempts)|, claimed, tasks, responses)
      ensures attempts[..|old(attempts)|] == old(attempts)
      ensures count < batch ==> forall id :: id in deliveries ==> AtRest(settings, deliveries[id], now)
    {
      hide Inv, Resting, Entries, EachOnce, AllRest, Entry, SameTasks, MaterializeAll, IsDue, AtRest;
      var created := Materialize(selected, tasks, maximum, now);
      count, claimed := 0, [];
      NoEntries(View(), tasks, responses, now);
      while count < batch
        invariant Valid() && tickets == old(tickets)
        invariant count == |claimed| <= batch && EachOnce(claimed) && AllRest(View(), claimed, now)
        invariant Entries(View(), |old(attempts)|, claimed, tasks, responses)
        invariant |attempts| == |old(attempts)| + count && attempts[..|old(attempts)|] == old(attempts)
      {
        ghost var before := View();
        var ticket := Attend(tasks, responses, count, now, claimed);
        if ticket.None? {
          EntriesSame(before, View(), |old(attempts)|, claimed, tasks, responses);
          break;
        }
        EntriesGrow(before, View(), |old(attempts)|, claimed, ticket.value, tasks, responses);
        assert attempts[..|old(attempts)|] == attempts[..|before.attempts|][..|old(attempts)|];
        claimed := claimed + [ticket.value];
        count := count + 1;
      }
    }

    /** One turn of the batch: claim, deliver, record. */
    method Attend(
      tasks: map<TaskId, Subscription>, responses: nat -> Response, turn: nat, now: Time, ghost earlier: seq<Ticket>)
      returns (ticket: Option<Ticket>)
      requires Valid() && EachOnce(earlier) && AllRest(View(), earlier, now)
      modifies this
      ensures Valid() && tickets == old(tickets) && SameTasks(old(View()), View())
      ensures ticket.None? ==> attempts == old(attempts) && AllRest(View(), earlier, now)
      ensures ticket.None? ==> forall id :: id in deliveries ==> AtRest(settings, deliveries[id], now)
      ensures ticket.Some? ==> |attempts| == |old(attempts)| + 1 && attempts[..|old(attempts)|] == old(attempts)
      ensures ticket.Some? ==> Entry(View(), attempts[|old(attempts)|], ticket.value, tasks, responses(turn))
      ensures ticket.Some? ==> EachOnce(earlier + [ticket.value]) && AllRest(View(), earlier + [ticket.value], now)
    {
      hide Inv, Resting, ClaimDue, RecordResult, IsDue, AtRest, Possible, AllRest, EachOnce, SameTasks, Step;
      ghost var start := View();
      ghost var exhausted;
      ticket, exhausted := ClaimNext(now);
      ghost var due := if ticket.Some? then Some(ticket.value.delivery) else None;
      ClaimTasks(start, exhausted, due, now);
      ClaimLeavesResting(settings, start, exhausted, due, now, earlier);
      if ticket.None? {
        AllDueIff(settings, start, now);
        NothingDue(settings, start, exhausted, now);
        AllDueIff(settings, View(), now);
        return;
      }
      ghost var claimed := earlier + [ticket.value];
      ClaimJoins(settings, start, exhausted, ticket.value, now, earlier);
      ghost var middle := View();
      RestingHas(middle, claimed, |earlier|, now);
      var answer := AnswerFor(ticket.value.delivery, tasks, responses(turn));
      RecordShape(settings, middle, ticket.value, answer, now);
      RecordTasks(settings, middle, ticket.value, answer, now);
      RecordLeavesResting(settings, middle, ticket.value, answer, now, claimed);
      Record(ticket.value, answer, now);
      SameTasksTransitive(start, middle, View());
      SameTask(middle, View(), ticket.value.delivery);
      assert tickets == old(tickets);
    }
  }

  lemma NoEntries(o: Outbox, tasks: map<TaskId, Subscription>, responses: nat -> Response, now: Time)
    ensures Entries(o, |o.attempts|, [], tasks, responses) && EachOnce([]) && AllRest(o, [], now)
    ensures o.attempts[..|o.attempts|] == o.attempts
  {
  }

  lemma EntriesSame(
    o: Outbox, n: Outbox, first: nat, claimed: seq<Ticket>, tasks: map<TaskId, Subscription>,
    responses: nat -> Response)
    requires Entries(o, first, claimed, tasks, responses) && SameTasks(o, n) && n.attempts == o.attempts
    ensures Entries(n, first, claimed, tasks, responses)
  {
    forall i | 0 <= i < |claimed| ensures Entry(n, n.attempts[first + i], claimed[i], tasks, responses(i)) {
      assert Entry(o, o.attempts[first + i], claimed[i], tasks, responses(i));
    }
  }

  lemma SameTasksTransitive(a: Outbox, b: Outbox, c: Outbox)
    requires SameTasks(a, b) && SameTasks(b, c)
    ensures SameTasks(a, c)
  {
  }

  lemma SameTask(o: Outbox, n: Outbox, id: DeliveryId)
    requires SameTasks(o, n) && id in o.deliveries
    ensures id in n.deliveries && n.deliveries[id].task == o.deliveries[id].task
  {
  }

  lemma RestingHas(o: Outbox, claimed: seq<Ticket>, i: nat, now: Time)
    requires AllRest(o, claimed, now) && i < |claimed|
    ensures claimed[i].delivery in o.deliveries
  {
  }

  lemma ClaimLeavesResting(
    c: Settings, o: Outbox, exhausted: Option<DeliveryId>, due: Option<DeliveryId>, now: Time, earlier: seq<Ticket>)
    requires SettingsValid(c) && Inv(o) && Possible(c, o, Claim(exhausted, due, now)) && AllRest(o, earlier, now)
    ensures AllRest(ClaimDue(o, exhausted, due, now), earlier, now)
  {
    hide Inv, Resting, ClaimDue, Possible;
    var n := ClaimDue(o, exhausted, due, now);
    forall i | 0 <= i < |earlier|
      ensures earlier[i].delivery in n.deliveries && Resting(n.deliveries[earlier[i].delivery], now)
    {
      ClaimRestsAll(c, o, exhausted, due, now, earlier[i].delivery);
    }
  }

  /** The claimed delivery is none of the resting ones, and rests from now on. */
  lemma ClaimJoins(
    c: Settings, o: Outbox, exhausted: Option<DeliveryId>, t: Ticket, now: Time, earlier: seq<Ticket>)
    requires SettingsValid(c) && Inv(o) && Possible(c, o, Claim(exhausted, Some(t.delivery), now))
    requires AllRest(o, earlier, now) && EachOnce(earlier)
    ensures AllRest(ClaimDue(o, exhausted, Some(t.delivery), now), earlier + [t], now) && EachOnce(earlier + [t])
  {
    ClaimLeavesResting(c, o, exhausted, Some(t.delivery), now, earlier);
    ClaimRestsAll(c, o, exhausted, Some(t.delivery), now, t.delivery);
    forall i | 0 <= i < |earlier| ensures earlier[i].delivery != t.delivery {
      RestingNotDue(c, o.deliveries[earlier[i].delivery], now);
    }
  }

  lemma RecordLeavesResting(c: Settings, o: Outbox, t: Ticket, r: Response, now: Time, claimed: seq<Ticket>)
    requires SettingsValid(c) && Inv(o) && t in o.tickets && AllRest(o, claimed, now)
    ensures AllRest(RecordResult(c, o, t, r, now), claimed, now)
  {
    hide Inv, Resting, RecordResult, Possible, Step;
    OpenTicket(c, o, t, r, now);
    var n := RecordResult(c, o, t, r, now);
    forall i | 0 <= i < |claimed|
      ensures claimed[i].delivery in n.deliveries && Resting(n.deliveries[claimed[i].delivery], now)
    {
      StepRests(c, o, Act.Record(t, r, now), claimed[i].delivery, now);
    }
  }

  lemma OpenTicket(c: Settings, o: Outbox, t: Ticket, r: Response, now: Time)
    requires t in o.tickets
    ensures Possible(c, o, Act.Record(t, r, now))
    ensures Step(c, o, Act.Record(t, r, now)) == RecordResult(c, o, t, r, now)
  {
  }

  lemma AllDueIff(c: Settings, o: Outbox, now: Time)
    requires Inv(o)
    ensures forall id :: id in o.deliveries ==> (IsDue(c, o.deliveries[id], now) <==> !AtRest(c, o.deliveries[id], now))
    ensures forall id :: id in o.deliveries ==>
      (IsExhausted(c, o.deliveries[id], now) <==> GivenUp(c, o.deliveries[id], now))
  {
    forall id | id in o.deliveries
      ensures IsDue(c, o.deliveries[id], now) <==> !AtRest(c, o.deliveries[id], now)
      ensures IsExhausted(c, o.deliveries[id], now) <==> GivenUp(c, o.deliveries[id], now)
    {
      DueIff(c, o.deliveries[id], now);
    }
  }

  lemma NewTicket(o: Outbox, id: DeliveryId, sequence: nat, number: nat)
    requires Inv(o) && id in o.deliveries && o.deliveries[id].sequence < sequence
    ensures Ticket(id, sequence, number) !in o.tickets
  {
  }

  lemma NothingDue(c: Settings, o: Outbox, exhausted: Option<DeliveryId>, now: Time)
    requires forall id :: id in o.deliveries ==> !IsDue(c, o.deliveries[id], now)
    ensures var n := ClaimDue(o, exhausted, None, now);
      forall id :: id in n.deliveries ==> !IsDue(c, n.deliveries[id], now)
  {
  }
}

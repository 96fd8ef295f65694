/** What the outbox promises over whole runs of publishing, materialising, dispatching, resending and retention. */
module CallbackRuns {
  import opened Common
  import opened TaskState
  import opened Records
  import opened Callbacks
  import Lifecycle
  import TaskInvariant

  // ---------- what one action does to one delivery ----------

  predicate ClaimsDelivery(a: Act, id: DeliveryId) {
    a.Claim? && a.due == Some(id)
  }

  predicate Resends(a: Act, id: DeliveryId) {
    a.ResendDelivery? && a.delivery == id
  }

  function Count(b: bool): nat {
    if b then 1 else 0
  }

  /** The delivery survives; only a claim raises its sequence, only a resend lowers its attempt. */
  ghost predicate Follows(d: Delivery, e: Delivery, claimed: nat, resent: bool) {
    && e.event == d.event && e.maximum == d.maximum && e.createdAt == d.createdAt
    && e.sequence == d.sequence + claimed
    && (!resent ==> e.attempt == d.attempt + claimed)
  }

  lemma ClaimFollows(
    c: Settings, o: Outbox, exhausted: Option<DeliveryId>, due: Option<DeliveryId>, now: Time, id: DeliveryId)
    requires id in o.deliveries && Possible(c, o, Claim(exhausted, due, now))
    ensures id in ClaimDue(o, exhausted, due, now).deliveries
    ensures Follows(o.deliveries[id], ClaimDue(o, exhausted, due, now).deliveries[id], Count(due == Some(id)), false)
  {
  }

  lemma {:induction false} MaterializeStays(
    o: Outbox, selected: seq<EventId>, tasks: map<TaskId, Subscription>, maximum: nat, now: Time, id: DeliveryId)
    requires id in o.deliveries && id < o.nextDelivery
    ensures var n := MaterializeAll(o, selected, tasks, maximum, now);
      id in n.deliveries && n.deliveries[id] == o.deliveries[id]
    decreases |selected|
  {
    if selected != [] && selected[0] in o.events {
      MaterializeStays(MaterializeOne(o, selected[0], tasks, maximum, now), selected[1..], tasks, maximum, now, id);
    }
  }

  lemma StepFollows(c: Settings, o: Outbox, a: Act, id: DeliveryId)
    requires Inv(o) && Possible(c, o, a) && id in o.deliveries
    ensures id in Step(c, o, a).deliveries
    ensures Follows(o.deliveries[id], Step(c, o, a).deliveries[id], Count(ClaimsDelivery(a, id)), Resends(a, id))
  {
    match a
    case Materialize(selected, tasks, maximum, now) => MaterializeStays(o, selected, tasks, maximum, now, id);
    case Claim(exhausted, due, now) => ClaimFollows(c, o, exhausted, due, now, id);
    case _ =>
  }

  // ---------- claim accounting ----------

  function ClaimCount(acts: seq<Act>, id: DeliveryId): nat {
    if acts == [] then 0 else ClaimCount(acts[..|acts| - 1], id) + Count(ClaimsDelivery(acts[|acts| - 1], id))
  }

  ghost predicate Unsent(acts: seq<Act>, id: DeliveryId) {
    forall i :: 0 <= i < |acts| ==> !Resends(acts[i], id)
  }

  lemma {:induction false} RunFollows(c: Settings, o: Outbox, acts: seq<Act>, id: DeliveryId)
    requires Inv(o) && Feasible(c, o, acts) && id in o.deliveries
    ensures id in Run(c, o, acts).deliveries
    ensures Follows(o.deliveries[id], Run(c, o, acts).deliveries[id], ClaimCount(acts, id), !Unsent(acts, id))
    decreases |acts|
  {
    hide Inv, Possible, Step;
    if acts != [] {
      var n := |acts| - 1;
      FeasiblePrefix(c, o, acts, n);
      RunFollows(c, o, acts[..n], id);
      Midway(c, o, acts, n);
      assert acts[..n + 1] == acts;
      StepFollows(c, Run(c, o, acts[..n]), acts[n], id);
      assert Unsent(acts, id) ==> Unsent(acts[..n], id) && !Resends(acts[n], id);
    }
  }

  /** Between manual resends a delivery is claimed at most as often as it has attempts left. */
  lemma ClaimBudget(c: Settings, o: Outbox, acts: seq<Act>, id: DeliveryId)
    requires Inv(o) && Feasible(c, o, acts) && id in o.deliveries && Unsent(acts, id)
    ensures id in Run(c, o, acts).deliveries
    ensures ClaimCount(acts, id) == Run(c, o, acts).deliveries[id].attempt - o.deliveries[id].attempt
    ensures ClaimCount(acts, id) <= o.deliveries[id].maximum - o.deliveries[id].attempt
  {
    RunFollows(c, o, acts, id);
    RunKeeps(c, o, acts);
    assert DeliveryInv(Run(c, o, acts).deliveries[id]);
  }

  lemma RunSplit(c: Settings, o: Outbox, acts: seq<Act>, k: nat)
    requires k <= |acts|
    ensures Run(c, o, acts) == Run(c, Run(c, o, acts[..k]), acts[k..])
    decreases |acts|
  {
    if k < |acts| {
      var n := |acts| - 1;
      RunSplit(c, o, acts[..n], k);
      assert acts[..n][..k] == acts[..k];
      assert acts[..n][k..] == acts[k..][..n - k];
      assert acts[k..][|acts[k..]| - 1] == acts[n];
    } else {
      assert acts[..k] == acts && acts[k..] == [];
    }
  }

  lemma FeasibleSuffix(c: Settings, o: Outbox, acts: seq<Act>, k: nat)
    requires Feasible(c, o, acts) && k <= |acts|
    ensures Feasible(c, Run(c, o, acts[..k]), acts[k..])
  {
    hide Possible;
    forall i | 0 <= i < |acts[k..]| ensures Possible(c, Run(c, Run(c, o, acts[..k]), acts[k..][..i]), acts[k..][i]) {
      RunSplit(c, o, acts[..k + i], k);
      assert acts[..k + i][..k] == acts[..k] && acts[..k + i][k..] == acts[k..][..i];
      assert Possible(c, Run(c, o, acts[..k + i]), acts[k + i]);
    }
  }

  /** Claims of one delivery get strictly increasing sequences, resent or not. */
  lemma ClaimsIncrease(c: Settings, o: Outbox, acts: seq<Act>, i: nat, j: nat, id: DeliveryId)
    requires Inv(o) && Feasible(c, o, acts) && i < j < |acts|
    requires ClaimsDelivery(acts[i], id) && ClaimsDelivery(acts[j], id)
    ensures id in Run(c, o, acts[..i + 1]).deliveries && id in Run(c, o, acts[..j + 1]).deliveries
    ensures Run(c, o, acts[..i + 1]).deliveries[id].sequence < Run(c, o, acts[..j + 1]).deliveries[id].sequence
  {
    Midway(c, o, acts, i);
    Midway(c, o, acts, j);
    var m := Run(c, o, acts[..i + 1]);
    hide Inv, Run;
    StepFollows(c, Run(c, o, acts[..i]), acts[i], id);
    Between(c, o, acts, i + 1, j, id);
    StepFollows(c, Run(c, o, acts[..j]), acts[j], id);
  }

  lemma Between(c: Settings, o: Outbox, acts: seq<Act>, i: nat, j: nat, id: DeliveryId)
    requires Inv(o) && Feasible(c, o, acts) && i <= j <= |acts| && id in Run(c, o, acts[..i]).deliveries
    ensures id in Run(c, o, acts[..j]).deliveries
    ensures Run(c, o, acts[..i]).deliveries[id].sequence <= Run(c, o, acts[..j]).deliveries[id].sequence
  {
    hide Inv, Run, Possible;
    FeasiblePrefix(c, o, acts, i);
    RunKeeps(c, o, acts[..i]);
    FeasiblePrefix(c, o, acts, j);
    FeasibleSuffix(c, o, acts[..j], i);
    assert acts[..j][..i] == acts[..i];
    RunSplit(c, o, acts[..j], i);
    RunFollows(c, Run(c, o, acts[..i]), acts[..j][i..], id);
  }

  /** In every reachable state attempt rows are unique by delivery and sequence, and no open claim can change that. */
  lemma AttemptsUnique(c: Settings, o: Outbox, acts: seq<Act>)
    requires Inv(o) && Feasible(c, o, acts)
    ensures var n := Run(c, o, acts);
      && (forall i, j :: 0 <= i < j < |n.attempts| ==>
            n.attempts[i].delivery != n.attempts[j].delivery || n.attempts[i].sequence != n.attempts[j].sequence)
      && (forall t, i :: t in n.tickets && 0 <= i < |n.attempts| ==>
            n.attempts[i].delivery != t.delivery || n.attempts[i].sequence != t.sequence)
  {
    RunKeeps(c, o, acts);
    var n := Run(c, o, acts);
    forall i, j | 0 <= i < j < |n.attempts|
      ensures n.attempts[i].delivery != n.attempts[j].delivery || n.attempts[i].sequence != n.attempts[j].sequence
    {
      assert !Uses(n.attempts[j], n.attempts[i].delivery, n.attempts[i].sequence);
    }
    forall t, i | t in n.tickets && 0 <= i < |n.attempts|
      ensures n.attempts[i].delivery != t.delivery || n.attempts[i].sequence != t.sequence
    {
      assert !Uses(n.attempts[i], t.delivery, t.sequence);
    }
  }

  // ---------- results and resends ----------

  lemma StaleResult(c: Settings, o: Outbox, t: Ticket, r: Response, now: Time)
    requires t.delivery in o.deliveries && t.sequence != o.deliveries[t.delivery].sequence
    ensures RecordResult(c, o, t, r, now).deliveries == o.deliveries
  {
  }

  lemma TicketBound(o: Outbox, t: Ticket)
    requires Inv(o) && t in o.tickets
    ensures t.delivery in o.deliveries && t.sequence <= o.deliveries[t.delivery].sequence
  {
  }

  /** Once a newer claim exists, the result of an older one never changes a delivery, whenever it arrives. */
  lemma ResultFenced(c: Settings, o: Outbox, acts: seq<Act>, i: nat, k: nat)
    requires Inv(o) && Feasible(c, o, acts) && i < k < |acts| && acts[k].Record?
    requires ClaimsDelivery(acts[i], acts[k].ticket.delivery) && acts[k].ticket in Run(c, o, acts[..i]).tickets
    ensures Run(c, o, acts[..k + 1]).deliveries == Run(c, o, acts[..k]).deliveries
  {
    hide Inv, Run, Possible, Feasible;
    var t := acts[k].ticket;
    Midway(c, o, acts, i);
    Midway(c, o, acts, k);
    TicketBound(Run(c, o, acts[..i]), t);
    StepFollows(c, Run(c, o, acts[..i]), acts[i], t.delivery);
    Between(c, o, acts, i + 1, k, t.delivery);
    StaleResult(c, Run(c, o, acts[..k]), t, acts[k].response, acts[k].now);
  }

  /** A result of the given sequence for the delivery. */
  predicate Answers(a: Act, id: DeliveryId, sequence: nat) {
    a.Record? && a.ticket.delivery == id && a.ticket.sequence == sequence
  }

  lemma PendingStep(c: Settings, o: Outbox, a: Act, id: DeliveryId)
    requires Inv(o) && Possible(c, o, a) && id in o.deliveries && !ClaimsDelivery(a, id) && !Resends(a, id)
    ensures id in Step(c, o, a).deliveries
    ensures Step(c, o, a).deliveries[id].status.Pending? <==>
      o.deliveries[id].status.Pending? && !Answers(a, id, o.deliveries[id].sequence)
  {
    match a
    case Materialize(selected, tasks, maximum, now) => MaterializeStays(o, selected, tasks, maximum, now, id);
    case _ =>
  }

  /** Neither claimed nor resent between the two points. */
  ghost predicate Untouched(acts: seq<Act>, i: nat, j: nat, id: DeliveryId) {
    forall k :: i <= k < j && k < |acts| ==> !ClaimsDelivery(acts[k], id) && !Resends(acts[k], id)
  }

  ghost predicate AnsweredBetween(acts: seq<Act>, i: nat, j: nat, id: DeliveryId, sequence: nat) {
    exists k :: i <= k < j && k < |acts| && Answers(acts[k], id, sequence)
  }

  /**
   A pending delivery that nobody claims or resends stays pending if and only if no result
   with its current sequence arrives: a resend is used up by a late result of the claim
   before it, and by nothing else.
   */
  lemma {:induction false} ResendConsumedIff(c: Settings, o: Outbox, acts: seq<Act>, i: nat, j: nat, id: DeliveryId)
    requires Inv(o) && Feasible(c, o, acts) && i <= j <= |acts| && Untouched(acts, i, j, id)
    requires id in Run(c, o, acts[..i]).deliveries && Run(c, o, acts[..i]).deliveries[id].status.Pending?
    ensures id in Run(c, o, acts[..j]).deliveries
    ensures Run(c, o, acts[..j]).deliveries[id].sequence == Run(c, o, acts[..i]).deliveries[id].sequence
    ensures Run(c, o, acts[..j]).deliveries[id].status.Pending? <==>
      !AnsweredBetween(acts, i, j, id, Run(c, o, acts[..i]).deliveries[id].sequence)
    decreases j
  {
    hide Inv, Run, Possible, Feasible, Step;
    if i < j {
      assert Untouched(acts, i, j - 1, id);
      ResendConsumedIff(c, o, acts, i, j - 1, id);
      Midway(c, o, acts, j - 1);
      StepFollows(c, Run(c, o, acts[..j - 1]), acts[j - 1], id);
      PendingStep(c, Run(c, o, acts[..j - 1]), acts[j - 1], id);
      AnsweredStep(acts, i, j, id, Run(c, o, acts[..i]).deliveries[id].sequence);
    }
  }

  lemma AnsweredStep(acts: seq<Act>, i: nat, j: nat, id: DeliveryId, sequence: nat)
    requires i < j <= |acts|
    ensures AnsweredBetween(acts, i, j, id, sequence) <==>
      AnsweredBetween(acts, i, j - 1, id, sequence) || Answers(acts[j - 1], id, sequence)
  {
  }

  /** The result of the latest claim is on record, or there was no claim. */
  ghost predicate LastClaimRecorded(o: Outbox, id: DeliveryId)
    requires id in o.deliveries
  {
    || o.deliveries[id].sequence == 0
    || exists i :: 0 <= i < |o.attempts| && Uses(o.attempts[i], id, o.deliveries[id].sequence)
  }

  /** The latest claim is still out with some dispatcher. */
  ghost predicate LastClaimOut(o: Outbox, id: DeliveryId)
    requires id in o.deliveries
  {
    exists t :: t in o.tickets && t.delivery == id && t.sequence == o.deliveries[id].sequence
  }

  /** Every latest claim is either out or on record. */
  ghost predicate Accounted(o: Outbox) {
    forall id :: id in o.deliveries ==> LastClaimRecorded(o, id) || LastClaimOut(o, id)
  }

  lemma {:induction false} MaterializeFresh(
    o: Outbox, selected: seq<EventId>, tasks: map<TaskId, Subscription>, maximum: nat, now: Time, id: DeliveryId)
    requires forall d :: d in o.deliveries ==> d < o.nextDelivery
    requires id in MaterializeAll(o, selected, tasks, maximum, now).deliveries && id !in o.deliveries
    ensures MaterializeAll(o, selected, tasks, maximum, now).deliveries[id].sequence == 0
    decreases |selected|
  {
    if selected != [] && selected[0] in o.events {
      var n := MaterializeOne(o, selected[0], tasks, maximum, now);
      if id in n.deliveries {
        MaterializeStays(n, selected[1..], tasks, maximum, now, id);
      } else {
        MaterializeFresh(n, selected[1..], tasks, maximum, now, id);
      }
    }
  }

  lemma MaterializeAccounted(
    o: Outbox, selected: seq<EventId>, tasks: map<TaskId, Subscription>, maximum: nat, now: Time)
    requires Inv(o) && Accounted(o) && AllMaterializable(o, selected) && 1 <= maximum <= 20
    ensures Accounted(MaterializeAll(o, selected, tasks, maximum, now))
  {
    MaterializeKeeps(o, selected, tasks, maximum, now);
    var n := MaterializeAll(o, selected, tasks, maximum, now);
    forall id | id in n.deliveries ensures LastClaimRecorded(n, id) || LastClaimOut(n, id) {
      if id in o.deliveries {
        MaterializeStays(o, selected, tasks, maximum, now, id);
      } else {
        MaterializeFresh(o, selected, tasks, maximum, now, id);
      }
    }
  }

  lemma ClaimAccounted(c: Settings, o: Outbox, exhausted: Option<DeliveryId>, due: Option<DeliveryId>, now: Time)
    requires Accounted(o) && Possible(c, o, Claim(exhausted, due, now))
    ensures Accounted(ClaimDue(o, exhausted, due, now))
  {
    var n := ClaimDue(o, exhausted, due, now);
    forall id | id in n.deliveries ensures LastClaimRecorded(n, id) || LastClaimOut(n, id) {
      ClaimFollows(c, o, exhausted, due, now, id);
      if due == Some(id) {
        assert Ticket(id, n.deliveries[id].sequence, n.deliveries[id].attempt) in n.tickets;
      }
    }
  }

  lemma RecordAccounted(c: Settings, o: Outbox, t: Ticket, r: Response, now: Time)
    requires Accounted(o) && Inv(o) && t in o.tickets
    ensures Accounted(RecordResult(c, o, t, r, now))
  {
    var n := RecordResult(c, o, t, r, now);
    var last := |o.attempts|;
    assert |n.attempts| == last + 1 && Uses(n.attempts[last], t.delivery, t.sequence);
    forall id | id in n.deliveries ensures LastClaimRecorded(n, id) || LastClaimOut(n, id) {
      assert id in o.deliveries && n.deliveries[id].sequence == o.deliveries[id].sequence;
      if LastClaimRecorded(o, id) && o.deliveries[id].sequence != 0 {
        var i :| 0 <= i < |o.attempts| && Uses(o.attempts[i], id, o.deliveries[id].sequence);
        assert n.attempts[i] == o.attempts[i];
      } else if LastClaimOut(o, id) {
        var u :| u in o.tickets && u.delivery == id && u.sequence == o.deliveries[id].sequence;
        if u != t {
          assert u in n.tickets;
        }
      }
    }
  }

  lemma StepAccounted(c: Settings, o: Outbox, a: Act)
    requires Inv(o) && Possible(c, o, a) && Accounted(o)
    ensures Accounted(Step(c, o, a))
  {
    hide Inv;
    match a
    case Materialize(selected, tasks, maximum, now) => MaterializeAccounted(o, selected, tasks, maximum, now);
    case Claim(exhausted, due, now) => ClaimAccounted(c, o, exhausted, due, now);
    case Record(ticket, response, now) => RecordAccounted(c, o, ticket, response, now);
    case ResendDelivery(id, now) => SameClaims(o, Step(c, o, a));
    case _ => SameClaims(o, Step(c, o, a));
  }

  lemma SameClaims(o: Outbox, n: Outbox)
    requires Accounted(o) && n.attempts == o.attempts && n.tickets == o.tickets
    requires n.deliveries.Keys == o.deliveries.Keys
    requires forall id :: id in o.deliveries ==> n.deliveries[id].sequence == o.deliveries[id].sequence
    ensures Accounted(n)
  {
    forall id | id in n.deliveries ensures LastClaimRecorded(n, id) || LastClaimOut(n, id) {
      assert LastClaimRecorded(o, id) || LastClaimOut(o, id);
    }
  }

  lemma {:induction false} RunAccounted(c: Settings, o: Outbox, acts: seq<Act>)
    requires Inv(o) && Accounted(o) && Feasible(c, o, acts)
    ensures Accounted(Run(c, o, acts))
    decreases |acts|
  {
    hide Inv, Accounted, Possible, Step;
    if acts != [] {
      var n := |acts| - 1;
      FeasiblePrefix(c, o, acts, n);
      RunAccounted(c, o, acts[..n]);
      Midway(c, o, acts, n);
      assert acts[..n + 1] == acts;
      StepAccounted(c, Run(c, o, acts[..n]), acts[n]);
    }
  }

  /** The claim on record cannot be out as well. */
  lemma RecordedNotOut(o: Outbox, id: DeliveryId)
    requires Inv(o) && Accounted(o) && id in o.deliveries && o.deliveries[id].sequence > 0
    ensures LastClaimRecorded(o, id) <==> !LastClaimOut(o, id)
  {
  }

  /** Nothing but a claim or a resend of its own can end the wait of the delivery. */
  ghost predicate WaitsSafely(c: Settings, o: Outbox, id: DeliveryId) {
    forall acts :: Feasible(c, o, acts) && Untouched(acts, 0, |acts|, id) ==>
      id in Run(c, o, acts).deliveries && Run(c, o, acts).deliveries[id].status.Pending?
  }

  /** No claim that is out carries the current sequence. */
  ghost predicate Clear(o: Outbox, id: DeliveryId) {
    id in o.deliveries && forall t :: t in o.tickets && t.delivery == id ==> t.sequence != o.deliveries[id].sequence
  }

  /** A claim cannot come back: only a new claim carries a sequence, and it carries a new one. */
  lemma ClearStep(c: Settings, o: Outbox, a: Act, id: DeliveryId)
    requires Inv(o) && Possible(c, o, a) && Clear(o, id) && !ClaimsDelivery(a, id)
    ensures Clear(Step(c, o, a), id)
  {
    match a
    case Materialize(selected, tasks, maximum, now) =>
      MaterializeKeeps(o, selected, tasks, maximum, now);
      MaterializeStays(o, selected, tasks, maximum, now, id);
    case Claim(exhausted, due, now) => ClaimFollows(c, o, exhausted, due, now, id);
    case _ =>
  }

  lemma {:induction false} ClearWaits(c: Settings, o: Outbox, acts: seq<Act>, id: DeliveryId)
    requires Inv(o) && Feasible(c, o, acts) && Untouched(acts, 0, |acts|, id)
    requires Clear(o, id) && o.deliveries[id].status.Pending?
    ensures Clear(Run(c, o, acts), id) && Run(c, o, acts).deliveries[id].status.Pending?
    decreases |acts|
  {
    hide Inv, Possible, Step, Clear;
    if acts == [] {
      ClearHas(o, id);
    } else {
      var n := |acts| - 1;
      FeasiblePrefix(c, o, acts, n);
      assert Untouched(acts[..n], 0, n, id);
      ClearWaits(c, o, acts[..n], id);
      Midway(c, o, acts, n);
      assert acts[..n + 1] == acts;
      var m := Run(c, o, acts[..n]);
      ClearHas(m, id);
      ClearStep(c, m, acts[n], id);
      ClearAnswer(c, m, acts[n], id);
      PendingStep(c, m, acts[n], id);
    }
  }

  lemma ClearHas(o: Outbox, id: DeliveryId)
    requires Clear(o, id)
    ensures id in o.deliveries
  {
  }

  lemma ClearAnswer(c: Settings, o: Outbox, a: Act, id: DeliveryId)
    requires Clear(o, id) && Possible(c, o, a)
    ensures !Answers(a, id, o.deliveries[id].sequence)
  {
  }

  lemma ResentWaits(c: Settings, o: Outbox, id: DeliveryId, now: Time)
    requires Inv(o) && Accounted(o) && id in o.deliveries && Resendable(o.deliveries[id])
    ensures WaitsSafely(c, Resend(o, id, now).value, id) <==> LastClaimRecorded(o, id)
  {
    var n := Resend(o, id, now).value;
    ResendKeeps(o, id, now);
    ResentSame(o, id, now);
    hide Inv, Resend;
    if LastClaimRecorded(o, id) {
      RecordedClear(o, id);
      forall acts | Feasible(c, n, acts) && Untouched(acts, 0, |acts|, id)
        ensures id in Run(c, n, acts).deliveries && Run(c, n, acts).deliveries[id].status.Pending?
      {
        ClearWaits(c, n, acts, id);
        ClearHas(Run(c, n, acts), id);
      }
    } else {
      var t :| t in o.tickets && t.delivery == id && t.sequence == o.deliveries[id].sequence;
      LateAnswer(c, n, t, now);
    }
  }

  /**
   What a caller of the resend can look up, in every reachable outbox: the resent delivery
   waits for its own claim, whatever else happens, if and only if the result of its latest
   claim is already on record.  Otherwise that result can arrive at once and use the resend up.
   */
  lemma ResendSafeIff(c: Settings, acts: seq<Act>, id: DeliveryId, now: Time)
    requires Feasible(c, EMPTY_OUTBOX, acts) && id in Run(c, EMPTY_OUTBOX, acts).deliveries
    requires Resendable(Run(c, EMPTY_OUTBOX, acts).deliveries[id])
    ensures var o := Run(c, EMPTY_OUTBOX, acts);
      && Resend(o, id, now).Success?
      && (WaitsSafely(c, Resend(o, id, now).value, id) <==> LastClaimRecorded(o, id))
  {
    hide Run, Feasible, WaitsSafely, LastClaimRecorded;
    EmptyAccounted();
    RunKeeps(c, EMPTY_OUTBOX, acts);
    RunAccounted(c, EMPTY_OUTBOX, acts);
    ResentWaits(c, Run(c, EMPTY_OUTBOX, acts), id, now);
  }

  lemma EmptyAccounted()
    ensures Inv(EMPTY_OUTBOX) && Accounted(EMPTY_OUTBOX)
  {
  }

  lemma ResentSame(o: Outbox, id: DeliveryId, now: Time)
    requires id in o.deliveries && Resendable(o.deliveries[id])
    ensures var n := Resend(o, id, now).value;
      && n.tickets == o.tickets && n.attempts == o.attempts && id in n.deliveries
      && n.deliveries[id].status.Pending? && n.deliveries[id].sequence == o.deliveries[id].sequence
  {
  }

  lemma RecordedClear(o: Outbox, id: DeliveryId)
    requires Inv(o) && Accounted(o) && id in o.deliveries && LastClaimRecorded(o, id)
    ensures Clear(o, id)
  {
    if o.deliveries[id].sequence > 0 {
      RecordedNotOut(o, id);
    }
  }

  /** The outstanding result arrives. */
  lemma LateAnswer(c: Settings, o: Outbox, t: Ticket, now: Time)
    requires t in o.tickets && t.delivery in o.deliveries && t.sequence == o.deliveries[t.delivery].sequence
    ensures !WaitsSafely(c, o, t.delivery)
  {
    var a := Record(t, Response(true, false, None, None), now);
    var acts := [a];
    assert acts[..0] == [] && Run(c, o, []) == o;
    assert Possible(c, Run(c, o, acts[..0]), acts[0]);
    assert Run(c, o, acts) == Step(c, o, a);
    assert Feasible(c, o, acts) && Untouched(acts, 0, |acts|, t.delivery);
    assert !Run(c, o, acts).deliveries[t.delivery].status.Pending?;
  }

  const EMPTY_OUTBOX := Outbox(map[], 0, map[], 0, [], {})

  lemma Longer(c: Settings, o: Outbox, acts: seq<Act>, a: Act)
    requires Feasible(c, o, acts) && Possible(c, Run(c, o, acts), a)
    ensures Feasible(c, o, acts + [a]) && Run(c, o, acts + [a]) == Step(c, Run(c, o, acts), a)
  {
    hide Possible, Step;
    var more := acts + [a];
    assert more[..|more| - 1] == acts;
    forall i | 0 <= i < |more| ensures Possible(c, Run(c, o, more[..i]), more[i]) {
      assert i < |acts| ==> more[..i] == acts[..i];
      assert i == |acts| ==> more[..i] == acts;
    }
  }

  /** One event, one delivery, materialised at one time and claimed at another, not answered. */
  lemma ClaimedRun(c: Settings, t: Task, maximum: nat, created: Time, claimed: Time) returns (acts: seq<Act>)
    requires 1 <= maximum <= 20
    ensures Feasible(c, EMPTY_OUTBOX, acts) && |acts| == 3
    ensures acts[1].Materialize? && acts[1].now == created && acts[2].Claim? && acts[2].now == claimed
    ensures var n := Run(c, EMPTY_OUTBOX, acts);
      && 0 in n.deliveries && Ticket(0, 1, 1) in n.tickets
      && n.deliveries[0] == Claimed(NewDelivery(0, CreatedCallback, 0, maximum, created), claimed)
  {
    var tasks := map[0 := Subscription(t, Some({CreatedCallback}))];
    var first, second := PublishEvent(TaskCreated, Some(0), 0.0), Materialize([0], tasks, maximum, created);
    var third := Claim(None, Some(0), claimed);
    hide Run, Feasible;
    EmptyFeasible(c);
    Longer(c, EMPTY_OUTBOX, [], first);
    var o1 := Step(c, EMPTY_OUTBOX, first);
    assert o1.events == map[0 := Event(TaskCreated, Some(0), false, 0.0)] && o1.deliveries == map[];
    Longer(c, EMPTY_OUTBOX, [] + [first], second);
    var o2 := MaterializeOne(o1, 0, tasks, maximum, created);
    assert Step(c, o1, second) == o2 by {
      assert [0][1..] == [];
      assert MaterializeAll(o2, [], tasks, maximum, created) == o2;
    }
    assert o2.deliveries[0] == NewDelivery(0, CreatedCallback, 0, maximum, created);
    Longer(c, EMPTY_OUTBOX, [] + [first] + [second], third);
    acts := [] + [first] + [second] + [third];
  }

  lemma EmptyFeasible(c: Settings)
    ensures Feasible(c, EMPTY_OUTBOX, []) && Run(c, EMPTY_OUTBOX, []) == EMPTY_OUTBOX
  {
  }

  /** A run in which a late result uses up a resend: the last claim goes stale, is failed and resent, then answers. */
  lemma LateResultRun(c: Settings, t: Task) returns (acts: seq<Act>)
    requires SettingsValid(c)
    ensures Feasible(c, EMPTY_OUTBOX, acts) && |acts| == 6 && acts[4].ResendDelivery? && acts[5].Record?
    ensures var n := Run(c, EMPTY_OUTBOX, acts);
      && 0 in n.deliveries && n.deliveries[0].status.Succeeded?
      && n.deliveries[0].attempt == 0 && n.deliveries[0].sequence == 1
  {
    hide Run, Feasible;
    var start := ClaimedRun(c, t, 1, 0.0, 0.0);
    var late := c.claimTimeout;
    var fourth, fifth := Claim(Some(0), None, late), ResendDelivery(0, late);
    var sixth := Record(Ticket(0, 1, 1), Response(true, false, None, None), late);
    Longer(c, EMPTY_OUTBOX, start, fourth);
    Longer(c, EMPTY_OUTBOX, start + [fourth], fifth);
    Longer(c, EMPTY_OUTBOX, start + [fourth] + [fifth], sixth);
    acts := start + [fourth] + [fifth] + [sixth];
  }

  // ---------- times ----------

  /** `CallbackDeliveryDetail.validate_delivery`. */
  ghost predicate DeliveryDetailValid(d: Delivery) {
    && 1 <= d.maximum <= 20
    && d.attempt <= d.maximum
    && d.attempt <= d.sequence
    && d.createdAt <= d.updatedAt
    && (d.status.RetryWait? <==> d.nextAt.Some?)
  }

  /** The act writes the row of the delivery. */
  ghost predicate Writes(c: Settings, o: Outbox, a: Act, id: DeliveryId) {
    match a
    case PublishEvent(_, _, _) => false
    case Materialize(_, _, _, _) => id !in o.deliveries && id in Step(c, o, a).deliveries
    case Claim(exhausted, due, _) => exhausted == Some(id) || due == Some(id)
    case Record(t, _, _) => id in o.deliveries && Answers(a, id, o.deliveries[id].sequence)
    case ResendDelivery(d, _) => d == id && id in o.deliveries && Resendable(o.deliveries[id])
    case RetainEvents(_, _) => false
  }

  lemma {:induction false} MaterializeStamps(
    o: Outbox, selected: seq<EventId>, tasks: map<TaskId, Subscription>, maximum: nat, now: Time, id: DeliveryId)
    requires forall d :: d in o.deliveries ==> d < o.nextDelivery
    requires id !in o.deliveries && id in MaterializeAll(o, selected, tasks, maximum, now).deliveries
    ensures MaterializeAll(o, selected, tasks, maximum, now).deliveries[id].createdAt == now
    ensures MaterializeAll(o, selected, tasks, maximum, now).deliveries[id].updatedAt == now
    decreases |selected|
  {
    if selected != [] && selected[0] in o.events {
      var n := MaterializeOne(o, selected[0], tasks, maximum, now);
      if id in n.deliveries {
        MaterializeStays(n, selected[1..], tasks, maximum, now, id);
      } else {
        MaterializeStamps(n, selected[1..], tasks, maximum, now, id);
      }
    }
  }

  /** A written row carries the clock of the writer; any other row is untouched. */
  lemma StepWrites(c: Settings, o: Outbox, a: Act, id: DeliveryId)
    requires Inv(o) && Possible(c, o, a) && id in Step(c, o, a).deliveries
    ensures Writes(c, o, a, id) ==> Step(c, o, a).deliveries[id].updatedAt == a.now
    ensures !Writes(c, o, a, id) ==> id in o.deliveries && Step(c, o, a).deliveries[id] == o.deliveries[id]
  {
    match a
    case Materialize(selected, tasks, maximum, now) =>
      if id in o.deliveries {
        MaterializeStays(o, selected, tasks, maximum, now, id);
      } else {
        MaterializeStamps(o, selected, tasks, maximum, now, id);
      }
    case _ =>
  }

  /** The `k`th act of the run is the last one that wrote the row. */
  ghost predicate LastWrite(c: Settings, o: Outbox, acts: seq<Act>, id: DeliveryId, k: nat) {
    && k < |acts| && Writes(c, Run(c, o, acts[..k]), acts[k], id)
    && (forall j :: k < j < |acts| ==> !Writes(c, Run(c, o, acts[..j]), acts[j], id))
  }

  lemma {:induction false} LastWriteStamps(c: Settings, o: Outbox, acts: seq<Act>, id: DeliveryId) returns (k: nat)
    requires Inv(o) && Feasible(c, o, acts) && id !in o.deliveries && id in Run(c, o, acts).deliveries
    ensures LastWrite(c, o, acts, id, k) && Run(c, o, acts).deliveries[id].updatedAt == acts[k].now
    decreases |acts|
  {
    hide Inv, Possible, Step, Writes;
    var n := |acts| - 1;
    Midway(c, o, acts, n);
    assert acts[..n + 1] == acts;
    var m := Run(c, o, acts[..n]);
    StepWrites(c, m, acts[n], id);
    if Writes(c, m, acts[n], id) {
      k := n;
    } else {
      FeasiblePrefix(c, o, acts, n);
      k := LastWriteStamps(c, o, acts[..n], id);
      assert acts[..n][..k] == acts[..k];
      forall j | k < j < |acts| ensures !Writes(c, Run(c, o, acts[..j]), acts[j], id) {
        assert j < n ==> acts[..n][..j] == acts[..j] && acts[..n][j] == acts[j];
      }
    }
  }

  /**
   Over every run, a delivery made in it meets the public validator if and only if the last
   act that wrote its row had a clock that was not behind the creation of the delivery.
   */
  lemma ValidIffClockCaughtUp(c: Settings, o: Outbox, acts: seq<Act>, id: DeliveryId) returns (k: nat)
    requires Inv(o) && Feasible(c, o, acts) && id !in o.deliveries && id in Run(c, o, acts).deliveries
    ensures LastWrite(c, o, acts, id, k)
    ensures DeliveryDetailValid(Run(c, o, acts).deliveries[id]) <==>
      Run(c, o, acts).deliveries[id].createdAt <= acts[k].now
  {
    k := LastWriteStamps(c, o, acts, id);
    RunKeeps(c, o, acts);
    assert DeliveryInv(Run(c, o, acts).deliveries[id]);
  }

  /** Materialised at 10 by one process, claimed at 5 by a pass that started earlier: the row is not valid. */
  lemma StaleClockRun(c: Settings, t: Task) returns (acts: seq<Act>)
    ensures Feasible(c, EMPTY_OUTBOX, acts) && |acts| == 3 && acts[1].now == 10.0 && acts[2].now == 5.0
    ensures var n := Run(c, EMPTY_OUTBOX, acts); 0 in n.deliveries && !DeliveryDetailValid(n.deliveries[0])
  {
    acts := ClaimedRun(c, t, 1, 10.0, 5.0);
  }

  ghost predicate Timely(o: Outbox, clock: Time) {
    forall d :: d in o.deliveries ==>
      o.deliveries[d].createdAt <= clock && o.deliveries[d].createdAt <= o.deliveries[d].updatedAt
  }

  lemma {:induction false} MaterializeTimely(
    o: Outbox, selected: seq<EventId>, tasks: map<TaskId, Subscription>, maximum: nat, clock: Time, now: Time)
    requires Timely(o, clock) && clock <= now
    ensures Timely(MaterializeAll(o, selected, tasks, maximum, now), now)
    decreases |selected|
  {
    if selected != [] && selected[0] in o.events {
      MaterializeTimely(
        MaterializeOne(o, selected[0], tasks, maximum, now), selected[1..], tasks, maximum, now, now);
    }
  }

  lemma StepTimely(c: Settings, o: Outbox, a: Act, clock: Time)
    requires Timely(o, clock) && clock <= a.now
    ensures Timely(Step(c, o, a), a.now)
  {
    match a
    case Materialize(selected, tasks, maximum, now) => MaterializeTimely(o, selected, tasks, maximum, clock, now);
    case _ =>
  }

  ghost predicate ClockRuns(acts: seq<Act>, clock: Time) {
    && (acts != [] ==> clock <= acts[0].now)
    && (forall i, j :: 0 <= i < j < |acts| ==> acts[i].now <= acts[j].now)
  }

  lemma {:induction false} RunTimely(c: Settings, o: Outbox, acts: seq<Act>, clock: Time)
    requires Timely(o, clock) && ClockRuns(acts, clock)
    ensures Timely(Run(c, o, acts), if acts == [] then clock else acts[|acts| - 1].now)
    decreases |acts|
  {
    hide Timely, Step;
    if acts != [] {
      var n := |acts| - 1;
      RunTimely(c, o, acts[..n], clock);
      StepTimely(c, Run(c, o, acts[..n]), acts[n], if n == 0 then clock else acts[n - 1].now);
    }
  }

  /** With a clock that does not run backwards every delivery meets its public validator in every reachable state. */
  lemma DeliveriesValid(c: Settings, o: Outbox, acts: seq<Act>, clock: Time, id: DeliveryId)
    requires Inv(o) && Timely(o, clock) && Feasible(c, o, acts) && ClockRuns(acts, clock)
    requires id in Run(c, o, acts).deliveries
    ensures DeliveryDetailValid(Run(c, o, acts).deliveries[id])
  {
    RunKeeps(c, o, acts);
    RunTimely(c, o, acts, clock);
    assert DeliveryInv(Run(c, o, acts).deliveries[id]);
  }

  // ---------- at most once per dispatcher pass ----------

  /** Not due for a dispatcher whose clock shows `now`. */
  ghost predicate Resting(d: Delivery, now: Time) {
    && !d.status.Pending?
    && (d.status.Delivering? ==> now <= d.updatedAt)
    && (d.status.RetryWait? ==> d.nextAt.Some? && now < d.nextAt.value)
  }

  lemma RestingNotDue(c: Settings, d: Delivery, now: Time)
    requires SettingsValid(c) && Resting(d, now)
    ensures !IsDue(c, d, now)
  {
  }

  lemma DelayPositive(c: Settings, attempt: nat)
    requires SettingsValid(c)
    ensures 0.0 < RetryDelay(c, attempt)
  {
    var n := if attempt == 0 then 0 else attempt - 1;
    TaskInvariant.PowerAtLeastOne(2.0, n);
    ProductSign(c.initialRetry, Lifecycle.Power(2.0, n));
  }

  lemma StepRests(c: Settings, o: Outbox, a: Act, id: DeliveryId, now: Time)
    requires SettingsValid(c) && Inv(o) && Possible(c, o, a) && id in o.deliveries && Resting(o.deliveries[id], now)
    requires now <= a.now && !Resends(a, id)
    ensures id in Step(c, o, a).deliveries && Resting(Step(c, o, a).deliveries[id], now)
  {
    DelayPositive(c, o.deliveries[id].attempt);
    match a
    case Materialize(selected, tasks, maximum, at) => MaterializeStays(o, selected, tasks, maximum, at, id);
    case _ =>
  }

  lemma ClaimRests(c: Settings, o: Outbox, a: Act, id: DeliveryId)
    requires Possible(c, o, a) && ClaimsDelivery(a, id)
    ensures id in Step(c, o, a).deliveries && Resting(Step(c, o, a).deliveries[id], a.now)
  {
  }

  ghost predicate Quiet(acts: seq<Act>, i: nat, j: nat, id: DeliveryId, now: Time) {
    forall k :: i < k < j && k < |acts| ==> !Resends(acts[k], id) && now <= acts[k].now
  }

  lemma {:induction false} RestsBetween(c: Settings, o: Outbox, acts: seq<Act>, i: nat, j: nat, id: DeliveryId)
    requires SettingsValid(c) && Inv(o) && Feasible(c, o, acts) && i < j <= |acts|
    requires ClaimsDelivery(acts[i], id) && Quiet(acts, i, j, id, acts[i].now)
    ensures id in Run(c, o, acts[..j]).deliveries && Resting(Run(c, o, acts[..j]).deliveries[id], acts[i].now)
    decreases j
  {
    hide Inv, Possible, Resting, Step;
    Midway(c, o, acts, j - 1);
    if j == i + 1 {
      ClaimRests(c, Run(c, o, acts[..i]), acts[i], id);
    } else {
      RestsBetween(c, o, acts, i, j - 1, id);
      StepRests(c, Run(c, o, acts[..j - 1]), acts[j - 1], id, acts[i].now);
    }
  }

  /** Two claims of one delivery at the same dispatcher time have a resend, or an older clock, in between. */
  lemma ClaimedOncePerPass(c: Settings, o: Outbox, acts: seq<Act>, i: nat, j: nat, id: DeliveryId)
    requires SettingsValid(c) && Inv(o) && Feasible(c, o, acts) && i < j < |acts|
    requires ClaimsDelivery(acts[i], id) && ClaimsDelivery(acts[j], id) && acts[i].now == acts[j].now
    ensures exists k :: i < k < j && (Resends(acts[k], id) || acts[k].now < acts[i].now)
  {
    if Quiet(acts, i, j, id, acts[i].now) {
      RestsBetween(c, o, acts, i, j, id);
      Midway(c, o, acts, j);
      RestingNotDue(c, Run(c, o, acts[..j]).deliveries[id], acts[i].now);
      assert false;
    }
  }

  // ---------- outbox safety ----------

  lemma DeleteOnlyProcessed(c: Settings, o: Outbox, a: Act, e: EventId)
    requires Inv(o) && Possible(c, o, a) && e in o.events && Source(o.events[e].kind) && !o.events[e].processed
    ensures e in Step(c, o, a).events && Step(c, o, a).events[e].kind == o.events[e].kind
  {
    match a
    case Materialize(selected, tasks, maximum, now) => MaterializeKeeps(o, selected, tasks, maximum, now);
    case _ =>
  }

  ghost predicate Awaiting(o: Outbox, e: EventId) {
    e in o.events && Source(o.events[e].kind) && !o.events[e].processed
  }

  ghost predicate HandledIn(c: Settings, o: Outbox, acts: seq<Act>, e: EventId, i: nat, k: nat) {
    i < k <= |acts| && e in Run(c, o, acts[..k]).events && Run(c, o, acts[..k]).events[e].processed
  }

  /** A source event that is gone was marked processed before it went. */
  lemma {:induction false} NeverLost(c: Settings, o: Outbox, acts: seq<Act>, e: EventId, i: nat, j: nat)
    requires Inv(o) && Feasible(c, o, acts) && i <= j <= |acts| && Awaiting(Run(c, o, acts[..i]), e)
    ensures Awaiting(Run(c, o, acts[..j]), e) || exists k: nat :: k <= j && HandledIn(c, o, acts, e, i, k)
    decreases j
  {
    hide Inv, Possible, Step;
    if i < j {
      NeverLost(c, o, acts, e, i, j - 1);
      Midway(c, o, acts, j - 1);
      if Awaiting(Run(c, o, acts[..j - 1]), e) {
        DeleteOnlyProcessed(c, Run(c, o, acts[..j - 1]), acts[j - 1], e);
        if !Awaiting(Run(c, o, acts[..j]), e) {
          assert HandledIn(c, o, acts, e, i, j);
        }
      }
    }
  }

  /** A delivery made in the run belongs to an event that was marked processed when the delivery was made. */
  lemma {:induction false} DeliveryMarked(c: Settings, o: Outbox, acts: seq<Act>, id: DeliveryId) returns (k: nat)
    requires Inv(o) && Feasible(c, o, acts) && id !in o.deliveries && id in Run(c, o, acts).deliveries
    ensures HandledIn(c, o, acts, Run(c, o, acts).deliveries[id].event, 0, k)
    decreases |acts|
  {
    hide Inv, Possible, Step;
    var n := |acts| - 1;
    Midway(c, o, acts, n);
    assert acts[..n + 1] == acts;
    var m := Run(c, o, acts[..n]);
    if id in m.deliveries {
      FeasiblePrefix(c, o, acts, n);
      StepFollows(c, m, acts[n], id);
      k := DeliveryMarked(c, o, acts[..n], id);
      assert acts[..n][..k] == acts[..k];
    } else {
      k := |acts|;
      MadeMarked(c, m, acts[n], id);
    }
  }

  lemma MadeMarked(c: Settings, o: Outbox, a: Act, id: DeliveryId)
    requires Inv(o) && Possible(c, o, a) && id !in o.deliveries && id in Step(c, o, a).deliveries
    ensures var n := Step(c, o, a); n.deliveries[id].event in n.events && n.events[n.deliveries[id].event].processed
  {
    match a
    case Materialize(selected, tasks, maximum, now) => MaterializeKeeps(o, selected, tasks, maximum, now);
    case _ =>
  }

  /**
   Over any run from the empty outbox an event has at most one delivery, and only after it
   was marked processed, whether or not retention has deleted it since.
   */
  lemma OneDeliveryPerEvent(c: Settings, acts: seq<Act>, a: DeliveryId, b: DeliveryId) returns (k: nat)
    requires Feasible(c, EMPTY_OUTBOX, acts)
    requires a in Run(c, EMPTY_OUTBOX, acts).deliveries && b in Run(c, EMPTY_OUTBOX, acts).deliveries
    ensures var n := Run(c, EMPTY_OUTBOX, acts);
      && (n.deliveries[a].event == n.deliveries[b].event ==> a == b)
      && HandledIn(c, EMPTY_OUTBOX, acts, n.deliveries[a].event, 0, k)
  {
    hide Run, Feasible, Possible;
    RunKeeps(c, EMPTY_OUTBOX, acts);
    k := DeliveryMarked(c, EMPTY_OUTBOX, acts, a);
  }

  /** Only publishing creates source events; materialising, dispatching and retention never do. */
  lemma NoNewSources(c: Settings, o: Outbox, a: Act, e: EventId)
    requires Inv(o) && Possible(c, o, a) && !a.PublishEvent?
    requires e in Step(c, o, a).events && Source(Step(c, o, a).events[e].kind)
    ensures e in o.events
  {
    match a
    case Materialize(selected, tasks, maximum, now) => MaterializeKeeps(o, selected, tasks, maximum, now);
    case _ =>
  }

  /** A selected event gets its delivery exactly when its callback is wanted. */
  ghost predicate Delivers(n: Outbox, e: EventId, kind: CallbackKind) {
    exists d :: d in n.deliveries && n.deliveries[d].event == e && n.deliveries[d].kind == kind
  }

  lemma {:induction false} MaterializeExact(
    o: Outbox, selected: seq<EventId>, tasks: map<TaskId, Subscription>, maximum: nat, now: Time, e: EventId)
    requires Inv(o) && AllMaterializable(o, selected) && 1 <= maximum <= 20 && e in selected
    ensures e in o.events
    ensures var n := MaterializeAll(o, selected, tasks, maximum, now);
      forall kind :: Delivers(n, e, kind) <==> Mapped(o.events[e], tasks) == Some(kind)
    decreases |selected|
  {
    RestMaterializable(o, selected, tasks, maximum, now);
    var m := MaterializeOne(o, selected[0], tasks, maximum, now);
    var n := MaterializeAll(o, selected, tasks, maximum, now);
    MaterializeKeeps(m, selected[1..], tasks, maximum, now);
    if e == selected[0] {
      assert e !in selected[1..];
      ExactHead(o, e, tasks, maximum, now);
      ExactRest(m, n, selected[1..], e);
    } else {
      assert e in selected[1..];
      MaterializeExact(m, selected[1..], tasks, maximum, now, e);
      MaterializedOne(o, selected[0], tasks, maximum, now);
    }
  }

  lemma ExactHead(o: Outbox, e: EventId, tasks: map<TaskId, Subscription>, maximum: nat, now: Time)
    requires Inv(o) && Materializable(o, e)
    ensures var m := MaterializeOne(o, e, tasks, maximum, now);
      forall kind :: Delivers(m, e, kind) <==> Mapped(o.events[e], tasks) == Some(kind)
  {
    var m := MaterializeOne(o, e, tasks, maximum, now);
    var kind := Mapped(o.events[e], tasks);
    if kind.Some? {
      assert m.deliveries[o.nextDelivery].event == e && m.deliveries[o.nextDelivery].kind == kind.value;
    }
  }

  lemma ExactRest(m: Outbox, n: Outbox, rest: seq<EventId>, e: EventId)
    requires Materialized(m, n, rest) && e !in rest
    ensures forall kind :: Delivers(n, e, kind) <==> Delivers(m, e, kind)
  {
  }

  // ---------- the failure callback ----------

  /** The event reports that a task failed, and the task is subscribed to that callback. */
  ghost predicate FailureEvent(o: Outbox, e: EventId, tasks: map<TaskId, Subscription>) {
    && e in o.events && o.events[e].kind == StatusChanged(TaskStatus.Failed)
    && o.events[e].task.Some? && o.events[e].task.value in tasks
    && tasks[o.events[e].task.value].events.Some? && FailedCallback in tasks[o.events[e].task.value].events.value
  }

  /** The event has been handled and has no delivery. */
  ghost predicate Undelivered(o: Outbox, e: EventId) {
    && e < o.nextEvent && (e in o.events ==> o.events[e].processed)
    && (forall d :: d in o.deliveries ==> o.deliveries[d].event != e)
  }

  /** Materialising delivers a failure exactly while the task still stands failed; either way the event is done with. */
  lemma FailureDeliveredIff(
    o: Outbox, selected: seq<EventId>, tasks: map<TaskId, Subscription>, maximum: nat, now: Time, e: EventId,
    clock: Time)
    requires Inv(o) && AllMaterializable(o, selected) && 1 <= maximum <= 20
    requires e in selected && FailureEvent(o, e, tasks)
    requires TaskInvariant.TaskInv(tasks[o.events[e].task.value].task, clock)
    ensures var n := MaterializeAll(o, selected, tasks, maximum, now);
      var failed := tasks[o.events[e].task.value].task.status.Failed?;
      && (Delivers(n, e, FailedCallback) <==> failed)
      && (Undelivered(n, e) <==> !failed)
      && !Materializable(n, e)
  {
    MaterializeExact(o, selected, tasks, maximum, now, e);
    MaterializeKeeps(o, selected, tasks, maximum, now);
    var n := MaterializeAll(o, selected, tasks, maximum, now);
    FailureKind(tasks[o.events[e].task.value].task, clock);
    assert e < n.nextEvent;
    hide Inv, MaterializeAll;
    if !Undelivered(n, e) {
      var d :| d in n.deliveries && n.deliveries[d].event == e;
      assert Delivers(n, e, n.deliveries[d].kind);
    }
  }

  lemma FailureKind(t: Task, clock: Time)
    requires TaskInvariant.TaskInv(t, clock)
    ensures KindOf(StatusChanged(TaskStatus.Failed), t) == if t.status.Failed? then Some(FailedCallback) else None
  {
  }

  lemma UndeliveredStep(c: Settings, o: Outbox, a: Act, e: EventId)
    requires Inv(o) && Possible(c, o, a) && Undelivered(o, e)
    ensures Undelivered(Step(c, o, a), e)
  {
    match a
    case Materialize(selected, tasks, maximum, now) =>
      assert e !in selected;
      MaterializeKeeps(o, selected, tasks, maximum, now);
      MaterializeNext(o, selected, tasks, maximum, now);
    case _ =>
  }

  lemma {:induction false} MaterializeNext(
    o: Outbox, selected: seq<EventId>, tasks: map<TaskId, Subscription>, maximum: nat, now: Time)
    ensures var n := MaterializeAll(o, selected, tasks, maximum, now);
      o.nextEvent <= n.nextEvent && forall e :: e in n.events && e !in o.events ==> o.nextEvent <= e
    decreases |selected|
  {
    if selected != [] && selected[0] in o.events {
      MaterializeNext(MaterializeOne(o, selected[0], tasks, maximum, now), selected[1..], tasks, maximum, now);
    }
  }

  /** An event that was handled without a delivery never gets one. */
  lemma {:induction false} UndeliveredForever(c: Settings, o: Outbox, acts: seq<Act>, i: nat, j: nat, e: EventId)
    requires Inv(o) && Feasible(c, o, acts) && i <= j <= |acts| && Undelivered(Run(c, o, acts[..i]), e)
    ensures Undelivered(Run(c, o, acts[..j]), e)
    decreases j
  {
    hide Inv, Run, Possible, Feasible, Step, Undelivered;
    if i < j {
      UndeliveredForever(c, o, acts, i, j - 1, e);
      Midway(c, o, acts, j - 1);
      UndeliveredStep(c, Run(c, o, acts[..j - 1]), acts[j - 1], e);
    }
  }

  /**
   A failure event materialised after its task has left the failed state, which a manual
   retry makes it do, has no delivery at any later point of the run.
   */
  lemma FailureLostForever(c: Settings, o: Outbox, acts: seq<Act>, i: nat, j: nat, e: EventId, clock: Time)
    requires Inv(o) && Feasible(c, o, acts) && i < j <= |acts| && acts[i].Materialize? && e in acts[i].selected
    requires FailureEvent(Run(c, o, acts[..i]), e, acts[i].tasks)
    requires var t := acts[i].tasks[Run(c, o, acts[..i]).events[e].task.value].task;
      TaskInvariant.TaskInv(t, clock) && !t.status.Failed?
    ensures Undelivered(Run(c, o, acts[..j]), e)
  {
    hide Inv, Run, Feasible, FailureEvent, Undelivered;
    var m, a := Run(c, o, acts[..i]), acts[i];
    Midway(c, o, acts, i);
    FailureDeliveredIff(m, a.selected, a.tasks, a.maximum, a.now, e, clock);
    UndeliveredForever(c, o, acts, i + 1, j, e);
  }

  /** The same event of the same task: delivered if materialised before the manual retry, lost if after. */
  lemma RetryLosesFailure(
    o: Outbox, selected: seq<EventId>, before: map<TaskId, Subscription>, maximum: nat, now: Time, e: EventId,
    clock: Time, retriedAt: Time)
    requires Inv(o) && AllMaterializable(o, selected) && 1 <= maximum <= 20
    requires e in selected && FailureEvent(o, e, before)
    requires clock <= retriedAt
    requires var t := before[o.events[e].task.value].task; TaskInvariant.TaskInv(t, clock) && t.status.Failed?
    ensures Delivers(MaterializeAll(o, selected, before, maximum, now), e, FailedCallback)
    ensures var id := o.events[e].task.value;
      var u := Lifecycle.RetryTask(before[id].task, retriedAt);
      && u.Success?
      && Undelivered(MaterializeAll(o, selected, before[id := before[id].(task := u.value)], maximum, now), e)
  {
    var id := o.events[e].task.value;
    TaskInvariant.RetryKeeps(before[id].task, clock, retriedAt);
    var u := Lifecycle.RetryTask(before[id].task, retriedAt).value;
    var after := before[id := before[id].(task := u)];
    RetriedStatus(before[id].task, retriedAt);
    hide Inv, MaterializeAll, TaskInvariant.TaskInv, Undelivered, Delivers, Lifecycle.RetryTask;
    FailureDeliveredIff(o, selected, before, maximum, now, e, clock);
    FailureDeliveredIff(o, selected, after, maximum, now, e, retriedAt);
  }

  lemma RetriedStatus(t: Task, now: Time)
    ensures var u := Lifecycle.RetryTask(t, now); u.Success? ==> u.value.status.Pending?
  {
  }
}

/** The election, the admission gates and the lease loop agree: a ready stage that some worker can run is handed out. */
module Liveness {
  import opened Common
  import opened Records
  import opened Selection
  import opened Lifecycle
  import opened TaskInvariant
  import opened Protocol
  import opened SystemInvariant
  import opened Effects
  import opened Capacity

  function JobAt(s: Store, r: StageRef): Job
    requires HasStage(s, r)
  {
    JobOf(s.tasks[r.task], StageAt(s, r))
  }

  /** Some worker could run the stage now. */
  ghost predicate Wanted(s: Store, r: StageRef)
    requires HasStage(s, r)
  {
    exists w :: Eligible(MarketOf(s), w, JobAt(s, r))
  }

  lemma OfferIffPreferred(s: Store, w: WorkerId, r: StageRef)
    requires 0.0 < s.config.memoryCap && w in s.workers && Grantable(s, r)
    ensures Offer(s, w, r).Some? <==> Preferred(MarketOf(s), w, JobAt(s, r))
  {
    hide Preferred, SelectBackend, SelectDevice, AvailableRuntimes, HeldBy;
    var m, job := MarketOf(s), JobAt(s, r);
    if Preferred(m, w, job) {
      ElectedPassesGates(m, w, job, DeviceCounts(s, w));
    }
  }

  /** Exactly one worker is offered a ready stage, as soon as any worker is eligible for it. */
  lemma OfferUnique(s: Store, r: StageRef) returns (w: WorkerId)
    requires 0.0 < s.config.memoryCap && Grantable(s, r) && Wanted(s, r)
    ensures w in s.workers && Offer(s, w, r).Some?
    ensures forall v :: v in s.workers && Offer(s, v, r).Some? ==> v == w
    ensures s.workers[w].AcceptsLeases() && |HeldBy(s, w)| < s.workers[w].maximumConcurrency
  {
    hide Offer, SelectBackend, AvailableRuntimes, HeldBy, DependenciesDone;
    var m, job := MarketOf(s), JobAt(s, r);
    w := ElectionUnique(m, job);
    ElectedPassesGates(m, w, job, DeviceCounts(s, w));
    hide Preferred;
    OfferIffPreferred(s, w, r);
    forall v | v in s.workers && Offer(s, v, r).Some? ensures v == w {
      OfferIffPreferred(s, v, r);
    }
  }

  lemma SameMarket(s: Store, n: Store)
    requires n.tasks == s.tasks && n.workers == s.workers && n.backends == s.backends && n.config == s.config
    ensures MarketOf(n) == MarketOf(s)
  {
    forall w ensures HeldBy(n, w) == HeldBy(s, w) {
      SameHeld(s, n, w);
    }
  }

  // ---------- what a grant does to later offers ----------

  lemma GrantMarket(s: Store, n: Store, w: WorkerId, r: StageRef, p: Placement, now: Time)
    requires GrantEffect(s, n, w, r, p, now) && w in s.workers
    ensures Busier(MarketOf(s), MarketOf(n), w)
  {
    hide HeldBy, GrantEffect;
    GrantCounts(s, n, w, r, p, now);
    GrantTables(s, n, w, r, p, now);
  }

  lemma GrantTables(s: Store, n: Store, w: WorkerId, r: StageRef, p: Placement, now: Time)
    requires GrantEffect(s, n, w, r, p, now)
    ensures n.workers == s.workers && n.backends == s.backends && n.config == s.config
  {
  }

  lemma GrantJob(s: Store, n: Store, w: WorkerId, r: StageRef, p: Placement, now: Time, q: StageRef)
    requires GrantEffect(s, n, w, r, p, now) && HasStage(s, q)
    ensures HasStage(n, q) && JobAt(n, q) == JobAt(s, q)
    ensures DependenciesDone(n.tasks[q.task].stages, q.position)
       <==> DependenciesDone(s.tasks[q.task].stages, q.position)
  {
    if q.task == r.task {
      var a, b := s.tasks[q.task].stages, n.tasks[q.task].stages;
      assert forall j :: 0 <= j < |a| ==> a[j].spec == b[j].spec && (b[j].status.Done() <==> a[j].status.Done());
      SameDependencies(a, b, q.position);
    }
  }

  lemma SameDependencies(a: seq<Stage>, b: seq<Stage>, k: nat)
    requires |a| == |b| && k < |a|
    requires forall j :: 0 <= j < |a| ==> a[j].spec == b[j].spec && (b[j].status.Done() <==> a[j].status.Done())
    ensures DependenciesDone(a, k) <==> DependenciesDone(b, k)
  {
    DependenciesCarry(a, b, k);
    DependenciesCarry(b, a, k);
  }

  lemma DependenciesCarry(a: seq<Stage>, b: seq<Stage>, k: nat)
    requires |a| == |b| && k < |a|
    requires forall j :: 0 <= j < |a| ==> a[j].spec == b[j].spec && (a[j].status.Done() ==> b[j].status.Done())
    ensures DependenciesDone(a, k) ==> DependenciesDone(b, k)
  {
    assert SameSpecs(a, b) && DonePersists(a, b);
    if DependenciesDone(a, k) {
      DependenciesPersist(a, b, k);
    }
  }

  /** Reservations decide which device is selected, not whether one is. */
  lemma DeviceWhatever(w: Worker, runtime: Runtime, floor: Option<nat>, cap: real, a: Reservations, b: Reservations)
    ensures SelectDevice(w, runtime, floor, cap, a).Some? <==> SelectDevice(w, runtime, floor, cap, b).Some?
  {
    DeviceSelected(w, runtime, floor, cap, a);
    DeviceSelected(w, runtime, floor, cap, b);
  }

  /** A stage that is offered after a grant was offered before it. */
  lemma OfferBack(s: Store, n: Store, w: WorkerId, r: StageRef, p: Placement, now: Time, q: StageRef)
    requires GrantEffect(s, n, w, r, p, now) && w in s.workers && HasStage(s, q)
    ensures HasStage(n, q) && w in n.workers
    ensures Offer(n, w, q).Some? ==> Offer(s, w, q).Some?
  {
    GrantMarket(s, n, w, r, p, now);
    GrantTables(s, n, w, r, p, now);
    GrantJob(s, n, w, r, p, now, q);
    hide GrantEffect, HeldBy, DeviceCounts, Preferred, SelectBackend, SelectDevice, AvailableRuntimes, MarketOf;
    if Offer(n, w, q).Some? {
      var worker, job, cap := s.workers[w], JobAt(s, q), s.config.memoryCap;
      LoserStaysLoser(MarketOf(s), MarketOf(n), w, job);
      var choice := SelectBackend(s.backends, job, worker.capabilities, AvailableRuntimes(worker, job.floor, cap));
      DeviceWhatever(worker, choice.value.runtime, job.floor, cap, DeviceCounts(s, w), DeviceCounts(n, w));
    }
  }

  // ---------- lease completeness ----------

  ghost predicate Handed(leases: seq<Lease>, q: StageRef) {
    exists l :: l in leases && l.stage == q
  }

  /** The worker is still offered the stage. */
  ghost predicate Offered(s: Store, w: WorkerId, q: StageRef) {
    w in s.workers && HasStage(s, q) && Offer(s, w, q).Some?
  }

  lemma {:induction false} LoopOffersBack(
    g: Granting, w: WorkerId, pending: seq<StageRef>, slots: nat, now: Time, q: StageRef)
    requires Inv(g.store) && g.store.clock <= now && Leasable(g.store, pending, now) && HasStage(g.store, q)
    ensures var r := LeaseLoop(g, w, pending, slots, now);
      r.Success? && HasStage(r.value.store, q) && (Offered(r.value.store, w, q) ==> Offered(g.store, w, q))
    decreases |pending|
  {
    hide Inv, Offer, Grant, GrantEffect, Leasable;
    if pending != [] && |g.leases| < slots && w in g.store.workers && HasStage(g.store, pending[0]) {
      var p := Offer(g.store, w, pending[0]);
      if p.Some? {
        var n := LeaseTurn(g, w, pending, p.value, now);
        OfferBack(g.store, n.store, w, pending[0], p.value, now, q);
        LoopOffersBack(n, w, pending[1..], slots, now, q);
      } else {
        LeasableTail(g.store, pending, now);
        LoopOffersBack(g, w, pending[1..], slots, now, q);
      }
    }
  }

  ghost predicate Exhausts(r: Granting, w: WorkerId, pending: seq<StageRef>, slots: nat) {
    |r.leases| < slots ==> forall q :: q in pending ==> Handed(r.leases, q) || !Offered(r.store, w, q)
  }

  lemma LeasableHas(s: Store, pending: seq<StageRef>, now: Time)
    requires Leasable(s, pending, now)
    ensures forall q :: q in pending ==> HasStage(s, q)
  {
  }

  lemma {:induction false} LoopComplete(g: Granting, w: WorkerId, pending: seq<StageRef>, slots: nat, now: Time)
    requires Inv(g.store) && g.store.clock <= now && Leasable(g.store, pending, now)
    ensures var r := LeaseLoop(g, w, pending, slots, now);
      r.Success? && g.leases <= r.value.leases && Exhausts(r.value, w, pending, slots)
    decreases |pending|
  {
    hide Inv, Offer, Grant, GrantEffect, Leasable;
    LeasableHas(g.store, pending, now);
    if pending != [] && |g.leases| < slots && w in g.store.workers {
      var head := pending[0];
      assert head in pending;
      var p := Offer(g.store, w, head);
      var next := g;
      if p.Some? {
        next := LeaseTurn(g, w, pending, p.value, now);
        assert next.leases[|g.leases|] in next.leases;
      } else {
        LeasableTail(g.store, pending, now);
      }
      LoopComplete(next, w, pending[1..], slots, now);
      var r := LeaseLoop(next, w, pending[1..], slots, now).value;
      if p.Some? {
        HandedKept(next.leases, r.leases, head);
      } else {
        LoopOffersBack(g, w, pending[1..], slots, now, head);
      }
      forall q | q in pending && |r.leases| < slots ensures Handed(r.leases, q) || !Offered(r.store, w, q) {
        assert q == head || q in pending[1..];
      }
    } else if w !in g.store.workers {
      UnknownWorker(g, w, pending, slots, now);
    }
  }

  lemma UnknownWorker(g: Granting, w: WorkerId, pending: seq<StageRef>, slots: nat, now: Time)
    requires w !in g.store.workers
    ensures LeaseLoop(g, w, pending, slots, now) == Success(g)
  {
  }

  lemma HandedKept(a: seq<Lease>, b: seq<Lease>, q: StageRef)
    requires a <= b && Handed(a, q)
    ensures Handed(b, q)
  {
    var l :| l in a && l.stage == q;
    var k :| 0 <= k < |a| && a[k] == l;
    assert b[k] == l;
  }

  /** After this many leases the call could have handed out one more: asked for, and within the limit. */
  ghost predicate SlotsLeft(s: Store, w: WorkerId, requested: nat, taken: nat) {
    w in s.workers && taken < requested && |HeldBy(s, w)| + taken < s.workers[w].maximumConcurrency
  }

  /**
   Lease completeness: a call that returns with slots left leaves no row of its queue that
   is still offered to the worker.
   */
  lemma LeaseComplete(s: Store, w: WorkerId, requested: nat, pending: seq<StageRef>, now: Time)
    requires Inv(s) && s.clock <= now && Leasable(s, pending, now) && w in s.workers && s.workers[w].AcceptsLeases()
    ensures var done := StepLease(s, w, requested, pending, now);
      && done.reply.Leases?
      && (SlotsLeft(s, w, requested, |done.reply.leases|) ==>
            forall q :: q in pending ==> Handed(done.reply.leases, q) || !Offered(done.store, w, q))
  {
    hide Inv, LeaseLoop, Leasable, HeldBy, Offer;
    TickKeeps(s, now);
    TickLeasable(s, pending, now);
    var done := StepLease(s, w, requested, pending, now);
    if done.reply.Leases? {
      FreeSlotsMeans(s, w, requested, |done.reply.leases|);
    }
    var slots := FreeSlots(s, w, requested);
    if slots > 0 {
      LoopComplete(Granting(Tick(s, now), []), w, pending, slots, now);
    }
  }

  // ---------- progress ----------

  /** The stage asks for the same, and the tables that answer are the same. */
  ghost predicate SameTerms(s: Store, n: Store, q: StageRef) {
    && HasStage(s, q) && HasStage(n, q) && JobAt(n, q) == JobAt(s, q)
    && n.workers == s.workers && n.backends == s.backends && n.config == s.config
  }

  lemma GrantStays(s: Store, n: Store, w: WorkerId, r: StageRef, p: Placement, now: Time, q: StageRef)
    requires GrantEffect(s, n, w, r, p, now) && HasStage(s, q)
    ensures SameTerms(s, n, q)
    ensures q != r && Grantable(s, q) ==> Grantable(n, q)
  {
    GrantTables(s, n, w, r, p, now);
    GrantJob(s, n, w, r, p, now, q);
    GrantHolds(s, n, w, r, p, now, q, w);
  }

  lemma {:induction false} LoopStays(
    g: Granting, w: WorkerId, pending: seq<StageRef>, slots: nat, now: Time, q: StageRef)
    requires Inv(g.store) && g.store.clock <= now && Leasable(g.store, pending, now) && HasStage(g.store, q)
    ensures var r := LeaseLoop(g, w, pending, slots, now);
      && r.Success? && SameTerms(g.store, r.value.store, q)
      && (Grantable(g.store, q) ==> Grantable(r.value.store, q) || Handed(r.value.leases, q))
      && (|r.value.leases| == |g.leases| ==> r.value == g)
    decreases |pending|
  {
    hide Inv, Offer, Grant, GrantEffect, Leasable, Grantable;
    if pending != [] && |g.leases| < slots && w in g.store.workers && HasStage(g.store, pending[0]) {
      var p := Offer(g.store, w, pending[0]);
      if p.Some? {
        var n := LeaseTurn(g, w, pending, p.value, now);
        GrantStays(g.store, n.store, w, pending[0], p.value, now, q);
        LoopStays(n, w, pending[1..], slots, now, q);
        LoopComplete(n, w, pending[1..], slots, now);
        if q == pending[0] {
          assert n.leases[|g.leases|] in n.leases;
          HandedKept(n.leases, LeaseLoop(n, w, pending[1..], slots, now).value.leases, q);
        }
      } else {
        LeasableTail(g.store, pending, now);
        LoopStays(g, w, pending[1..], slots, now, q);
      }
    }
  }

  /** With slots to spare the worker stays in the running for the stages it did not get. */
  lemma StillWanted(s: Store, n: Store, w: WorkerId, q: StageRef)
    requires SameTerms(s, n, q) && Eligible(MarketOf(s), w, JobAt(s, q))
    requires w in n.workers && |HeldBy(n, w)| < n.workers[w].maximumConcurrency
    ensures Wanted(n, q)
  {
    hide HeldBy, SelectBackend, AvailableRuntimes, LabelsMatch, Score;
    assert Eligible(MarketOf(n), w, JobAt(n, q));
  }

  lemma LeaseStays(s: Store, w: WorkerId, requested: nat, pending: seq<StageRef>, now: Time, q: StageRef)
    requires Inv(s) && s.clock <= now && Leasable(s, pending, now) && w in s.workers && s.workers[w].AcceptsLeases()
    requires Grantable(s, q)
    ensures var done := StepLease(s, w, requested, pending, now);
      && done.reply.Leases?
      && (|done.reply.leases| < FreeSlots(s, w, requested) ==>
            SameTerms(s, done.store, q) && (Grantable(done.store, q) || Handed(done.reply.leases, q)))
      && (done.reply.leases == [] ==> done.store.tasks == s.tasks)
  {
    hide Inv, LeaseLoop, Leasable, HeldBy, Offer, DependenciesDone;
    TickKeeps(s, now);
    TickLeasable(s, pending, now);
    var slots := FreeSlots(s, w, requested);
    if slots > 0 {
      LoopStays(Granting(Tick(s, now), []), w, pending, slots, now, q);
    }
  }

  /** The call hands the stage out, or uses up its slots, or leaves the stage to a worker that is now ahead. */
  ghost predicate Served(s: Store, w: WorkerId, requested: nat, pending: seq<StageRef>, now: Time, r: StageRef) {
    w in s.workers &&
    var done := StepLease(s, w, requested, pending, now);
    && done.reply.Leases? && done.reply.leases != []
    && (|| Handed(done.reply.leases, r)
        || !SlotsLeft(s, w, requested, |done.reply.leases|)
        || exists v :: v != w && Offered(done.store, v, r))
  }

  /** Whatever else is in its queue, a poll of the elected worker serves the stage it is elected for. */
  lemma OfferedIsServed(s: Store, w: WorkerId, requested: nat, pending: seq<StageRef>, now: Time, r: StageRef)
    requires Inv(s) && s.clock <= now && Leasable(s, pending, now) && 1 <= requested
    requires r in pending && Grantable(s, r) && Offered(s, w, r)
    ensures Served(s, w, requested, pending, now, r)
  {
    hide Inv, Leasable, HeldBy, Offer, StepLease, Preferred, LabelsMatch, SelectBackend, AvailableRuntimes, Rank;
    CapPositive(s);
    OfferIffPreferred(s, w, r);
    PreferredRuns(MarketOf(s), w, JobAt(s, r));
    var done := StepLease(s, w, requested, pending, now);
    LeaseComplete(s, w, requested, pending, now);
    LeaseStays(s, w, requested, pending, now, r);
    FreeSlotsMeans(s, w, requested, |done.reply.leases|);
    LeaseHolds(s, w, requested, pending, now);
    LeaseStepKeeps(s, w, requested, pending, now);
    if done.reply.leases == [] {
      SomethingHandedOut(s, w, requested, pending, now, r);
    }
    if SlotsLeft(s, w, requested, |done.reply.leases|) && !Handed(done.reply.leases, r) {
      StillWanted(s, done.store, w, r);
      CapPositive(done.store);
      var v := OfferUnique(done.store, r);
      assert v != w && Offered(done.store, v, r);
    }
  }

  lemma CapPositive(s: Store)
    requires Inv(s)
    ensures 0.0 < s.config.memoryCap
  {
  }

  lemma PreferredRuns(m: Market, w: WorkerId, job: Job)
    requires Preferred(m, w, job)
    ensures Eligible(m, w, job) && m.workers[w].AcceptsLeases() && m.Active(w) < m.workers[w].maximumConcurrency
  {
  }

  lemma SomethingHandedOut(s: Store, w: WorkerId, requested: nat, pending: seq<StageRef>, now: Time, r: StageRef)
    requires Inv(s) && s.clock <= now && Leasable(s, pending, now) && 1 <= requested
    requires r in pending && Grantable(s, r) && Offered(s, w, r) && s.workers[w].AcceptsLeases()
    requires |HeldBy(s, w)| < s.workers[w].maximumConcurrency
    ensures StepLease(s, w, requested, pending, now).reply.Leases?
    ensures StepLease(s, w, requested, pending, now).reply.leases != []
  {
    hide Inv, Leasable, HeldBy, Offer, StepLease, DependenciesDone;
    var done := StepLease(s, w, requested, pending, now);
    LeaseComplete(s, w, requested, pending, now);
    LeaseStays(s, w, requested, pending, now, r);
    if done.reply.leases == [] {
      SameTasksOffer(s, done.store, w, r);
    }
  }

  lemma SameTasksOffer(s: Store, n: Store, w: WorkerId, r: StageRef)
    requires w in s.workers && HasStage(s, r) && n.tasks == s.tasks
    requires n.workers == s.workers && n.backends == s.backends && n.config == s.config
    ensures Offer(n, w, r) == Offer(s, w, r)
  {
    hide MarketOf, DeviceCounts, Preferred, SelectBackend, SelectDevice, AvailableRuntimes;
    SameMarket(s, n);
    SameCounts(s, n, w);
  }

  /** Every poll of this worker that lists the stage serves it. */
  ghost predicate ElectedServes(s: Store, w: WorkerId, r: StageRef) {
    forall requested: nat, pending, now ::
      s.clock <= now && Leasable(s, pending, now) && r in pending && 1 <= requested ==>
        Served(s, w, requested, pending, now, r)
  }

  lemma ElectedServesIt(s: Store, r: StageRef) returns (w: WorkerId)
    requires Inv(s) && Grantable(s, r) && Wanted(s, r)
    ensures w in s.workers && ElectedServes(s, w, r)
  {
    CapPositive(s);
    w := OfferUnique(s, r);
    hide Inv, Offer, HeldBy, Leasable, Grantable, Served;
    assert Offered(s, w, r);
    forall requested: nat, pending, now | s.clock <= now && Leasable(s, pending, now) && r in pending && 1 <= requested
      ensures Served(s, w, requested, pending, now, r)
    {
      OfferedIsServed(s, w, requested, pending, now, r);
    }
  }

  /**
   Progress is always possible: an unfinished routed task has a held stage, or a ready one;
   and if any worker is eligible for the ready one, every poll of the elected worker that
   lists it, once its backoff is over, serves it.
   */
  lemma CanProgress(s: Store, id: TaskId) returns (r: StageRef, w: WorkerId)
    requires Inv(s) && id in s.tasks && s.tasks[id].stages != [] && !s.tasks[id].status.Terminal()
    ensures r.task == id && HasStage(s, r)
    ensures StageAt(s, r).status.Active() || Grantable(s, r)
    ensures !StageAt(s, r).status.Active() && Wanted(s, r) ==> ElectedServes(s, w, r)
  {
    TaskHolds(s, id);
    NeverStuck(s.tasks[id], s.clock);
    hide Inv, TaskInv, Wanted, ElectedServes;
    var stages := s.tasks[id].stages;
    var i :| 0 <= i < |stages| &&
      (stages[i].status.Active() || (stages[i].status.Pending? && DependenciesDone(stages, i)));
    r, w := StageRef(id, i), 0;
    if !StageAt(s, r).status.Active() && Wanted(s, r) {
      w := ElectedServesIt(s, r);
    }
  }
}

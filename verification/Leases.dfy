/** What a lease that was handed out is worth: it describes its row, it was admitted, and its token works. */
module Leases {
  import opened Common
  import opened Records
  import opened Selection
  import opened Lifecycle
  import opened Movement
  import opened Protocol
  import opened SystemInvariant
  import opened Effects
  import opened Capacity
  import opened Liveness

  /** The lease in the reply and the stage row say the same. */
  ghost predicate Describes(s: Store, l: Lease, w: WorkerId) {
    && HasStage(s, l.stage) && StageAt(s, l.stage).status.Leased?
    && StageAt(s, l.stage).worker == Some(w) && StageAt(s, l.stage).token == Some(LeaseDigest(l.token))
    && StageAt(s, l.stage).backend == Some(l.placement.backend)
    && StageAt(s, l.stage).runtime == Some(l.placement.runtime)
    && StageAt(s, l.stage).device == Some(l.placement.device)
    && StageAt(s, l.stage).attempt == l.attempt && StageAt(s, l.stage).expiresAt == Some(l.expiresAt)
  }

  ghost predicate DeviceFor(w: Worker, p: Placement, floor: Option<nat>, cap: real) {
    exists d :: d in w.devices && d.id == p.device && Fits(w, d, p.runtime, floor, cap)
  }

  /** Dependencies done, labels met, a planned backend the worker serves, on a fitting device. */
  ghost predicate Admitted(s: Store, w: WorkerId, r: StageRef, p: Placement) {
    && w in s.workers && HasStage(s, r)
    && var worker, job := s.workers[w], JobAt(s, r);
       && DependenciesDone(s.tasks[r.task].stages, r.position)
       && LabelsMatch(worker, job.labels)
       && p.backend in job.candidates && p.runtime in job.required
       && Serves(s.backends, p.backend, job, worker.capabilities,
            AvailableRuntimes(worker, job.floor, s.config.memoryCap)) == Some(p.runtime)
       && DeviceFor(worker, p, job.floor, s.config.memoryCap)
  }

  lemma OfferAdmitted(s: Store, w: WorkerId, r: StageRef)
    requires w in s.workers && HasStage(s, r) && Offer(s, w, r).Some?
    ensures Admitted(s, w, r, Offer(s, w, r).value)
  {
    hide Preferred, AvailableRuntimes, HeldBy, DeviceCounts, Serves;
    var worker, job, cap := s.workers[w], JobAt(s, r), s.config.memoryCap;
    var runtimes := AvailableRuntimes(worker, job.floor, cap);
    SelectFromFirst(s.backends, job.candidates, job, worker.capabilities, runtimes);
    SelectedRuntime(s.backends, job, worker.capabilities, runtimes);
    var choice := SelectBackend(s.backends, job, worker.capabilities, runtimes).value;
    var k :| FirstServing(s.backends, job.candidates, k, job, worker.capabilities, runtimes, choice);
    hide SelectBackend, SelectFrom, FirstServing, SelectDevice;
    DeviceSelected(worker, choice.runtime, job.floor, cap, DeviceCounts(s, w));
  }

  /** A grant changes nothing that another admission depends on. */
  lemma AdmittedBack(
    s: Store, n: Store, w: WorkerId, r: StageRef, p: Placement, now: Time, q: StageRef, other: Placement)
    requires GrantEffect(s, n, w, r, p, now) && Admitted(n, w, q, other)
    ensures Admitted(s, w, q, other)
  {
    hide LabelsMatch, Serves, AvailableRuntimes, DeviceFor, DependenciesDone;
    assert JobAt(s, q) == JobAt(n, q);
    if q.task == r.task {
      GrantedBack(s.tasks[q.task].stages, n.tasks[q.task].stages, r.position, Token(s.issued), q.position);
    }
  }

  lemma GrantedBack(a: seq<Stage>, b: seq<Stage>, i: nat, token: Token, k: nat)
    requires OneHanded(a, b, i, token) && k < |a| && DependenciesDone(b, k)
    ensures DependenciesDone(a, k)
  {
    assert forall j :: 0 <= j < |a| ==> a[j].spec == b[j].spec && (b[j].status.Done() ==> a[j].status.Done());
    forall d | d in a[k].spec.dependsOn
      ensures exists j :: 0 <= j < |a| && a[j].spec.name == d && a[j].status.Done()
    {
      var j :| 0 <= j < |b| && b[j].spec.name == d && b[j].status.Done();
      assert a[j].spec.name == d && a[j].status.Done();
    }
  }

  lemma GrantDescribes(g: Granting, w: WorkerId, r: StageRef, p: Placement, now: Time)
    requires HasStage(g.store, r) && Grant(g, w, r, p, now).Success?
    ensures var n := Grant(g, w, r, p, now).value;
      && |n.leases| == |g.leases| + 1 && n.leases == g.leases + [n.leases[|g.leases|]]
      && Describes(n.store, n.leases[|g.leases|], w)
      && n.leases[|g.leases|].expiresAt == LeaseExpiry(g.store, now)
  {
  }

  ghost predicate Settles(s: Store, leases: seq<Lease>, w: WorkerId, pending: seq<StageRef>) {
    forall l :: l in leases ==> Describes(s, l, w) && l.stage !in pending
  }

  lemma SettlesTurn(g: Granting, n: Granting, w: WorkerId, pending: seq<StageRef>, p: Placement, now: Time)
    requires pending != [] && Distinct(pending) && Settles(g.store, g.leases, w, pending)
    requires HasStage(g.store, pending[0]) && Grant(g, w, pending[0], p, now) == Success(n)
    requires GrantEffect(g.store, n.store, w, pending[0], p, now) && n.leases[|g.leases|].stage == pending[0]
    ensures Settles(n.store, n.leases, w, pending[1..])
  {
    GrantDescribes(g, w, pending[0], p, now);
    hide Grant;
    assert pending[0] !in pending[1..];
    forall l | l in n.leases ensures Describes(n.store, l, w) && l.stage !in pending[1..] {
      if l in g.leases {
        assert l.stage != pending[0];
        GrantHolds(g.store, n.store, w, pending[0], p, now, l.stage, w);
      }
    }
  }

  lemma {:induction false} LoopLeases(g: Granting, w: WorkerId, pending: seq<StageRef>, slots: nat, now: Time)
    requires Inv(g.store) && g.store.clock <= now && Leasable(g.store, pending, now)
    requires Settles(g.store, g.leases, w, pending)
    ensures var r := LeaseLoop(g, w, pending, slots, now);
      && r.Success? && Settles(r.value.store, r.value.leases, w, [])
      && (forall l :: l in r.value.leases && l !in g.leases ==> l.stage in pending && Terms(g.store, w, l, now))
    decreases |pending|
  {
    hide Inv, Offer, Grant, GrantEffect, Leasable, Describes, Admitted;
    if pending != [] && |g.leases| < slots && w in g.store.workers && HasStage(g.store, pending[0]) {
      var p := Offer(g.store, w, pending[0]);
      LeasableDistinct(g.store, pending, now);
      if p.Some? {
        OfferAdmitted(g.store, w, pending[0]);
        GrantExpiry(g, w, pending[0], p.value, now);
        var n := LeaseTurn(g, w, pending, p.value, now);
        SettlesTurn(g, n, w, pending, p.value, now);
        LoopLeases(n, w, pending[1..], slots, now);
        var r := LeaseLoop(n, w, pending[1..], slots, now).value;
        forall l | l in r.leases && l !in g.leases
          ensures l.stage in pending && Terms(g.store, w, l, now)
        {
          GrantTables(g.store, n.store, w, pending[0], p.value, now);
          if l !in n.leases {
            AdmittedBack(g.store, n.store, w, pending[0], p.value, now, l.stage, l.placement);
          } else {
            assert n.leases == g.leases + [n.leases[|g.leases|]];
          }
        }
      } else {
        LeasableTail(g.store, pending, now);
        assert forall r :: r in pending[1..] ==> r in pending;
        LoopLeases(g, w, pending[1..], slots, now);
      }
    }
  }

  /** Admitted, and good for a full lease period. */
  ghost predicate Terms(s: Store, w: WorkerId, l: Lease, now: Time) {
    Admitted(s, w, l.stage, l.placement) && l.expiresAt == LeaseExpiry(s, now)
  }

  lemma GrantExpiry(g: Granting, w: WorkerId, r: StageRef, p: Placement, now: Time)
    requires HasStage(g.store, r)
    ensures var n := Grant(g, w, r, p, now);
      n.Success? ==> (
        && |n.value.leases| == |g.leases| + 1
        && n.value.leases[|g.leases|].expiresAt == LeaseExpiry(g.store, now))
  {
  }

  lemma LeasableDistinct(s: Store, pending: seq<StageRef>, now: Time)
    requires Leasable(s, pending, now)
    ensures Distinct(pending)
  {
  }

  /** The stage was pending, its backoff over, in a task that has not ended. */
  ghost predicate Ready(s: Store, r: StageRef, now: Time) {
    && HasStage(s, r) && StageAt(s, r).status.Pending? && StageAt(s, r).availableAt <= now
    && (s.tasks[r.task].status.Pending? || s.tasks[r.task].status.Leased? || s.tasks[r.task].status.Running?)
  }

  lemma LeasableReady(s: Store, pending: seq<StageRef>, now: Time, r: StageRef)
    requires Leasable(s, pending, now) && r in pending
    ensures Ready(s, r, now)
  {
  }

  /** Every lease in a reply describes its row as the call leaves it, and was admitted as the call found it. */
  lemma LeasesTrue(s: Store, w: WorkerId, requested: nat, pending: seq<StageRef>, now: Time)
    requires Inv(s) && s.clock <= now && Leasable(s, pending, now)
    ensures var done := StepLease(s, w, requested, pending, now);
      done.reply.Leases? ==> forall l :: l in done.reply.leases ==>
        && l.stage in pending && Ready(s, l.stage, now) && Describes(done.store, l, w) && Terms(s, w, l, now)
  {
    hide Inv, LeaseLoop, Leasable, StepLease, HeldBy, Describes, Admitted, FreeSlots;
    TickKeeps(s, now);
    TickLeasable(s, pending, now);
    LeaseShape(s, w, requested, pending, now);
    if Polls(s, w, requested) {
      var start := Granting(Tick(s, now), []);
      LoopLeases(start, w, pending, FreeSlots(s, w, requested), now);
      var g := LeaseLoop(start, w, pending, FreeSlots(s, w, requested), now).value;
      var done := StepLease(s, w, requested, pending, now);
      forall l | l in done.reply.leases
        ensures l.stage in pending && Ready(s, l.stage, now) && Describes(done.store, l, w) && Terms(s, w, l, now)
      {
        LeasableReady(s, pending, now, l.stage);
        DescribesSame(g.store, done.store, l, w);
        AdmittedSame(s, now, w, l.stage, l.placement);
      }
    }
  }

  lemma DescribesSame(a: Store, b: Store, l: Lease, w: WorkerId)
    requires Describes(a, l, w) && a.tasks == b.tasks
    ensures Describes(b, l, w)
  {
  }

  lemma AdmittedSame(s: Store, now: Time, w: WorkerId, r: StageRef, p: Placement)
    requires Admitted(Tick(s, now), w, r, p)
    ensures Admitted(s, w, r, p)
  {
    hide LabelsMatch, Serves, AvailableRuntimes, DeviceFor, DependenciesDone;
    assert JobAt(Tick(s, now), r) == JobAt(s, r);
  }
}

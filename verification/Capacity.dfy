/**
 How many stages a worker holds: what a lease call adds, what every other action can only
 take away, and how the reservations spread over the devices.
 */
module Capacity {
  import opened Common
  import opened Records
  import opened Selection
  import opened Lifecycle
  import opened Movement
  import opened Protocol
  import opened SystemInvariant
  import opened Effects
  import opened Fencing

  // ---------- one grant ----------

  lemma GrantHolds(s: Store, n: Store, w: WorkerId, r: StageRef, p: Placement, now: Time, q: StageRef, v: WorkerId)
    requires GrantEffect(s, n, w, r, p, now)
    ensures HasStage(n, q) <==> HasStage(s, q)
    ensures Holds(n, q, v) <==> Holds(s, q, v) || (q == r && v == w)
    ensures !Holds(s, r, v)
    ensures HasStage(s, q) && q != r ==> StageAt(n, q) == StageAt(s, q)
  {
  }

  /** The worker holds the granted stage in addition, on the device it was placed on; nobody else is affected. */
  lemma GrantCounts(s: Store, n: Store, w: WorkerId, r: StageRef, p: Placement, now: Time)
    requires GrantEffect(s, n, w, r, p, now)
    ensures r !in HeldBy(s, w) && HeldBy(n, w) == HeldBy(s, w) + {r}
    ensures forall v :: v != w ==> HeldBy(n, v) == HeldBy(s, v)
    ensures r !in HeldOn(s, w, p.device) && HeldOn(n, w, p.device) == HeldOn(s, w, p.device) + {r}
    ensures forall d :: d != p.device ==> HeldOn(n, w, d) == HeldOn(s, w, d)
  {
    hide GrantEffect, Holds;
    GrantDevice(s, n, w, r, p, now);
    forall q, v
      ensures q in HeldBy(n, v) <==> q in HeldBy(s, v) || (q == r && v == w)
      ensures r !in HeldBy(s, v)
    {
      GrantHolds(s, n, w, r, p, now, q, v);
    }
    forall q, d
      ensures q in HeldOn(n, w, d) <==> q in HeldOn(s, w, d) || (q == r && d == p.device)
      ensures r !in HeldOn(s, w, d)
    {
      GrantHolds(s, n, w, r, p, now, q, w);
    }
  }

  lemma GrantDevice(s: Store, n: Store, w: WorkerId, r: StageRef, p: Placement, now: Time)
    requires GrantEffect(s, n, w, r, p, now)
    ensures HasStage(n, r) && StageAt(n, r).device == Some(p.device)
  {
  }

  // ---------- the device dictionary ----------

  /** The grouped query counts the stages held on each device. */
  lemma CountsExact(s: Store, w: WorkerId, d: DeviceId)
    ensures Reserved(DeviceCounts(s, w), d) == |HeldOn(s, w, d)|
  {
    assert forall r :: r in HeldOn(s, w, d) ==> r in HeldBy(s, w) && d in DevicesInUse(s, w);
    if d !in DevicesInUse(s, w) {
      assert HeldOn(s, w, d) == {};
    }
  }

  /** Incrementing the dictionary entry keeps it equal to the true counts. */
  lemma CountsFollow(s: Store, n: Store, w: WorkerId, r: StageRef, p: Placement, now: Time, d: DeviceId)
    requires GrantEffect(s, n, w, r, p, now)
    ensures Reserved(DeviceCounts(n, w), d) == Reserved(Reserve(DeviceCounts(s, w), p.device), d)
  {
    hide GrantEffect, HeldOn, DeviceCounts;
    GrantCounts(s, n, w, r, p, now);
    CountsExact(s, w, d);
    CountsExact(n, w, d);
    CountsExact(s, w, p.device);
  }

  // ---------- the lease loop ----------

  lemma GrantCardinals(s: Store, n: Store, w: WorkerId, r: StageRef, p: Placement, now: Time)
    requires GrantEffect(s, n, w, r, p, now)
    ensures |HeldBy(n, w)| == |HeldBy(s, w)| + 1
    ensures forall v :: v != w ==> HeldBy(n, v) == HeldBy(s, v)
  {
    hide HeldBy, GrantEffect;
    GrantCounts(s, n, w, r, p, now);
  }

  lemma {:induction false} LeaseLoopHolds(g: Granting, w: WorkerId, pending: seq<StageRef>, slots: nat, now: Time)
    requires Inv(g.store) && g.store.clock <= now && Leasable(g.store, pending, now)
    ensures var r := LeaseLoop(g, w, pending, slots, now);
      && r.Success?
      && |HeldBy(r.value.store, w)| - |HeldBy(g.store, w)| == |r.value.leases| - |g.leases|
      && |g.leases| <= |r.value.leases| <= Max(slots, |g.leases|)
      && (forall v :: v != w ==> HeldBy(r.value.store, v) == HeldBy(g.store, v))
    decreases |pending|
  {
    hide Inv, Offer, Grant, GrantEffect, Leasable, HeldBy;
    if pending != [] && |g.leases| < slots && w in g.store.workers && HasStage(g.store, pending[0]) {
      var p := Offer(g.store, w, pending[0]);
      if p.Some? {
        var n := LeaseTurn(g, w, pending, p.value, now);
        GrantCardinals(g.store, n.store, w, pending[0], p.value, now);
        LeaseLoopHolds(n, w, pending[1..], slots, now);
      } else {
        LeasableTail(g.store, pending, now);
        LeaseLoopHolds(g, w, pending[1..], slots, now);
      }
    }
  }

  lemma SameHeld(s: Store, n: Store, v: WorkerId)
    requires n.tasks == s.tasks
    ensures HeldBy(n, v) == HeldBy(s, v)
  {
    assert forall q :: Holds(n, q, v) <==> Holds(s, q, v);
    assert Refs(n) == Refs(s);
  }

  function LeasesIn(reply: Reply): nat {
    if reply.Leases? then |reply.leases| else 0
  }

  /** A lease call adds what it returns, within the free slots, and touches no other worker. */
  lemma LeaseHolds(s: Store, w: WorkerId, requested: nat, pending: seq<StageRef>, now: Time)
    requires Inv(s) && s.clock <= now && Leasable(s, pending, now)
    ensures var done := StepLease(s, w, requested, pending, now);
      && |HeldBy(done.store, w)| == |HeldBy(s, w)| + LeasesIn(done.reply)
      && (LeasesIn(done.reply) > 0 ==> w in s.workers && LeasesIn(done.reply) <= FreeSlots(s, w, requested))
      && (forall v :: v != w ==> HeldBy(done.store, v) == HeldBy(s, v))
  {
    hide Inv, LeaseLoop, Leasable, StepLease, HeldBy, FreeSlots;
    TickKeeps(s, now);
    LeaseShape(s, w, requested, pending, now);
    TickLeasable(s, pending, now);
    var n := StepLease(s, w, requested, pending, now).store;
    if Polls(s, w, requested) {
      var start := Granting(Tick(s, now), []);
      LeaseLoopHolds(start, w, pending, FreeSlots(s, w, requested), now);
      var g := LeaseLoop(start, w, pending, FreeSlots(s, w, requested), now).value;
      forall v ensures HeldBy(s, v) == HeldBy(start.store, v) && HeldBy(n, v) == HeldBy(g.store, v) {
        SameHeld(s, start.store, v);
        SameHeld(g.store, n, v);
      }
    } else {
      forall v ensures HeldBy(n, v) == HeldBy(s, v) {
        SameHeld(s, n, v);
      }
    }
  }

  /** A lease call never raises the active count above the larger of what it was and the limit. */
  lemma LeaseWithinCapacity(s: Store, w: WorkerId, requested: nat, pending: seq<StageRef>, now: Time)
    requires Inv(s) && s.clock <= now && Leasable(s, pending, now)
    ensures var n := StepLease(s, w, requested, pending, now).store;
      |HeldBy(n, w)| <= Max(|HeldBy(s, w)|, if w in s.workers then s.workers[w].maximumConcurrency else 0)
  {
    hide Inv, LeaseLoop, Leasable, StepLease, HeldBy;
    LeaseHolds(s, w, requested, pending, now);
  }

  // ---------- the other actions ----------

  /** Every stage a worker holds in `n` it held in `s`. */
  ghost predicate Shrinks(s: Store, n: Store, v: WorkerId) {
    forall q :: Holds(n, q, v) ==> Holds(s, q, v)
  }

  lemma ShrinksCount(s: Store, n: Store, v: WorkerId)
    requires Shrinks(s, n, v)
    ensures HeldBy(n, v) <= HeldBy(s, v) && |HeldBy(n, v)| <= |HeldBy(s, v)|
  {
    hide Holds;
    forall q | q in HeldBy(n, v) ensures q in HeldBy(s, v) {
      assert Holds(s, q, v);
      HeldIsRef(s, q, v);
    }
    Subset(HeldBy(n, v), HeldBy(s, v));
  }

  lemma HeldIsRef(s: Store, q: StageRef, v: WorkerId)
    requires Holds(s, q, v)
    ensures q in Refs(s)
  {
    assert q == StageRef(q.task, q.position);
  }

  lemma Subset<T>(a: set<T>, b: set<T>)
    requires a <= b
    ensures |a| <= |b|
  {
    assert b == a + (b - a);
  }

  lemma StillShrinks(s: Store, n: Store, v: WorkerId)
    requires Still(s, n)
    ensures Shrinks(s, n, v)
  {
    forall q | Holds(n, q, v) ensures Holds(s, q, v) {
      assert AllFlowed(s.tasks[q.task].stages, n.tasks[q.task].stages);
      assert Flowed(s.tasks[q.task].stages[q.position], n.tasks[q.task].stages[q.position]);
    }
  }

  lemma RetryShrinks(s: Store, id: TaskId, now: Time, v: WorkerId)
    ensures Shrinks(s, StepRetry(s, id, now).store, v)
  {
    if id in s.tasks {
      RetryMoves(s.tasks[id], now);
      var n := StepRetry(s, id, now).store;
      forall q | Holds(n, q, v) ensures Holds(s, q, v) {
        if q.task == id && RetryTask(s.tasks[id], now).Success? {
          assert Reset(s.tasks[id].stages[q.position], n.tasks[id].stages[q.position]);
        }
      }
    }
  }

  lemma RouteShrinks(s: Store, id: TaskId, choice: Option<PipelineRef>, now: Time, v: WorkerId)
    requires Inv(s) && s.clock <= now
    ensures Shrinks(s, StepRoute(s, id, choice, now).store, v)
  {
    hide Inv, StepRoute;
    MissingRoute(s, id, choice, now);
    if id in s.tasks {
      RouteStepKeeps(s, id, choice, now);
      var n := StepRoute(s, id, choice, now).store;
      RouteStays(s, id, choice, now);
      forall q | Holds(n, q, v) ensures Holds(s, q, v) {
        if q.task == id && n.tasks[id] != s.tasks[id] {
          NothingHeld(n, id, q.position);
        }
      }
    }
  }

  lemma RouteStays(s: Store, id: TaskId, choice: Option<PipelineRef>, now: Time)
    requires id in s.tasks
    ensures var n := StepRoute(s, id, choice, now).store;
      && n.tasks.Keys == s.tasks.Keys
      && (forall x :: x in s.tasks && x != id ==> n.tasks[x] == s.tasks[x])
      && (n.tasks[id] != s.tasks[id] ==> n.tasks[id].status.Pending?)
  {
  }

  lemma MissingRoute(s: Store, id: TaskId, choice: Option<PipelineRef>, now: Time)
    ensures id !in s.tasks ==> StepRoute(s, id, choice, now).store.tasks == s.tasks
  {
  }

  lemma NothingHeld(s: Store, id: TaskId, i: nat)
    requires Inv(s) && id in s.tasks && s.tasks[id].status.Pending? && i < |s.tasks[id].stages|
    ensures !s.tasks[id].stages[i].status.Active()
  {
  }

  lemma CreateShrinks(s: Store, id: TaskId, request: CreateRequest, key: Option<Label>, now: Time, v: WorkerId)
    requires id !in s.tasks
    ensures Shrinks(s, StepCreate(s, id, request, key, now).store, v)
  {
  }

  /** Nothing but its own lease call gives a worker another stage. */
  lemma StepShrinks(s: Store, a: Action, v: WorkerId)
    requires Inv(s) && Admissible(s, a) && !(a.AcquireLeases? && a.worker == v)
    ensures |HeldBy(Step(s, a).store, v)| <= |HeldBy(s, v)|
  {
    hide Inv, HeldBy, Shrinks;
    var n := Step(s, a).store;
    if a.AcquireLeases? {
      LeaseHolds(s, a.worker, a.slots, a.pending, a.now);
    } else {
      if !HandsOut(a) {
        StillStep(s, a);
        StillShrinks(s, n, v);
      } else if a.Retry? {
        RetryShrinks(s, a.task, a.now, v);
      } else if a.Route? {
        RouteShrinks(s, a.task, a.choice, a.now, v);
      } else {
        CreateShrinks(s, a.task, a.request, a.key, a.now, v);
      }
      ShrinksCount(s, n, v);
    }
  }

  /** The worker's limit, wherever it is read during the run, is at most `limit`. */
  ghost predicate Limited(s: Store, actions: seq<Action>, v: WorkerId, limit: nat) {
    forall i :: 0 <= i < |actions| ==> LimitedAt(Run(s, actions[..i]), v, limit)
  }

  ghost predicate LimitedAt(s: Store, v: WorkerId, limit: nat) {
    v in s.workers ==> s.workers[v].maximumConcurrency <= limit
  }

  /** Over whole runs a worker never holds more than it started with or its limit allows. */
  lemma {:induction false} CapacityOverRuns(s: Store, actions: seq<Action>, v: WorkerId, limit: nat)
    requires Inv(s) && Feasible(s, actions) && Limited(s, actions, v, limit)
    ensures |HeldBy(Run(s, actions), v)| <= Max(|HeldBy(s, v)|, limit)
    decreases |actions|
  {
    hide Inv, Feasible, HeldBy, StepLease;
    if actions != [] {
      var n := |actions| - 1;
      FeasiblePrefix(s, actions, n);
      LimitedPrefix(s, actions, v, limit);
      CapacityOverRuns(s, actions[..n], v, limit);
      Midway(s, actions, n);
      assert actions[..n + 1] == actions;
      var m, a := Run(s, actions[..n]), actions[n];
      assert LimitedAt(m, v, limit);
      if a.AcquireLeases? && a.worker == v {
        LeaseWithinCapacity(m, v, a.slots, a.pending, a.now);
      } else {
        StepShrinks(m, a, v);
      }
    }
  }

  lemma LimitedPrefix(s: Store, actions: seq<Action>, v: WorkerId, limit: nat)
    requires Limited(s, actions, v, limit) && actions != []
    ensures Limited(s, actions[..|actions| - 1], v, limit)
  {
    var front := actions[..|actions| - 1];
    forall i | 0 <= i < |front| ensures LimitedAt(Run(s, front[..i]), v, limit) {
      assert front[..i] == actions[..i];
    }
  }

  // ---------- balance over the devices ----------

  /** The worker's devices of a runtime, above a memory floor, carry nearly the same number of stages. */
  ghost predicate Even(s: Store, w: WorkerId, runtime: Runtime, floor: Option<nat>) {
    w in s.workers ==> Balanced(s.workers[w], runtime, floor, s.config.memoryCap, DeviceCounts(s, w))
  }

  /** The leases from position `from` on went to stages of tasks with this memory floor. */
  ghost predicate SameFloor(s: Store, leases: seq<Lease>, from: nat, floor: Option<nat>) {
    forall k :: from <= k < |leases| ==>
      leases[k].stage.task in s.tasks && s.tasks[leases[k].stage.task].request.options.minimumMemory == floor
  }

  lemma OfferPlaces(s: Store, w: WorkerId, r: StageRef) returns (runtime: Runtime, d: Device)
    requires w in s.workers && HasStage(s, r) && Offer(s, w, r).Some?
    ensures Offer(s, w, r).value.device == d.id
    ensures SelectDevice(s.workers[w], runtime, s.tasks[r.task].request.options.minimumMemory, s.config.memoryCap,
      DeviceCounts(s, w)) == Some(d)
  {
    runtime := Offer(s, w, r).value.runtime;
    d := SelectDevice(s.workers[w], runtime, s.tasks[r.task].request.options.minimumMemory, s.config.memoryCap,
      DeviceCounts(s, w)).value;
  }

  lemma BalancedCongruent(
    w: Worker, runtime: Runtime, floor: Option<nat>, cap: real, a: Reservations, b: Reservations)
    requires Balanced(w, runtime, floor, cap, a) && forall d :: Reserved(a, d) == Reserved(b, d)
    ensures Balanced(w, runtime, floor, cap, b)
  {
  }

  lemma TurnEven(
    s: Store, n: Store, w: WorkerId, r: StageRef, p: Placement, now: Time, runtime: Runtime, floor: Option<nat>)
    requires w in s.workers && WorkerValid(s.workers[w]) && HasStage(s, r) && Offer(s, w, r) == Some(p)
    requires GrantEffect(s, n, w, r, p, now) && s.tasks[r.task].request.options.minimumMemory == floor
    requires Even(s, w, runtime, floor)
    ensures Even(n, w, runtime, floor)
  {
    hide Offer, DeviceCounts, Balanced, SelectDevice;
    var chosen, d := OfferPlaces(s, w, r);
    var worker, cap := s.workers[w], s.config.memoryCap;
    BalanceKept(worker, chosen, runtime, floor, cap, DeviceCounts(s, w), d);
    forall x ensures Reserved(DeviceCounts(n, w), x) == Reserved(Reserve(DeviceCounts(s, w), d.id), x) {
      CountsFollow(s, n, w, r, p, now, x);
    }
    BalancedCongruent(worker, runtime, floor, cap, Reserve(DeviceCounts(s, w), d.id), DeviceCounts(n, w));
  }

  lemma FloorStays(
    s: Store, n: Store, w: WorkerId, r: StageRef, p: Placement, now: Time, leases: seq<Lease>, from: nat,
    floor: Option<nat>)
    requires SameFloor(s, leases, from, floor) && GrantEffect(s, n, w, r, p, now)
    ensures SameFloor(n, leases, from + 1, floor)
  {
  }

  lemma ValidWorker(s: Store, w: WorkerId)
    requires Inv(s) && w in s.workers
    ensures WorkerValid(s.workers[w])
  {
  }

  /** Grants with one memory floor keep the devices of every runtime balanced. */
  lemma {:induction false} LeaseLoopEven(
    g: Granting, w: WorkerId, pending: seq<StageRef>, slots: nat, now: Time, runtime: Runtime, floor: Option<nat>)
    requires Inv(g.store) && g.store.clock <= now && Leasable(g.store, pending, now) && Even(g.store, w, runtime, floor)
    requires var r := LeaseLoop(g, w, pending, slots, now);
      r.Success? ==> SameFloor(g.store, r.value.leases, |g.leases|, floor)
    ensures var r := LeaseLoop(g, w, pending, slots, now); r.Success? && Even(r.value.store, w, runtime, floor)
    decreases |pending|
  {
    hide Inv, Offer, Grant, GrantEffect, Leasable, Even, WorkerValid, SameFloor;
    LeaseLoopKeeps(g, w, pending, slots, now);
    if pending != [] && |g.leases| < slots && w in g.store.workers && HasStage(g.store, pending[0]) {
      var p := Offer(g.store, w, pending[0]);
      if p.Some? {
        var n := LeaseTurn(g, w, pending, p.value, now);
        LeaseLoopKeeps(n, w, pending[1..], slots, now);
        LoopFrames(n, w, pending[1..], slots, now);
        var r := LeaseLoop(n, w, pending[1..], slots, now).value;
        ValidWorker(g.store, w);
        FloorAt(g.store, r.leases, |g.leases|, floor);
        TurnEven(g.store, n.store, w, pending[0], p.value, now, runtime, floor);
        FloorStays(g.store, n.store, w, pending[0], p.value, now, r.leases, |g.leases|, floor);
        LeaseLoopEven(n, w, pending[1..], slots, now, runtime, floor);
      } else {
        LeasableTail(g.store, pending, now);
        LeaseLoopEven(g, w, pending[1..], slots, now, runtime, floor);
      }
    }
  }

  lemma FloorAt(s: Store, leases: seq<Lease>, from: nat, floor: Option<nat>)
    requires SameFloor(s, leases, from, floor) && from < |leases|
    ensures leases[from].stage.task in s.tasks
    ensures s.tasks[leases[from].stage.task].request.options.minimumMemory == floor
  {
  }

  lemma BusyBalanced(w: Worker, runtime: Runtime, floor: Option<nat>, cap: real, counts: Reservations)
    requires Balanced(w, runtime, floor, cap, counts)
    ensures Balanced(w.(status := Busy), runtime, floor, cap, counts)
  {
    forall d ensures Fits(w.(status := Busy), d, runtime, floor, cap) <==> Fits(w, d, runtime, floor, cap) {
    }
  }

  lemma SameCounts(s: Store, n: Store, w: WorkerId)
    requires n.tasks == s.tasks
    ensures DeviceCounts(n, w) == DeviceCounts(s, w)
  {
    SameHeld(s, n, w);
    forall d ensures HeldOn(n, w, d) == HeldOn(s, w, d) {
      assert Refs(n) == Refs(s);
    }
    assert DevicesInUse(n, w) == DevicesInUse(s, w);
  }

  lemma EvenSame(s: Store, n: Store, w: WorkerId, runtime: Runtime, floor: Option<nat>)
    requires Even(s, w, runtime, floor) && n.tasks == s.tasks && n.config == s.config
    requires w in n.workers ==> w in s.workers
    requires w in n.workers ==> n.workers[w] == s.workers[w] || n.workers[w] == s.workers[w].(status := Busy)
    ensures Even(n, w, runtime, floor)
  {
    SameCounts(s, n, w);
    if w in n.workers {
      BusyBalanced(s.workers[w], runtime, floor, s.config.memoryCap, DeviceCounts(s, w));
    }
  }

  lemma {:induction false} LoopFrames(g: Granting, w: WorkerId, pending: seq<StageRef>, slots: nat, now: Time)
    ensures var r := LeaseLoop(g, w, pending, slots, now);
      r.Success? ==> (
        && r.value.store.config == g.store.config && r.value.store.workers == g.store.workers
        && g.leases <= r.value.leases)
    decreases |pending|
  {
    hide Offer, GrantStage;
    if pending != [] && |g.leases| < slots && w in g.store.workers && HasStage(g.store, pending[0]) {
      var p := Offer(g.store, w, pending[0]);
      if p.Some? {
        var n := Grant(g, w, pending[0], p.value, now);
        if n.Success? {
          LoopFrames(n.value, w, pending[1..], slots, now);
        }
      } else {
        LoopFrames(g, w, pending[1..], slots, now);
      }
    }
  }

  lemma LeaseWorkers(s: Store, w: WorkerId, requested: nat, pending: seq<StageRef>, now: Time)
    ensures var n := StepLease(s, w, requested, pending, now).store;
      && n.config == s.config && n.workers.Keys == s.workers.Keys
      && (w in s.workers ==> n.workers[w] == s.workers[w] || n.workers[w] == s.workers[w].(status := Busy))
  {
    hide LeaseLoop, HeldBy;
    if Polls(s, w, requested) {
      LoopFrames(Granting(Tick(s, now), []), w, pending, FreeSlots(s, w, requested), now);
    }
  }

  /** A lease call whose grants share one memory floor keeps each runtime's devices within one stage of each other. */
  lemma LeaseEven(
    s: Store, w: WorkerId, requested: nat, pending: seq<StageRef>, now: Time, runtime: Runtime, floor: Option<nat>)
    requires Inv(s) && s.clock <= now && Leasable(s, pending, now)
    requires Even(s, w, runtime, floor)
    requires var reply := StepLease(s, w, requested, pending, now).reply;
      reply.Leases? ==> SameFloor(s, reply.leases, 0, floor)
    ensures Even(StepLease(s, w, requested, pending, now).store, w, runtime, floor)
  {
    hide Inv, LeaseLoop, Leasable, StepLease, HeldBy, Even, SameFloor;
    TickKeeps(s, now);
    LeaseShape(s, w, requested, pending, now);
    LeaseWorkers(s, w, requested, pending, now);
    TickLeasable(s, pending, now);
    var n := StepLease(s, w, requested, pending, now).store;
    var start := Granting(Tick(s, now), []);
    EvenSame(s, start.store, w, runtime, floor);
    if Polls(s, w, requested) {
      LeaseLoopKeeps(start, w, pending, FreeSlots(s, w, requested), now);
      FloorSame(s, start.store, LeaseLoop(start, w, pending, FreeSlots(s, w, requested), now).value.leases, floor);
      LeaseLoopEven(start, w, pending, FreeSlots(s, w, requested), now, runtime, floor);
      var g := LeaseLoop(start, w, pending, FreeSlots(s, w, requested), now).value;
      LoopFrames(start, w, pending, FreeSlots(s, w, requested), now);
      EvenSame(g.store, n, w, runtime, floor);
    } else {
      EvenSame(s, n, w, runtime, floor);
    }
  }

  lemma FloorSame(s: Store, n: Store, leases: seq<Lease>, floor: Option<nat>)
    requires SameFloor(s, leases, 0, floor) && n.tasks == s.tasks
    ensures SameFloor(n, leases, 0, floor)
  {
  }

  // ---------- slots and the busy mark ----------

  /** A slot is free for one more stage exactly below the number asked for and below the limit. */
  lemma FreeSlotsMeans(s: Store, w: WorkerId, requested: nat, taken: nat)
    requires w in s.workers
    ensures taken < FreeSlots(s, w, requested) <==>
      taken < requested && |HeldBy(s, w)| + taken < s.workers[w].maximumConcurrency
  {
    hide HeldBy;
  }

  /** A poll is refused exactly for a worker that is unknown, disabled, draining, offline or unhealthy. */
  lemma PollRefusedIff(s: Store, w: WorkerId, requested: nat, pending: seq<StageRef>, now: Time)
    requires Inv(s) && s.clock <= now && Leasable(s, pending, now)
    ensures var done := StepLease(s, w, requested, pending, now);
      && (done.reply.Leases? <==>
            w in s.workers && s.workers[w].enabled && (s.workers[w].status.Online? || s.workers[w].status.Busy?))
      && (!done.reply.Leases? ==> done.reply == Raised(WorkerUnavailable) && done.store == Tick(s, now))
  {
    hide Inv, LeaseLoop, Leasable, HeldBy;
    TickKeeps(s, now);
    TickLeasable(s, pending, now);
    if Polls(s, w, requested) {
      LeaseLoopKeeps(Granting(Tick(s, now), []), w, pending, FreeSlots(s, w, requested), now);
    }
  }

  /** A poll that had a slot to give marks the worker busy exactly when it now holds all it may; nobody else changes. */
  lemma LeaseMarksBusy(s: Store, w: WorkerId, requested: nat, pending: seq<StageRef>, now: Time)
    requires Inv(s) && s.clock <= now && Leasable(s, pending, now) && w in s.workers && s.workers[w].AcceptsLeases()
    requires 1 <= requested && |HeldBy(s, w)| < s.workers[w].maximumConcurrency
    ensures var n := StepLease(s, w, requested, pending, now).store;
      n.workers == s.workers[w := s.workers[w].(status :=
        if |HeldBy(n, w)| >= s.workers[w].maximumConcurrency then Busy else s.workers[w].status)]
  {
    hide Inv, LeaseLoop, Leasable, HeldBy;
    TickKeeps(s, now);
    TickLeasable(s, pending, now);
    LeaseHolds(s, w, requested, pending, now);
    var slots := FreeSlots(s, w, requested);
    LeaseLoopKeeps(Granting(Tick(s, now), []), w, pending, slots, now);
  }
}

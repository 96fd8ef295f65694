/**
 Without a manual retry a routed task is finite work: every step that changes the status
 or the attempt of a stage lowers one measure, and leases are bounded by the attempts.
 */
module Termination {
  import opened Common
  import opened Records
  import opened Lifecycle
  import opened TaskInvariant
  import opened Movement
  import opened Protocol
  import opened SystemInvariant
  import opened Effects
  import opened Fencing

  // ---------- sums over the stages of a task ----------

  function Attempts(stages: seq<Stage>): nat {
    if stages == [] then 0 else Attempts(stages[..|stages| - 1]) + stages[|stages| - 1].attempt
  }

  function Ceiling(stages: seq<Stage>): nat {
    if stages == [] then 0 else Ceiling(stages[..|stages| - 1]) + stages[|stages| - 1].spec.maximumAttempts
  }

  function Work(stages: seq<Stage>): int {
    if stages == [] then 0 else Work(stages[..|stages| - 1]) + Weight(stages[|stages| - 1])
  }

  /** Any number of operations, no manual retry among them. */
  ghost predicate Onward(a: Stage, b: Stage) {
    && b.spec == a.spec
    && a.attempt <= b.attempt
    && (a.status.Done() ==> b.status == a.status)
    && (SameShape(a, b) || Weight(b) < Weight(a))
  }

  ghost predicate AllOnward(a: seq<Stage>, b: seq<Stage>) {
    |a| == |b| && forall i :: 0 <= i < |a| ==> Onward(a[i], b[i])
  }

  ghost predicate AllSameShape(a: seq<Stage>, b: seq<Stage>) {
    |a| == |b| && forall i :: 0 <= i < |a| ==> SameShape(a[i], b[i])
  }

  lemma AllOnwardTransitive(a: seq<Stage>, b: seq<Stage>, c: seq<Stage>)
    requires AllOnward(a, b) && AllOnward(b, c)
    ensures AllOnward(a, c)
  {
    forall i | 0 <= i < |a| ensures Onward(a[i], c[i]) {
      assert Onward(a[i], b[i]) && Onward(b[i], c[i]);
    }
  }

  /** The measure never rises, and falls with every change of status or attempt. */
  lemma {:induction false} WorkFalls(a: seq<Stage>, b: seq<Stage>)
    requires AllOnward(a, b)
    ensures Work(b) <= Work(a)
    ensures !AllSameShape(a, b) ==> Work(b) < Work(a)
  {
    if a != [] {
      var n := |a| - 1;
      assert Onward(a[n], b[n]);
      assert AllOnward(a[..n], b[..n]);
      WorkFalls(a[..n], b[..n]);
      if AllSameShape(a[..n], b[..n]) && SameShape(a[n], b[n]) {
        forall i | 0 <= i < |a| ensures SameShape(a[i], b[i]) {
          assert i < n ==> SameShape(a[..n][i], b[..n][i]);
        }
      }
    }
  }

  lemma {:induction false} WorkNonNegative(stages: seq<Stage>, clock: Time)
    requires StagesInv(stages, clock)
    ensures 0 <= Work(stages) && Attempts(stages) <= Ceiling(stages)
  {
    if stages != [] {
      var n := |stages| - 1;
      assert StageInv(stages[n], clock);
      assert forall i :: 0 <= i < n ==> StageInv(stages[i], clock);
      WorkNonNegative(stages[..n], clock);
    }
  }

  lemma {:induction false} CeilingFixed(a: seq<Stage>, b: seq<Stage>)
    requires AllOnward(a, b)
    ensures Ceiling(a) == Ceiling(b)
  {
    if a != [] {
      var n := |a| - 1;
      assert Onward(a[n], b[n]);
      assert AllOnward(a[..n], b[..n]);
      CeilingFixed(a[..n], b[..n]);
    }
  }

  lemma {:induction false} FlowedAttempts(a: seq<Stage>, b: seq<Stage>)
    requires AllFlowed(a, b)
    ensures AllOnward(a, b) && Attempts(a) == Attempts(b)
  {
    assert forall i :: 0 <= i < |a| ==> Flowed(a[i], b[i]);
    if a != [] {
      var n := |a| - 1;
      assert AllFlowed(a[..n], b[..n]);
      FlowedAttempts(a[..n], b[..n]);
    }
  }

  lemma {:induction false} AttemptsUpdate(a: seq<Stage>, i: nat, s: Stage)
    requires i < |a|
    ensures Attempts(a[i := s]) == Attempts(a) - a[i].attempt + s.attempt
  {
    var n := |a| - 1;
    if i < n {
      assert a[i := s][..n] == a[..n][i := s];
      AttemptsUpdate(a[..n], i, s);
    } else {
      assert a[i := s][..n] == a[..n];
    }
  }

  lemma HandedAttempts(a: seq<Stage>, b: seq<Stage>, i: nat, token: Token)
    requires OneHanded(a, b, i, token)
    ensures AllOnward(a, b) && Attempts(b) == Attempts(a) + 1
  {
    AttemptsUpdate(a, i, b[i]);
    forall k | 0 <= k < |a| ensures Onward(a[k], b[k]) {
      assert k != i ==> b[k] == a[k];
    }
  }

  // ---------- one action ----------

  /** The leases of one task in a list. */
  function CountOf(leases: seq<Lease>, id: TaskId): nat {
    if leases == [] then 0
    else CountOf(leases[..|leases| - 1], id) + (if leases[|leases| - 1].stage.task == id then 1 else 0)
  }

  /** The leases of one task that a reply hands out. */
  function LeasesFor(reply: Reply, id: TaskId): nat {
    if reply.Leases? then CountOf(reply.leases, id) else 0
  }

  /** From `s` to `n` task `id` was handed out `k` times and otherwise only moved on. */
  ghost predicate Advances(s: Store, n: Store, id: TaskId, k: int) {
    && id in s.tasks && id in n.tasks
    && AllOnward(s.tasks[id].stages, n.tasks[id].stages)
    && Attempts(n.tasks[id].stages) == Attempts(s.tasks[id].stages) + k
  }

  lemma AdvancesTransitive(a: Store, b: Store, c: Store, id: TaskId, j: int, k: int)
    requires Advances(a, b, id, j) && Advances(b, c, id, k)
    ensures Advances(a, c, id, j + k)
  {
    AllOnwardTransitive(a.tasks[id].stages, b.tasks[id].stages, c.tasks[id].stages);
  }

  lemma SameRow(s: Store, n: Store, id: TaskId)
    requires id in s.tasks && id in n.tasks && n.tasks[id].stages == s.tasks[id].stages
    ensures Advances(s, n, id, 0)
  {
  }

  lemma SameTasks(a: Store, b: Store, s: Store, n: Store, id: TaskId, k: int)
    requires Advances(a, b, id, k) && s.tasks == a.tasks && n.tasks == b.tasks
    ensures Advances(s, n, id, k)
  {
  }

  lemma GrantAdvances(s: Store, n: Store, w: WorkerId, r: StageRef, p: Placement, now: Time, id: TaskId)
    requires GrantEffect(s, n, w, r, p, now) && id in s.tasks
    ensures Advances(s, n, id, if r.task == id then 1 else 0)
  {
    if r.task == id {
      HandedAttempts(s.tasks[id].stages, n.tasks[id].stages, r.position, Token(s.issued));
    } else {
      SameRow(s, n, id);
    }
  }

  lemma {:induction false} LeaseLoopAdvances(
    g: Granting, w: WorkerId, pending: seq<StageRef>, slots: nat, now: Time, id: TaskId)
    requires Inv(g.store) && g.store.clock <= now && Leasable(g.store, pending, now) && id in g.store.tasks
    ensures var r := LeaseLoop(g, w, pending, slots, now);
      r.Success? && Advances(g.store, r.value.store, id, CountOf(r.value.leases, id) - CountOf(g.leases, id))
    decreases |pending|
  {
    hide Inv, Offer, Grant, GrantEffect, Advances, Leasable;
    if pending != [] && |g.leases| < slots && w in g.store.workers && HasStage(g.store, pending[0]) {
      var p := Offer(g.store, w, pending[0]);
      if p.Some? {
        var n := LeaseTurn(g, w, pending, p.value, now);
        GrantAdvances(g.store, n.store, w, pending[0], p.value, now, id);
        LeaseLoopAdvances(n, w, pending[1..], slots, now, id);
        var r := LeaseLoop(n, w, pending[1..], slots, now).value;
        AdvancesTransitive(g.store, n.store, r.store, id,
          if pending[0].task == id then 1 else 0, CountOf(r.leases, id) - CountOf(n.leases, id));
      } else {
        LeasableTail(g.store, pending, now);
        LeaseLoopAdvances(g, w, pending[1..], slots, now, id);
      }
    } else {
      SameRow(g.store, g.store, id);
    }
  }

  lemma LeaseAdvances(s: Store, w: WorkerId, requested: nat, pending: seq<StageRef>, now: Time, id: TaskId)
    requires Inv(s) && s.clock <= now && Leasable(s, pending, now) && id in s.tasks
    ensures var done := StepLease(s, w, requested, pending, now);
      Advances(s, done.store, id, LeasesFor(done.reply, id))
  {
    hide Inv, LeaseLoop, Leasable, StepLease, HeldBy, Advances;
    TickKeeps(s, now);
    LeaseShape(s, w, requested, pending, now);
    TickLeasable(s, pending, now);
    if Polls(s, w, requested) {
      var start := Granting(Tick(s, now), []);
      LeaseLoopAdvances(start, w, pending, FreeSlots(s, w, requested), now, id);
      var g := LeaseLoop(start, w, pending, FreeSlots(s, w, requested), now).value;
      SameTasks(start.store, g.store, s, StepLease(s, w, requested, pending, now).store, id, CountOf(g.leases, id));
    } else {
      SameRow(s, Tick(s, now), id);
    }
  }

  lemma RouteAdvances(s: Store, id: TaskId, choice: Option<PipelineRef>, now: Time, x: TaskId)
    requires x in s.tasks && s.tasks[x].stages != []
    ensures Advances(s, StepRoute(s, id, choice, now).store, x, 0)
  {
    SameRow(s, StepRoute(s, id, choice, now).store, x);
  }

  lemma StillAdvances(s: Store, a: Action, id: TaskId)
    requires Still(s, Step(s, a).store) && id in s.tasks
    ensures Advances(s, Step(s, a).store, id, 0)
  {
    FlowedAttempts(s.tasks[id].stages, Step(s, a).store.tasks[id].stages);
  }

  predicate RetriesTask(a: Action, id: TaskId) {
    a.Retry? && a.task == id
  }

  lemma OnlyLeasesLease(s: Store, a: Action)
    ensures Step(s, a).reply.Leases? ==> a.AcquireLeases?
  {
  }

  /** Every action but a manual retry of it moves a routed task on, by the attempts it hands out. */
  lemma StepAdvances(s: Store, a: Action, id: TaskId)
    requires Inv(s) && Admissible(s, a) && id in s.tasks && s.tasks[id].stages != [] && !RetriesTask(a, id)
    ensures Advances(s, Step(s, a).store, id, LeasesFor(Step(s, a).reply, id))
  {
    hide Inv;
    OnlyLeasesLease(s, a);
    if !HandsOut(a) {
      StillStep(s, a);
      StillAdvances(s, a, id);
    } else if a.AcquireLeases? {
      LeaseAdvances(s, a.worker, a.slots, a.pending, a.now, id);
    } else if a.Route? {
      RouteAdvances(s, a.task, a.choice, a.now, id);
    } else {
      SameRow(s, Step(s, a).store, id);
    }
  }

  // ---------- whole runs ----------

  ghost function Handouts(s: Store, actions: seq<Action>, id: TaskId): nat {
    if actions == [] then 0
    else
      var n := |actions| - 1;
      Handouts(s, actions[..n], id) + LeasesFor(Step(Run(s, actions[..n]), actions[n]).reply, id)
  }

  ghost predicate Changes(s: Store, n: Store, id: TaskId) {
    id in s.tasks && id in n.tasks && !AllSameShape(s.tasks[id].stages, n.tasks[id].stages)
  }

  /** The number of actions that change the status or the attempt of a stage of the task. */
  ghost function Turns(s: Store, actions: seq<Action>, id: TaskId): nat {
    if actions == [] then 0
    else
      var n := |actions| - 1;
      Turns(s, actions[..n], id)
        + (if Changes(Run(s, actions[..n]), Step(Run(s, actions[..n]), actions[n]).store, id) then 1 else 0)
  }

  ghost predicate Unretried(actions: seq<Action>, id: TaskId) {
    forall i :: 0 <= i < |actions| ==> !RetriesTask(actions[i], id)
  }

  lemma {:induction false} RunAdvances(s: Store, actions: seq<Action>, id: TaskId)
    requires Inv(s) && Feasible(s, actions) && id in s.tasks && s.tasks[id].stages != [] && Unretried(actions, id)
    ensures Advances(s, Run(s, actions), id, Handouts(s, actions, id))
    ensures Work(Run(s, actions).tasks[id].stages) + Turns(s, actions, id) <= Work(s.tasks[id].stages)
    decreases |actions|
  {
    hide Inv, Admissible, Feasible;
    if actions == [] {
      SameRow(s, s, id);
    } else {
      var n := |actions| - 1;
      Midway(s, actions, n);
      assert actions[..n + 1] == actions;
      FeasiblePrefix(s, actions, n);
      RunAdvances(s, actions[..n], id);
      var m := Run(s, actions[..n]);
      StepAdvances(m, actions[n], id);
      var done := Step(m, actions[n]);
      AdvancesTransitive(s, m, done.store, id, Handouts(s, actions[..n], id), LeasesFor(done.reply, id));
      WorkFalls(m.tasks[id].stages, done.store.tasks[id].stages);
    }
  }

  /** Between manual retries a task is leased at most as often as its stages have attempts left. */
  lemma LeaseBudget(s: Store, actions: seq<Action>, id: TaskId)
    requires Inv(s) && Feasible(s, actions) && id in s.tasks && s.tasks[id].stages != [] && Unretried(actions, id)
    ensures id in Run(s, actions).tasks
    ensures Handouts(s, actions, id) == Attempts(Run(s, actions).tasks[id].stages) - Attempts(s.tasks[id].stages)
    ensures Handouts(s, actions, id) <= Ceiling(s.tasks[id].stages) - Attempts(s.tasks[id].stages)
  {
    RunAdvances(s, actions, id);
    RunKeeps(s, actions);
    WorkNonNegative(Run(s, actions).tasks[id].stages, Run(s, actions).clock);
    CeilingFixed(s.tasks[id].stages, Run(s, actions).tasks[id].stages);
  }

  /** Between manual retries only boundedly many actions move a stage, and what is done stays done. */
  lemma FiniteWork(s: Store, actions: seq<Action>, id: TaskId)
    requires Inv(s) && Feasible(s, actions) && id in s.tasks && s.tasks[id].stages != [] && Unretried(actions, id)
    ensures Turns(s, actions, id) <= Work(s.tasks[id].stages)
    ensures id in Run(s, actions).tasks && DonePersists(s.tasks[id].stages, Run(s, actions).tasks[id].stages)
  {
    RunAdvances(s, actions, id);
    RunKeeps(s, actions);
    WorkNonNegative(Run(s, actions).tasks[id].stages, Run(s, actions).clock);
    var a, b := s.tasks[id].stages, Run(s, actions).tasks[id].stages;
    forall i | 0 <= i < |a| && a[i].status.Done() ensures b[i].status.Done() {
      assert Onward(a[i], b[i]);
    }
  }
}

/**
 A run from the empty control plane whose requeue pass raises: one worker leases two
 independent stages of one task, each on its only attempt, and both leases expire.
 */
module BlockedPass {
  import opened Common
  import opened PipelineDag
  import opened Records
  import opened Selection
  import opened Lifecycle
  import opened Protocol
  import opened SystemInvariant
  import opened Effects
  import opened Capacity
  import opened Liveness
  import opened Leases
  import opened Standing
  import opened Requeue
  import opened Scenes
  import Router

  // ---------- the inputs ----------

  const KEY := BackendKey(Label("plain"), "1")
  const PLAIN := Capability({Text}, [], [CPU])
  const BACKEND := Backend(0, KEY, PLAIN, true)
  const WORKER := Worker(true, Online, 2, 1, [Device(0, CPU, None)], map[], map[KEY := PLAIN], map[], None)
  const SOURCE := SourceMetadata(Mime("text", "plain"), Text)
  const OPTIONS := TaskOptions(map[], None, Auto, [], None)
  const REQUEST := CreateRequest(Some(SOURCE), OPTIONS, None, None, 0)
  const STAGES := [StageRef(0, 0), StageRef(0, 1)]

  function OneAttempt(name: string): Router.StageDefinition {
    Router.StageDefinition(Name(name), Label("plain"), [], [], [], 1, RetryPolicy(0.0, 0.0, 1.0), false)
  }

  function TwoStages(): Router.Pipeline {
    Router.Pipeline({Text}, [], [OneAttempt("a"), OneAttempt("b")])
  }

  lemma InputsValid()
    ensures Router.PipelineValid(TwoStages()) && Router.TableValid([BACKEND])
    ensures WorkerValid(WORKER) && OptionsValid(OPTIONS)
    ensures forall i :: 0 <= i < 2 ==> Router.DefinitionValid(TwoStages().stages[i])
  {
    hide WellFormed;
    var p := TwoStages();
    var nodes := Router.DefinitionNodes(p.stages);
    assert nodes[0].name.text[0] != nodes[1].name.text[0];
    IndependentNodes(nodes);
    forall i | 0 <= i < |p.stages| ensures Router.DefinitionValid(p.stages[i]) {
    }
  }

  function TwoStageScene(): Scene {
    Scene(WORKER, BACKEND, TwoStages(), REQUEST)
  }

  lemma SceneHolds()
    ensures SceneValid(TwoStageScene())
  {
    hide Router.PipelineValid;
    InputsValid();
  }

  // ---------- up to the routed task ----------

  /** A stage as routing leaves it. */
  ghost predicate Planned(s: Store, r: StageRef) {
    && HasStage(s, r) && StageAt(s, r).status.Pending? && StageAt(s, r).availableAt <= 0.0 && Simple(StageAt(s, r).spec)
  }

  ghost predicate Simple(spec: StageSpec) {
    && spec.dependsOn == [] && spec.maximumAttempts == 1 && !spec.optional
    && 0 in spec.candidates && CPU in spec.requiredRuntimes
  }

  lemma PlannedSimple(d: Router.StageDefinition, position: nat)
    requires Router.DefinitionValid(d) && d == OneAttempt(d.name.text)
    ensures Router.Candidates([BACKEND], d, OPTIONS, SOURCE) != []
    ensures var s := Router.PlanStage([BACKEND], d, position, OPTIONS, SOURCE, 0.0);
      s.Success? && s.value.status.Pending? && s.value.availableAt == 0.0 && Simple(s.value.spec)
  {
    InputsValid();
    Router.CandidateProperties([BACKEND], d, OPTIONS, SOURCE);
    assert BACKEND in [BACKEND] && CPU in Elements(PLAIN.runtimes);
    assert Router.Usable(BACKEND, d, OPTIONS, SOURCE);
    assert BACKEND in Router.Candidates([BACKEND], d, OPTIONS, SOURCE);
    Router.PlannedStage([BACKEND], d, position, OPTIONS, SOURCE, 0.0);
    Router.PlanExact([BACKEND], d, position, OPTIONS, SOURCE, 0.0);
  }

  ghost predicate Routed(s: Store) {
    && s.workers == map[0 := WORKER] && s.backends == [BACKEND] && s.clock == 0.0
    && s.tasks.Keys == {0} && s.tasks[0].request == REQUEST && s.tasks[0].status.Pending? && |s.tasks[0].stages| == 2
    && Planned(s, STAGES[0]) && Planned(s, STAGES[1])
  }

  lemma RoutedStep(s: Store)
    requires Prepared(s, TwoStageScene())
    ensures var done := StepRoute(s, 0, Some(PIPELINE_ID), 0.0); Routed(done.store) && done.store.config == s.config
  {
    var defs := TwoStages().stages;
    InputsValid();
    PlannedSimple(defs[0], 0);
    PlannedSimple(defs[1], 1);
    Router.PlanImage([BACKEND], defs, OPTIONS, SOURCE, 0.0);
    hide Router.PlanStages, Router.PlanStage, Router.Candidates, Simple, Router.PipelineValid, Router.DefinitionValid;
    assert Router.Plannable([BACKEND], defs, OPTIONS, SOURCE);
    var plan := Router.PlanStages([BACKEND], defs, OPTIONS, SOURCE, 0.0).value;
    assert Router.PlanStage([BACKEND], defs[0], 0, OPTIONS, SOURCE, 0.0) == Success(plan[0]);
    assert Router.PlanStage([BACKEND], defs[1], 1, OPTIONS, SOURCE, 0.0) == Success(plan[1]);
  }

  // ---------- the leases ----------

  lemma WorkerRuntimes(cap: real)
    requires 0.0 < cap
    ensures AvailableRuntimes(WORKER, None, cap) == {CPU}
  {
    assert WORKER.devices[0] in WORKER.devices;
  }

  lemma Served(job: Job)
    requires job.source == Some(SOURCE) && 0 in job.candidates && CPU in job.required
    ensures SelectBackend([BACKEND], job, WORKER.capabilities, {CPU}).Some?
  {
    assert CPU in {CPU} * Elements(job.required);
    assert Lookup([BACKEND], 0) == Some(BACKEND);
    assert CPU in (set r | r in PLAIN.runtimes && r in {CPU} && r in PLAIN.runtimes);
    assert Serves([BACKEND], 0, job, WORKER.capabilities, {CPU}).Some?;
    SelectFromFirst([BACKEND], job.candidates, job, WORKER.capabilities, {CPU});
  }

  /** The only worker is offered every planned stage it has a slot for. */
  lemma SoleWorkerOffered(s: Store, r: StageRef)
    requires Inv(s) && s.workers == map[0 := WORKER] && s.backends == [BACKEND]
    requires Grantable(s, r) && Simple(StageAt(s, r).spec) && s.tasks[r.task].request == REQUEST
    requires |HeldBy(s, 0)| < 2
    ensures Offer(s, 0, r).Some?
  {
    hide Inv, Offer, HeldBy, Preferred;
    CapPositive(s);
    SoleWorkerPreferred(MarketOf(s), JobAt(s, r));
    OfferIffPreferred(s, 0, r);
  }

  lemma SoleWorkerPreferred(m: Market, job: Job)
    requires m.workers == map[0 := WORKER] && m.backends == [BACKEND] && 0.0 < m.cap && m.Active(0) < 2
    requires job.source == Some(SOURCE) && 0 in job.candidates && CPU in job.required
    requires job.labels == map[] && job.floor == None
    ensures Preferred(m, 0, job)
  {
    hide SelectBackend, AvailableRuntimes, Score;
    WorkerRuntimes(m.cap);
    Served(job);
    assert Rank(m, 0, job).Some?;
  }

  lemma NoDependencies(stages: seq<Stage>, i: nat)
    requires i < |stages| && stages[i].spec.dependsOn == []
    ensures DependenciesDone(stages, i)
  {
  }

  lemma NothingHeldYet(s: Store)
    requires Routed(s)
    ensures HeldBy(s, 0) == {}
  {
    forall r | HasStage(s, r) ensures !Holds(s, r, 0) {
      assert r == STAGES[0] || r == STAGES[1];
    }
  }

  /** The stage is leased on its only attempt. */
  ghost predicate OnLastAttempt(s: Store, r: StageRef) {
    && HasStage(s, r) && StageAt(s, r).status.Leased? && StageAt(s, r).attempt == 1 && Simple(StageAt(s, r).spec)
    && StageAt(s, r).expiresAt == Some(LeaseExpiry(s, 0.0))
  }

  lemma RoutedLeasable(s: Store)
    requires Routed(s)
    ensures Leasable(s, STAGES, 0.0) && Grantable(s, STAGES[0]) && Grantable(s, STAGES[1])
    ensures FreeSlots(s, 0, 2) == 2 && Tick(s, 0.0) == s
  {
    NoDependencies(s.tasks[0].stages, 0);
    NoDependencies(s.tasks[0].stages, 1);
    NothingHeldYet(s);
    assert STAGES[0] != STAGES[1];
  }

  /** Both stages pass the loop. */
  lemma BothGranted(s: Store) returns (g: Granting)
    requires Inv(s) && Routed(s)
    ensures LeaseLoop(Granting(s, []), 0, STAGES, 2, 0.0) == Success(g) && |g.leases| == 2
    ensures g.leases[0].stage == STAGES[0] && g.leases[1].stage == STAGES[1]
    ensures HasStage(g.store, STAGES[0]) && Simple(StageAt(g.store, STAGES[0]).spec)
    ensures HasStage(g.store, STAGES[1]) && Simple(StageAt(g.store, STAGES[1]).spec)
  {
    hide Inv, Offer, Grant, GrantEffect, Leasable, HeldBy, LeaseLoop, Simple;
    RoutedLeasable(s);
    NothingHeldYet(s);
    SoleWorkerOffered(s, STAGES[0]);
    var start := Granting(s, []);
    var p := Offer(s, 0, STAGES[0]).value;
    var n := LeaseTurn(start, 0, STAGES, p, 0.0);
    SecondOffered(s, n.store, p);
    var q := Offer(n.store, 0, STAGES[1]).value;
    assert STAGES[1..] == [STAGES[1]];
    g := LeaseTurn(n, 0, STAGES[1..], q, 0.0);
    GrantSpecs(s, n.store, STAGES[0], p);
    GrantSpecs(n.store, g.store, STAGES[1], q);
    LoopOfTwo(start, n, g, p, q);
  }

  lemma LoopOfTwo(start: Granting, n: Granting, g: Granting, p: Placement, q: Placement)
    requires 0 in start.store.workers && 0 in n.store.workers
    requires |start.leases| == 0 && |n.leases| == 1 && |g.leases| == 2
    requires HasStage(start.store, STAGES[0]) && Offer(start.store, 0, STAGES[0]) == Some(p)
    requires HasStage(n.store, STAGES[1]) && Offer(n.store, 0, STAGES[1]) == Some(q)
    requires Grant(start, 0, STAGES[0], p, 0.0) == Success(n) && Grant(n, 0, STAGES[1], q, 0.0) == Success(g)
    ensures LeaseLoop(start, 0, STAGES, 2, 0.0) == Success(g)
  {
    hide Offer, Grant;
    assert STAGES[1..] == [STAGES[1]] && [STAGES[1]][1..] == [];
    assert LeaseLoop(g, 0, [], 2, 0.0) == Success(g);
    assert LeaseLoop(n, 0, [STAGES[1]], 2, 0.0) == LeaseLoop(g, 0, [], 2, 0.0);
  }

  lemma GrantSpecs(s: Store, n: Store, r: StageRef, p: Placement)
    requires GrantEffect(s, n, 0, r, p, 0.0)
    ensures forall q :: HasStage(s, q) ==> HasStage(n, q) && StageAt(n, q).spec == StageAt(s, q).spec
    ensures n.workers == s.workers
  {
  }

  lemma SecondOffered(s: Store, n: Store, p: Placement)
    requires Routed(s) && Inv(n) && GrantEffect(s, n, 0, STAGES[0], p, 0.0)
    ensures HasStage(n, STAGES[1]) && 0 in n.workers && Offer(n, 0, STAGES[1]).Some?
  {
    hide Inv, Offer, HeldBy;
    RoutedLeasable(s);
    NothingHeldYet(s);
    GrantStays(s, n, 0, STAGES[0], p, 0.0, STAGES[1]);
    GrantSpecs(s, n, STAGES[0], p);
    GrantCounts(s, n, 0, STAGES[0], p, 0.0);
    SoleWorkerOffered(n, STAGES[1]);
  }

  lemma LastAttempt(s: Store, l: Lease)
    requires Inv(s) && Describes(s, l, 0) && Simple(StageAt(s, l.stage).spec) && l.expiresAt == LeaseExpiry(s, 0.0)
    ensures OnLastAttempt(s, l.stage)
  {
    StageHolds(s, l.stage);
  }

  lemma LeasedStep(s: Store) returns (leases: seq<Lease>)
    requires Inv(s) && Routed(s)
    ensures var done := StepLease(s, 0, 2, STAGES, 0.0);
      && done.reply == Leases(leases) && |leases| == 2 && Inv(done.store)
      && done.store.clock == 0.0 && done.store.config == s.config
      && leases[0].stage == STAGES[0] && Describes(done.store, leases[0], 0)
      && leases[0].expiresAt == LeaseExpiry(done.store, 0.0)
      && OnLastAttempt(done.store, STAGES[0]) && OnLastAttempt(done.store, STAGES[1])
  {
    hide Inv, StepLease, LeaseLoop, Leasable, Describes, Admitted, Simple, HeldBy, Routed, OnLastAttempt, Planned;
    RoutedLeasable(s);
    RoutedPolls(s);
    LeaseStepKeeps(s, 0, 2, STAGES, 0.0);
    LeasesTrue(s, 0, 2, STAGES, 0.0);
    LeaseShape(s, 0, 2, STAGES, 0.0);
    LeaseClock(s, 0, 2, STAGES, 0.0);
    var g := BothGranted(s);
    var done := StepLease(s, 0, 2, STAGES, 0.0);
    leases := g.leases;
    assert done.reply.leases == g.leases && g.leases[0] in g.leases && g.leases[1] in g.leases;
    SpecsOf(g.store, done.store);
    LastAttempt(done.store, g.leases[0]);
    LastAttempt(done.store, g.leases[1]);
  }

  lemma RoutedPolls(s: Store)
    requires Routed(s)
    ensures s.clock == 0.0 && Polls(s, 0, 2)
  {
    hide HeldBy;
    RoutedLeasable(s);
  }

  lemma SpecsOf(a: Store, b: Store)
    requires a.tasks == b.tasks && HasStage(a, STAGES[0]) && HasStage(a, STAGES[1])
    ensures HasStage(b, STAGES[0]) && StageAt(b, STAGES[0]) == StageAt(a, STAGES[0])
    ensures HasStage(b, STAGES[1]) && StageAt(b, STAGES[1]) == StageAt(a, STAGES[1])
  {
  }

  // ---------- the pass ----------

  lemma PassBlocked(s: Store)
    requires Inv(s) && s.clock == 0.0 && OnLastAttempt(s, STAGES[0]) && OnLastAttempt(s, STAGES[1])
    ensures Admissible(s, RequeueExpired(STAGES, LeaseExpiry(s, 0.0)))
    ensures StepRequeue(s, STAGES, LeaseExpiry(s, 0.0)).reply == Raised(StageConflict)
  {
    hide Inv, StepRequeue, Expired, Blocked, OnLastAttempt;
    LeasePositive(s);
    BothExpired(s);
    PassRaisesIff(s, STAGES, LeaseExpiry(s, 0.0));
  }

  lemma LeasePositive(s: Store)
    requires Inv(s)
    ensures 0.0 <= LeaseExpiry(s, 0.0)
  {
  }

  lemma BothExpired(s: Store)
    requires OnLastAttempt(s, STAGES[0]) && OnLastAttempt(s, STAGES[1])
    ensures Expired(s, STAGES, LeaseExpiry(s, 0.0)) && Blocked(s, STAGES)
  {
    assert STAGES[0] != STAGES[1];
    assert Blocks(s, STAGES, 0, 1);
  }

  // ---------- the run ----------

  const ROUTE := Route(0, Some(PIPELINE_ID), 0.0)
  const LEASE := AcquireLeases(0, 2, STAGES, 0.0)

  function Leasing(): seq<Action> {
    Prepare(TwoStageScene()) + [ROUTE] + [LEASE]
  }

  /** From the empty control plane both stages of the task are leased to the one worker. */
  lemma LeasedRun(s: Store) returns (leases: seq<Lease>)
    requires Initial(s) && s.clock == 0.0
    ensures Feasible(s, Leasing()) && |Leasing()| == 6
    ensures Step(Run(s, Leasing()[..5]), LEASE).reply == Leases(leases) && |leases| == 2
    ensures leases[0].stage == STAGES[0] && Describes(Run(s, Leasing()), leases[0], 0)
    ensures var n := Run(s, Leasing());
      && Inv(n) && n.clock == 0.0 && n.config == s.config && leases[0].expiresAt == LeaseExpiry(n, 0.0)
      && OnLastAttempt(n, STAGES[0]) && OnLastAttempt(n, STAGES[1])
  {
    hide Run, Feasible, Routed, Prepared, OnLastAttempt, Inv, StepRoute, StepLease, SceneValid, Describes;
    InitialInv(s);
    SceneHolds();
    var scene := TwoStageScene();
    PreparedRun(s, scene);
    var routed := Prepare(scene) + [ROUTE];
    Routable(Run(s, Prepare(scene)), scene);
    RoutedStep(Run(s, Prepare(scene)));
    Longer(s, Prepare(scene), ROUTE);
    RunKeeps(s, routed);
    LeaseAdmissible(Run(s, routed));
    leases := LeasedStep(Run(s, routed));
    Longer(s, routed, LEASE);
    assert Leasing()[..5] == routed;
  }

  /** From the empty control plane: two leases are handed out, expire together, and the requeue pass raises. */
  lemma BlockedRun(s: Store) returns (actions: seq<Action>)
    requires Initial(s) && s.clock == 0.0
    ensures Feasible(s, actions) && |actions| == 7 && actions[5].AcquireLeases? && actions[6].RequeueExpired?
    ensures var lease := Step(Run(s, actions[..5]), actions[5]).reply; lease.Leases? && |lease.leases| == 2
    ensures Step(Run(s, actions[..6]), actions[6]).reply == Raised(StageConflict)
  {
    hide Run, Feasible, OnLastAttempt, Inv, StepLease, StepRequeue, Describes;
    var leases := LeasedRun(s);
    var pass := RequeueExpired(STAGES, LeaseExpiry(Run(s, Leasing()), 0.0));
    PassBlocked(Run(s, Leasing()));
    Longer(s, Leasing(), pass);
    actions := Leasing() + [pass];
    assert actions[..5] == Leasing()[..5] && actions[..6] == Leasing();
  }

  lemma LeaseAdmissible(s: Store)
    requires Routed(s)
    ensures Admissible(s, AcquireLeases(0, 2, STAGES, 0.0))
  {
    RoutedLeasable(s);
  }
}

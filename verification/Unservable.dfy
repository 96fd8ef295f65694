/**
 Router and scheduler read a capability differently: the router accepts a category or a
 MIME match, the scheduler lets MIME patterns decide alone when there are any.  A stage
 planned under the first rule and refused under the second waits for ever.
 */
module Unservable {
  import opened Common
  import opened PipelineDag
  import opened Records
  import opened Selection
  import opened Lifecycle
  import opened TaskInvariant
  import opened Movement
  import opened Protocol
  import opened SystemInvariant
  import opened Effects
  import opened Capacity
  import opened Fencing
  import opened Liveness
  import opened Scenes
  import Router

  /** Every worker advertises what is registered, and nothing registered handles the source. */
  ghost predicate Refused(s: Store, r: StageRef) {
    && HasStage(s, r)
    && (forall w :: w in s.workers ==> Router.Registered(s.backends, s.workers[w].capabilities))
    && (JobAt(s, r).source.Some? ==> Router.Unhandled(s.backends, JobAt(s, r).candidates, JobAt(s, r).source.value))
  }

  /** The stage has not been handed out since it was planned or reset. */
  ghost predicate Waiting(s: Store, r: StageRef) {
    HasStage(s, r) && (StageAt(s, r).status.Pending? || StageAt(s, r).status.Cancelled?)
  }

  /** A refused stage is offered to nobody. */
  lemma NeverOffered(s: Store, w: WorkerId, r: StageRef)
    requires Refused(s, r) && w in s.workers
    ensures Offer(s, w, r).None?
  {
    hide Preferred, SelectBackend, SelectDevice, AvailableRuntimes, HeldBy, DeviceCounts, LabelsMatch;
    var worker, job := s.workers[w], JobAt(s, r);
    Router.UnhandledRefused(
      s.backends, job, worker.capabilities, AvailableRuntimes(worker, job.floor, s.config.memoryCap));
  }

  lemma RefusedStays(s: Store, n: Store, r: StageRef)
    requires Refused(s, r) && SameTerms(s, n, r)
    ensures Refused(n, r)
  {
  }

  lemma {:induction false} LoopSkips(
    g: Granting, w: WorkerId, pending: seq<StageRef>, slots: nat, now: Time, r: StageRef)
    requires Inv(g.store) && g.store.clock <= now && Leasable(g.store, pending, now) && Refused(g.store, r)
    requires HasStage(g.store, r)
    ensures var n := LeaseLoop(g, w, pending, slots, now);
      n.Success? && HasStage(n.value.store, r) && StageAt(n.value.store, r) == StageAt(g.store, r)
    decreases |pending|
  {
    hide Inv, Offer, Grant, GrantEffect, Leasable, Refused;
    if pending != [] && |g.leases| < slots && w in g.store.workers && HasStage(g.store, pending[0]) {
      var p := Offer(g.store, w, pending[0]);
      NeverOffered(g.store, w, r);
      if p.Some? {
        var n := LeaseTurn(g, w, pending, p.value, now);
        GrantStays(g.store, n.store, w, pending[0], p.value, now, r);
        GrantHolds(g.store, n.store, w, pending[0], p.value, now, r, w);
        RefusedStays(g.store, n.store, r);
        LoopSkips(n, w, pending[1..], slots, now, r);
      } else {
        LeasableTail(g.store, pending, now);
        LoopSkips(g, w, pending[1..], slots, now, r);
      }
    }
  }

  lemma LeaseSkips(s: Store, w: WorkerId, requested: nat, pending: seq<StageRef>, now: Time, r: StageRef)
    requires Inv(s) && s.clock <= now && Leasable(s, pending, now) && Refused(s, r) && Waiting(s, r)
    ensures Waiting(StepLease(s, w, requested, pending, now).store, r)
  {
    hide Inv, LeaseLoop, Leasable, StepLease, HeldBy, Refused;
    TickKeeps(s, now);
    TickLeasable(s, pending, now);
    LeaseShape(s, w, requested, pending, now);
    if Polls(s, w, requested) {
      RefusedTick(s, now, r);
      LoopSkips(Granting(Tick(s, now), []), w, pending, FreeSlots(s, w, requested), now, r);
    }
  }

  lemma RefusedTick(s: Store, now: Time, r: StageRef)
    requires Refused(s, r)
    ensures HasStage(s, r) && Refused(Tick(s, now), r)
  {
    assert JobAt(Tick(s, now), r) == JobAt(s, r);
  }

  lemma StillWaiting(s: Store, n: Store, r: StageRef)
    requires Still(s, n) && Waiting(s, r)
    ensures Waiting(n, r)
  {
    assert AllFlowed(s.tasks[r.task].stages, n.tasks[r.task].stages);
    assert Flowed(s.tasks[r.task].stages[r.position], n.tasks[r.task].stages[r.position]);
  }

  lemma RetryWaiting(s: Store, id: TaskId, now: Time, r: StageRef)
    requires Waiting(s, r)
    ensures Waiting(StepRetry(s, id, now).store, r)
  {
    hide ResetAll;
    if id in s.tasks {
      RetryMoves(s.tasks[id], now);
      var u := RetryTask(s.tasks[id], now);
      if u.Success? && id == r.task {
        assert Reset(s.tasks[id].stages[r.position], u.value.stages[r.position]);
      }
    }
  }

  lemma RouteWaiting(s: Store, id: TaskId, choice: Option<PipelineRef>, now: Time, r: StageRef)
    requires Waiting(s, r)
    ensures Waiting(StepRoute(s, id, choice, now).store, r)
  {
  }

  /** While it is refused, no action hands the stage out, finishes it or fails it. */
  lemma WaitingStep(s: Store, a: Action, r: StageRef)
    requires Inv(s) && Admissible(s, a) && Refused(s, r) && Waiting(s, r)
    ensures Waiting(Step(s, a).store, r)
  {
    hide Inv, Refused;
    if !HandsOut(a) {
      StillStep(s, a);
      StillWaiting(s, Step(s, a).store, r);
    } else if a.AcquireLeases? {
      LeaseSkips(s, a.worker, a.slots, a.pending, a.now, r);
    } else if a.Retry? {
      RetryWaiting(s, a.task, a.now, r);
    } else if a.Route? {
      RouteWaiting(s, a.task, a.choice, a.now, r);
    }
  }

  /** A task with a waiting stage has not succeeded. */
  lemma WaitingUnfinished(s: Store, r: StageRef)
    requires Inv(s) && Waiting(s, r)
    ensures !s.tasks[r.task].status.Succeeded?
  {
    TaskHolds(s, r.task);
    SucceededIffDone(s.tasks[r.task], s.clock);
  }

  /**
   Over every run in which the workers advertise what is registered and nothing registered
   handles the source, the stage is never handed out and its task never succeeds.
   */
  lemma {:induction false} WaitingForever(s: Store, actions: seq<Action>, i: nat, j: nat, r: StageRef)
    requires Inv(s) && Feasible(s, actions) && i <= j <= |actions| && Waiting(Run(s, actions[..i]), r)
    requires forall k :: i <= k < j ==> Refused(Run(s, actions[..k]), r)
    ensures Waiting(Run(s, actions[..j]), r)
    ensures !Run(s, actions[..j]).tasks[r.task].status.Succeeded?
    decreases j
  {
    hide Inv, Feasible, Admissible, Run, Step, Refused;
    if i < j {
      WaitingForever(s, actions, i, j - 1, r);
      Midway(s, actions, j - 1);
      WaitingStep(Run(s, actions[..j - 1]), actions[j - 1], r);
    }
    FeasiblePrefix(s, actions, j);
    RunKeeps(s, actions[..j]);
    WaitingUnfinished(Run(s, actions[..j]), r);
  }

  // ---------- such a plan ----------

  const KEY := BackendKey(Label("pdf"), "1")
  const PDF := Capability({Document}, [Mime("application", "pdf")], [CPU])
  const BACKEND := Backend(0, KEY, PDF, true)
  const WORKER := Worker(true, Online, 1, 1, [Device(0, CPU, None)], map[], map[KEY := PDF], map[], None)
  const RTF := SourceMetadata(Mime("application", "rtf"), Document)
  const OPTIONS := TaskOptions(map[], None, Auto, [], None)
  const REQUEST := CreateRequest(Some(RTF), OPTIONS, None, None, 0)
  const STAGE := StageRef(0, 0)

  function Parse(): Router.StageDefinition {
    Router.StageDefinition(Name("parse"), Label("pdf"), [], [], [], 1, RetryPolicy(0.0, 0.0, 1.0), false)
  }

  function RtfScene(): Scene {
    Scene(WORKER, BACKEND, Router.Pipeline({Document}, [], [Parse()]), REQUEST)
  }

  lemma RtfSceneValid()
    ensures SceneValid(RtfScene()) && Router.DefinitionValid(Parse()) && Router.TableValid([BACKEND])
  {
    hide WellFormed;
    var p := RtfScene().pipeline;
    IndependentNodes(Router.DefinitionNodes(p.stages));
    forall i | 0 <= i < |p.stages| ensures Router.DefinitionValid(p.stages[i]) {
    }
  }

  lemma RtfUnhandled()
    ensures !Handles(PDF, RTF) && Router.SupportsSource(BACKEND, RTF)
  {
    assert |"pdf"| == 3 && |"rtf"| == 3 && |"*"| == 1 && "pdf"[0] != "rtf"[0];
  }

  /** The router plans the stage by category; no worker that advertises what is registered can be handed it. */
  lemma UnservablePlan(offered: map<BackendKey, Capability>, runtimes: set<Runtime>, now: Time)
    requires Router.Registered([BACKEND], offered)
    ensures var s := Router.PlanStage([BACKEND], Parse(), 0, OPTIONS, RTF, now);
      && s.Success? && s.value.status.Pending? && s.value.spec.candidates != []
      && Router.Unhandled([BACKEND], s.value.spec.candidates, RTF)
      && SelectBackend([BACKEND], Router.PlannedJob(s.value, RTF, map[], None), offered, runtimes).None?
  {
    RtfSceneValid();
    RtfUnhandled();
    Router.CandidateProperties([BACKEND], Parse(), OPTIONS, RTF);
    assert BACKEND in [BACKEND] && CPU in Elements(PDF.runtimes);
    assert Router.Usable(BACKEND, Parse(), OPTIONS, RTF);
    assert BACKEND in Router.Candidates([BACKEND], Parse(), OPTIONS, RTF);
    Router.PlannedStage([BACKEND], Parse(), 0, OPTIONS, RTF, now);
    var s := Router.PlanStage([BACKEND], Parse(), 0, OPTIONS, RTF, now).value;
    hide Handles;
    Router.UnhandledRefused([BACKEND], Router.PlannedJob(s, RTF, map[], None), offered, runtimes);
  }

  lemma RoutedStep(s: Store)
    requires Prepared(s, RtfScene())
    ensures var n := StepRoute(s, 0, Some(PIPELINE_ID), 0.0).store; Refused(n, STAGE) && Waiting(n, STAGE)
  {
    RtfSceneValid();
    UnservablePlan(WORKER.capabilities, {}, 0.0);
    var defs := [Parse()];
    Router.PlanImage([BACKEND], defs, OPTIONS, RTF, 0.0);
    hide Router.PlanStages, Router.PlanStage, Router.Candidates, Router.Unhandled, Handles;
    assert defs[0] == Parse();
    CandidatesThere(0.0);
    assert Router.Plannable([BACKEND], defs, OPTIONS, RTF);
    var plan := Router.PlanStages([BACKEND], defs, OPTIONS, RTF, 0.0).value;
    assert Router.PlanStage([BACKEND], defs[0], 0, OPTIONS, RTF, 0.0) == Success(plan[0]);
  }

  lemma CandidatesThere(now: Time)
    ensures Router.PlanStage([BACKEND], Parse(), 0, OPTIONS, RTF, now).Success? ==>
      Router.Candidates([BACKEND], Parse(), OPTIONS, RTF) != []
  {
  }

  /**
   From the empty control plane: a task is created and routed, the only worker advertises
   the only backend as registered, and the stage is refused; by `WaitingForever` it stays so
   however the run goes on with these tables.
   */
  lemma UnservableRun(s: Store) returns (actions: seq<Action>)
    requires Initial(s) && s.clock == 0.0
    ensures Feasible(s, actions) && Inv(Run(s, actions))
    ensures Refused(Run(s, actions), STAGE) && Waiting(Run(s, actions), STAGE)
  {
    hide Feasible, Run, Inv, Refused, Waiting, Prepared, StepRoute, SceneValid;
    InitialInv(s);
    RtfSceneValid();
    var scene := RtfScene();
    PreparedRun(s, scene);
    Routable(Run(s, Prepare(scene)), scene);
    RoutedStep(Run(s, Prepare(scene)));
    actions := Prepare(scene) + [Route(0, Some(PIPELINE_ID), 0.0)];
    Longer(s, Prepare(scene), Route(0, Some(PIPELINE_ID), 0.0));
    RunKeeps(s, actions);
  }
}

/** Setting the scene for concrete runs: from the empty control plane to one created task. */
module Scenes {
  import opened Common
  import opened PipelineDag
  import opened Records
  import opened Protocol
  import opened SystemInvariant
  import Router

  /** One worker, one backend, one pipeline, and the request of one task. */
  datatype Scene = Scene(worker: Worker, backend: Backend, pipeline: Router.Pipeline, request: CreateRequest)

  const PIPELINE_ID := PipelineRef(0, 0)

  ghost predicate SceneValid(c: Scene) {
    && WorkerValid(c.worker) && Router.TableValid([c.backend]) && Router.PipelineValid(c.pipeline)
    && OptionsValid(c.request.options) && c.request.pipelineId.None? && c.request.pipelineVersion.None?
    && c.request.source.Some? && Router.PipelineSupports(c.pipeline, c.request.source.value)
  }

  lemma IndependentNodes(nodes: seq<Node>)
    requires UniqueNames(nodes) && forall i :: 0 <= i < |nodes| ==> nodes[i].dependsOn == []
    ensures WellFormed(nodes)
  {
    var g := GraphOf(nodes);
    GraphKeys(nodes);
    forall n | n in g ensures g[n] == {} {
      var i :| 0 <= i < |nodes| && nodes[i].name == n;
      GraphAt(nodes, i);
    }
    forall p ensures !Cycle(g, p) {
      if |p| >= 2 && p[0] in g {
        assert p[0 + 1] !in g[p[0]];
      }
    }
  }

  // ---------- runs, one action at a time ----------

  lemma Longer(s: Store, actions: seq<Action>, a: Action)
    requires Feasible(s, actions) && Admissible(Run(s, actions), a)
    ensures Feasible(s, actions + [a]) && Run(s, actions + [a]) == Step(Run(s, actions), a).store
  {
    hide Admissible, Step;
    var more := actions + [a];
    assert more[..|more| - 1] == actions;
    forall i | 0 <= i < |more| ensures Admissible(Run(s, more[..i]), more[i]) {
      assert i < |actions| ==> more[..i] == actions[..i];
      assert i == |actions| ==> more[..i] == actions;
    }
  }

  lemma EmptyFeasible(s: Store)
    ensures Feasible(s, []) && Run(s, []) == s
  {
  }

  // ---------- the four actions ----------

  function First(c: Scene): Action {
    SetWorker(0, c.worker, 0.0)
  }

  function Second(c: Scene): Action {
    SetBackends([c.backend], 0.0)
  }

  function Third(c: Scene): Action {
    SetPipeline(PIPELINE_ID, Some(c.pipeline), 0.0)
  }

  function Fourth(c: Scene): Action {
    Create(0, c.request, None, 0.0)
  }

  function Prepare(c: Scene): seq<Action> {
    [First(c), Second(c), Third(c), Fourth(c)]
  }

  /** The tables are in place and no task exists. */
  ghost predicate Stocked(s: Store, c: Scene) {
    && s.workers == map[0 := c.worker] && s.backends == [c.backend] && s.clock == 0.0 && s.tasks == map[]
    && PIPELINE_ID in s.pipelines && s.pipelines[PIPELINE_ID] == c.pipeline
  }

  /** The task is created as well, and nothing has been routed or handed out. */
  ghost predicate Prepared(s: Store, c: Scene) {
    && s.workers == map[0 := c.worker] && s.backends == [c.backend] && s.clock == 0.0
    && PIPELINE_ID in s.pipelines && s.pipelines[PIPELINE_ID] == c.pipeline
    && s.tasks.Keys == {0} && s.tasks[0] == NewTask(c.request, None, 0.0)
  }

  lemma StockSteps(s: Store, c: Scene)
    requires Initial(s) && s.clock == 0.0 && SceneValid(c)
    ensures Admissible(s, First(c))
    ensures Admissible(Step(s, First(c)).store, Second(c))
    ensures Admissible(Step(Step(s, First(c)).store, Second(c)).store, Third(c))
    ensures var n := Step(Step(Step(s, First(c)).store, Second(c)).store, Third(c)).store;
      Stocked(n, c) && n.config == s.config
  {
    hide Router.PipelineValid, Router.TableValid, WorkerValid;
  }

  lemma StockedRun(s: Store, c: Scene)
    requires Initial(s) && s.clock == 0.0 && SceneValid(c)
    ensures var actions := [First(c), Second(c), Third(c)];
      Feasible(s, actions) && Stocked(Run(s, actions), c) && Run(s, actions).config == s.config
  {
    hide Feasible, Run, Admissible, Step, Stocked, SceneValid;
    StockSteps(s, c);
    EmptyFeasible(s);
    var first, second, third := First(c), Second(c), Third(c);
    Longer(s, [], first);
    assert [] + [first] == [first];
    Longer(s, [first], second);
    assert [first] + [second] == [first, second];
    Longer(s, [first, second], third);
    assert [first, second] + [third] == [first, second, third];
  }

  lemma CreateStep(s: Store, c: Scene)
    requires Stocked(s, c) && SceneValid(c)
    ensures Admissible(s, Fourth(c))
    ensures Prepared(Step(s, Fourth(c)).store, c) && Step(s, Fourth(c)).store.config == s.config
  {
    assert TasksWithKey(s, None) == {};
  }

  /** The scene can be set from the empty control plane. */
  lemma PreparedRun(s: Store, c: Scene)
    requires Initial(s) && s.clock == 0.0 && SceneValid(c)
    ensures Feasible(s, Prepare(c)) && Prepared(Run(s, Prepare(c)), c) && Run(s, Prepare(c)).config == s.config
  {
    hide Feasible, Run, Stocked, Prepared, Admissible, Step, SceneValid;
    StockedRun(s, c);
    CreateStep(Run(s, [First(c), Second(c), Third(c)]), c);
    Longer(s, [First(c), Second(c), Third(c)], Fourth(c));
    assert [First(c), Second(c), Third(c)] + [Fourth(c)] == Prepare(c);
  }

  lemma Routable(s: Store, c: Scene)
    requires Prepared(s, c) && SceneValid(c)
    ensures Admissible(s, Route(0, Some(PIPELINE_ID), 0.0))
  {
  }
}

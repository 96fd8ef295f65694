/** Turning a pipeline definition into the immutable stage plan of a task. */
module Router {
  import opened Common
  import opened TaskState
  import opened PipelineDag
  import opened Records
  import opened Selection
  import TaskInvariant

  /** First occurrences, in order. */
  function Dedup<T(==)>(s: seq<T>): seq<T> {
    if s == [] then []
    else
      var front := Dedup(s[..|s| - 1]);
      if s[|s| - 1] in front then front else front + [s[|s| - 1]]
  }

  lemma {:induction false} DedupProperties<T>(s: seq<T>)
    ensures Distinct(Dedup(s)) && forall x :: x in Dedup(s) <==> x in s
  {
    if s != [] {
      DedupProperties(s[..|s| - 1]);
      assert s == s[..|s| - 1] + [s[|s| - 1]];
    }
  }

  // ---------- definitions ----------

  datatype StageDefinition = StageDefinition(
    name: Name,
    preferred: Label,
    fallbacks: seq<Label>,
    requiredRuntimes: seq<Runtime>,
    dependsOn: seq<Name>,
    maximumAttempts: nat,
    retry: RetryPolicy,
    optional: bool
  )

  datatype Pipeline = Pipeline(categories: set<Media>, mimes: seq<Mime>, stages: seq<StageDefinition>)

  function Selector(d: StageDefinition): seq<Label> {
    [d.preferred] + d.fallbacks
  }

  /** The field validators of one stage definition. */
  ghost predicate DefinitionValid(d: StageDefinition) {
    && Distinct(Selector(d)) && Distinct(d.requiredRuntimes) && Distinct(d.dependsOn)
    && 1 <= d.maximumAttempts <= 20 && RetryValid(d.retry)
  }

  function DefinitionNodes(stages: seq<StageDefinition>): seq<Node> {
    seq(|stages|, i requires 0 <= i < |stages| => Node(stages[i].name, stages[i].dependsOn))
  }

  /** What loading a stored definition validates, the dependency check included. */
  ghost predicate PipelineValid(p: Pipeline) {
    && p.stages != []
    && (forall i :: 0 <= i < |p.stages| ==> DefinitionValid(p.stages[i]))
    && WellFormed(DefinitionNodes(p.stages))
  }

  predicate PipelineSupports(p: Pipeline, source: SourceMetadata) {
    && source.category in p.categories
    && (p.mimes == [] || exists m :: m in p.mimes && MimesOverlap(m, source.mime))
  }

  /** Identifiers and (name, version) pairs are unique in the backend table. */
  ghost predicate TableValid(table: seq<Backend>) {
    && (forall i, j :: 0 <= i < |table| && 0 <= j < |table| && table[i].id == table[j].id ==> i == j)
    && (forall i, j :: 0 <= i < |table| && 0 <= j < |table| && table[i].key == table[j].key ==> i == j)
  }

  // ---------- candidates ----------

  predicate Listed(b: Backend, name: Label) {
    b.enabled && b.key.name == name
  }

  /** The enabled versions of one backend, in table order. */
  function Group(table: seq<Backend>, name: Label): seq<Backend> {
    Filter(table, (b: Backend) => Listed(b, name))
  }

  /** `enabled_by_names`: grouped in the order of the names, table order within a group. */
  function EnabledByNames(table: seq<Backend>, names: seq<Label>): seq<Backend> {
    if names == [] then []
    else Group(table, names[0]) + EnabledByNames(table, names[1..])
  }

  predicate SupportsSource(b: Backend, source: SourceMetadata) {
    || source.category in b.capability.categories
    || exists m :: m in b.capability.mimes && MimesOverlap(m, source.mime)
  }

  /** `_runtime_compatible`. */
  predicate RuntimeCompatible(offered: seq<Runtime>, stage: seq<Runtime>, task: seq<Runtime>, strategy: Strategy) {
    var allowed := Elements(offered);
    var staged := if stage != [] then allowed * Elements(stage) else allowed;
    (if strategy.Demand? && task != [] then staged * Elements(task) else staged) != {}
  }

  predicate RunsOn(b: Backend, runtimes: set<Runtime>) {
    Elements(b.capability.runtimes) * runtimes != {}
  }

  function Favoured(s: seq<Backend>, runtimes: set<Runtime>): seq<Backend> {
    Filter(s, (b: Backend) => RunsOn(b, runtimes))
  }

  function Others(s: seq<Backend>, runtimes: set<Runtime>): seq<Backend> {
    Filter(s, (b: Backend) => !RunsOn(b, runtimes))
  }

  /** The stable descending sort on "runs on a preferred runtime". */
  function PreferFirst(s: seq<Backend>, preferred: set<Runtime>): seq<Backend> {
    Favoured(s, preferred) + Others(s, preferred)
  }

  function RuntimesOf(s: seq<Backend>): seq<Runtime> {
    if s == [] then [] else s[0].capability.runtimes + RuntimesOf(s[1..])
  }

  function Within(s: seq<Runtime>, keep: seq<Runtime>): seq<Runtime> {
    Filter(s, r => r in keep)
  }

  function Without(s: seq<Runtime>, drop: seq<Runtime>): seq<Runtime> {
    Filter(s, r => r !in drop)
  }

  /** `_allowed_runtimes`. */
  function AllowedRuntimes(offered: seq<Runtime>, stage: seq<Runtime>, task: seq<Runtime>, strategy: Strategy)
    : seq<Runtime>
  {
    var unique := Dedup(offered);
    var staged := if stage != [] then Within(unique, stage) else unique;
    if strategy.Demand? && task != [] then Within(staged, task)
    else if strategy.Prefer? && task != [] then
      var preferred := Within(task, staged);
      preferred + Without(staged, preferred)
    else staged
  }

  /** The names a stage may use, or none when the task pins a backend the stage does not list. */
  function UsableNames(d: StageDefinition, o: TaskOptions): Option<seq<Label>> {
    if o.backendName.None? then Some(Selector(d))
    else if o.backendName.value in Selector(d) then Some([o.backendName.value])
    else None
  }

  predicate Suits(b: Backend, d: StageDefinition, o: TaskOptions, source: SourceMetadata) {
    SupportsSource(b, source) && RuntimeCompatible(b.capability.runtimes, d.requiredRuntimes, o.runtimes, o.strategy)
  }

  function Candidates(table: seq<Backend>, d: StageDefinition, o: TaskOptions, source: SourceMetadata): seq<Backend> {
    var names := UsableNames(d, o);
    if names.None? then []
    else
      var suited := Filter(EnabledByNames(table, names.value), (b: Backend) => Suits(b, d, o, source));
      if o.strategy.Prefer? && o.runtimes != [] then PreferFirst(suited, Elements(o.runtimes)) else suited
  }

  function Ids(s: seq<Backend>): seq<BackendId> {
    seq(|s|, i requires 0 <= i < |s| => s[i].id)
  }

  /** The stage row that routing inserts. */
  function PlannedRow(
    d: StageDefinition, position: nat, candidates: seq<Backend>, required: seq<Runtime>, now: Time): Stage
    requires candidates != []
  {
    Stage(
      StageSpec(d.name, position, d.dependsOn, d.optional, Ids(candidates), required, d.maximumAttempts, d.retry, now),
      StageStatus.Pending, 0.0, Some(candidates[0].id), None, None, None, 0, None, None, None, None, None, None,
      now, None, None, None, None, now)
  }

  function PlanStage(
    table: seq<Backend>, d: StageDefinition, position: nat, o: TaskOptions, source: SourceMetadata, now: Time)
    : Result<Stage>
  {
    var candidates := Candidates(table, d, o, source);
    if candidates == [] then Failure(RoutingUnavailable)
    else
      var required := AllowedRuntimes(RuntimesOf(candidates), d.requiredRuntimes, o.runtimes, o.strategy);
      Success(PlannedRow(d, position, candidates, required, now))
  }

  function PlanStages(
    table: seq<Backend>, defs: seq<StageDefinition>, o: TaskOptions, source: SourceMetadata, now: Time)
    : Result<seq<Stage>>
  {
    if defs == [] then Success([])
    else
      var n := |defs| - 1;
      var front := PlanStages(table, defs[..n], o, source, now);
      if front.Failure? then front
      else
        var last := PlanStage(table, defs[n], n, o, source, now);
        if last.Failure? then Failure(last.fault) else Success(front.value + [last.value])
  }

  /** `TaskRouter.route` on a pending task without stages, the pipeline being chosen. */
  function RouteTask(
    table: seq<Backend>, t: Task, choice: Option<Pipeline>, id: nat, version: nat, now: Time): Result<Task>
  {
    if !t.status.Pending? then Failure(TaskAlreadyRouted)
    else if t.stages != [] then Success(t)
    else if t.request.source.None? then Failure(SourceUnresolved)
    else if choice.None? then Failure(RoutingUnavailable)
    else
      var planned := PlanStages(table, choice.value.stages, t.request.options, t.request.source.value, now);
      if planned.Failure? then Failure(planned.fault)
      else
        Success(t.(
          stages := planned.value, pipelineId := Some(id), pipelineVersion := Some(version), updatedAt := now))
  }

  // ---------- the loops ----------

  lemma GroupStep(table: seq<Backend>, i: nat, name: Label)
    requires i < |table|
    ensures Group(table[..i + 1], name) == Group(table[..i], name) + (if Listed(table[i], name) then [table[i]] else [])
  {
    assert table[..i + 1] == table[..i] + [table[i]];
    FilterConcat(table[..i], [table[i]], (b: Backend) => Listed(b, name));
  }

  /** The grouping dictionary of `enabled_by_names`. */
  method GroupEnabled(table: seq<Backend>, names: seq<Label>) returns (listed: seq<Backend>)
    ensures listed == EnabledByNames(table, names)
  {
    var grouped: map<Label, seq<Backend>> := map[];
    for i := 0 to |names|
      invariant forall n :: n in grouped <==> n in names[..i]
      invariant forall n :: n in grouped ==> grouped[n] == []
    {
      grouped := grouped[names[i] := []];
    }
    for i := 0 to |table|
      invariant forall n :: n in grouped <==> n in names
      invariant forall n :: n in grouped ==> grouped[n] == Group(table[..i], n)
    {
      var b := table[i];
      forall n | n in grouped
        ensures Group(table[..i + 1], n) == grouped[n] + (if Listed(b, n) then [b] else [])
      {
        GroupStep(table, i, n);
      }
      if b.enabled && b.key.name in grouped {
        grouped := grouped[b.key.name := grouped[b.key.name] + [b]];
      }
    }
    assert table[..|table|] == table;
    listed := [];
    for i := 0 to |names|
      invariant listed + EnabledByNames(table, names[i..]) == EnabledByNames(table, names)
    {
      assert names[i..][1..] == names[i + 1..];
      listed := listed + grouped[names[i]];
    }
  }

  /** One turn of the loop of `route`. */
  method BuildStage(
    table: seq<Backend>, d: StageDefinition, position: nat, o: TaskOptions, source: SourceMetadata, now: Time)
    returns (stage: Result<Stage>)
    ensures stage == PlanStage(table, d, position, o, source, now)
  {
    var names := Selector(d);
    if o.backendName.Some? {
      if o.backendName.value !in names {
        return Failure(RoutingUnavailable);
      }
      names := [o.backendName.value];
    }
    var available := GroupEnabled(table, names);
    var candidates := Filter(available, (b: Backend) => Suits(b, d, o, source));
    if o.strategy.Prefer? && o.runtimes != [] {
      candidates := PreferFirst(candidates, Elements(o.runtimes));
    }
    assert candidates == Candidates(table, d, o, source);
    if candidates == [] {
      return Failure(RoutingUnavailable);
    }
    var required := AllowedRuntimes(RuntimesOf(candidates), d.requiredRuntimes, o.runtimes, o.strategy);
    return Success(PlannedRow(d, position, candidates, required, now));
  }

  /** The loop of `route` over the stage definitions. */
  method BuildPlan(table: seq<Backend>, defs: seq<StageDefinition>, o: TaskOptions, source: SourceMetadata, now: Time)
    returns (plan: Result<seq<Stage>>)
    ensures plan == PlanStages(table, defs, o, source, now)
  {
    var created: seq<Stage> := [];
    for i := 0 to |defs|
      invariant PlanStages(table, defs[..i], o, source, now) == Success(created)
    {
      assert defs[..i + 1][..i] == defs[..i];
      var stage := BuildStage(table, defs[i], i, o, source, now);
      if stage.Failure? {
        PlanFails(table, defs, i, o, source, now);
        return Failure(RoutingUnavailable);
      }
      created := created + [stage.value];
    }
    assert defs[..|defs|] == defs;
    return Success(created);
  }

  // ---------- what a plan promises ----------

  lemma {:induction false} EnabledProperties(table: seq<Backend>, names: seq<Label>)
    ensures forall b :: b in EnabledByNames(table, names) <==> b in table && b.enabled && b.key.name in names
    ensures Distinct(table) && Distinct(names) ==> Distinct(EnabledByNames(table, names))
  {
    if names != [] {
      EnabledProperties(table, names[1..]);
      var group := Group(table, names[0]);
      FilterElements(table, (b: Backend) => Listed(b, names[0]));
      if Distinct(table) && Distinct(names) {
        FilterDistinct(table, (b: Backend) => Listed(b, names[0]));
        forall b | b in group ensures b !in EnabledByNames(table, names[1..]) {
          assert names[0] !in names[1..];
        }
        DistinctConcat(group, EnabledByNames(table, names[1..]));
      }
    }
  }

  /** Sorting by preference permutes: preferred backends first, each class in its old order. */
  lemma PreferFirstStable(s: seq<Backend>, preferred: set<Runtime>)
    ensures var r := PreferFirst(s, preferred);
      && multiset(r) == multiset(s)
      && Favoured(r, preferred) == Favoured(s, preferred)
      && Others(r, preferred) == Others(s, preferred)
      && (forall i, j :: 0 <= i < j < |r| && RunsOn(r[j], preferred) ==> RunsOn(r[i], preferred))
  {
    var a, b := Favoured(s, preferred), Others(s, preferred);
    FilterElements(s, (x: Backend) => RunsOn(x, preferred));
    FilterElements(s, (x: Backend) => !RunsOn(x, preferred));
    Classes(a, b, preferred);
    PreferenceSplits(s, preferred);
    assert multiset(a + b) == multiset(a) + multiset(b);
    assert forall k :: 0 <= k < |a| ==> RunsOn(a[k], preferred);
    assert forall k :: 0 <= k < |b| ==> !RunsOn(b[k], preferred);
  }

  lemma Classes(a: seq<Backend>, b: seq<Backend>, preferred: set<Runtime>)
    requires forall x :: x in a ==> RunsOn(x, preferred)
    requires forall x :: x in b ==> !RunsOn(x, preferred)
    ensures Favoured(a + b, preferred) == a && Others(a + b, preferred) == b
  {
    FilterConcat(a, b, (x: Backend) => RunsOn(x, preferred));
    FilterUniform(a, (x: Backend) => RunsOn(x, preferred));
    FilterUniform(b, (x: Backend) => RunsOn(x, preferred));
    assert Favoured(a + b, preferred) == a + [];
    FilterConcat(a, b, (x: Backend) => !RunsOn(x, preferred));
    FilterUniform(a, (x: Backend) => !RunsOn(x, preferred));
    FilterUniform(b, (x: Backend) => !RunsOn(x, preferred));
    assert Others(a + b, preferred) == [] + b;
  }

  lemma {:induction false} PreferenceSplits(s: seq<Backend>, preferred: set<Runtime>)
    ensures multiset(Favoured(s, preferred)) + multiset(Others(s, preferred)) == multiset(s)
  {
    if s != [] {
      PreferenceSplits(s[1..], preferred);
      assert s == [s[0]] + s[1..];
    }
  }

  lemma CandidateProperties(table: seq<Backend>, d: StageDefinition, o: TaskOptions, source: SourceMetadata)
    requires TableValid(table) && DefinitionValid(d)
    ensures forall b :: b in Candidates(table, d, o, source) <==>
      b in table && b.enabled && Suits(b, d, o, source)
      && b.key.name in Selector(d) && (o.backendName.Some? ==> b.key.name == o.backendName.value)
    ensures Distinct(Candidates(table, d, o, source))
  {
    var names := UsableNames(d, o);
    if names.Some? {
      assert Distinct(table);
      assert Distinct(names.value);
      EnabledProperties(table, names.value);
      var suits := (b: Backend) => Suits(b, d, o, source);
      var all := EnabledByNames(table, names.value);
      FilterElements(all, suits);
      FilterDistinct(all, suits);
      var suited := Filter(all, suits);
      var preferred := Elements(o.runtimes);
      FilterElements(suited, (b: Backend) => RunsOn(b, preferred));
      FilterElements(suited, (b: Backend) => !RunsOn(b, preferred));
      FilterDistinct(suited, (b: Backend) => RunsOn(b, preferred));
      FilterDistinct(suited, (b: Backend) => !RunsOn(b, preferred));
      DistinctConcat(Favoured(suited, preferred), Others(suited, preferred));
    }
  }

  lemma {:induction false} RuntimesOfElements(s: seq<Backend>)
    ensures forall r :: r in RuntimesOf(s) <==> exists b :: b in s && r in b.capability.runtimes
  {
    if s != [] {
      RuntimesOfElements(s[1..]);
      assert s == [s[0]] + s[1..];
    }
  }

  /** No runtime twice, and exactly the offered ones that the stage and a demanding task allow. */
  lemma AllowedExactly(offered: seq<Runtime>, stage: seq<Runtime>, task: seq<Runtime>, strategy: Strategy)
    requires Distinct(task)
    ensures var r := AllowedRuntimes(offered, stage, task, strategy);
      && Distinct(r)
      && (forall x :: x in r <==>
            x in offered && (stage != [] ==> x in stage) && (strategy.Demand? && task != [] ==> x in task))
  {
    var unique := Dedup(offered);
    DedupProperties(offered);
    FilterElements(unique, r => r in stage);
    FilterDistinct(unique, r => r in stage);
    var staged := if stage != [] then Within(unique, stage) else unique;
    FilterElements(staged, r => r in task);
    FilterDistinct(staged, r => r in task);
    var preferred := Within(task, staged);
    FilterElements(task, r => r in staged);
    FilterDistinct(task, r => r in staged);
    FilterElements(staged, r => r !in preferred);
    FilterDistinct(staged, r => r !in preferred);
    DistinctConcat(preferred, Without(staged, preferred));
  }

  /**
   A preference never changes which runtimes are allowed: the preferred ones come first, in
   the order of the task, and the others follow in the order they had.
   */
  lemma PreferenceOnlyPermutes(offered: seq<Runtime>, stage: seq<Runtime>, task: seq<Runtime>)
    requires Distinct(task)
    ensures var plain, r := AllowedRuntimes(offered, stage, task, Auto), AllowedRuntimes(offered, stage, task, Prefer);
      && |r| == |plain| && Elements(r) == Elements(plain)
      && r == Within(task, plain) + Without(plain, task)
  {
    var plain, r := AllowedRuntimes(offered, stage, task, Auto), AllowedRuntimes(offered, stage, task, Prefer);
    AllowedExactly(offered, stage, task, Auto);
    AllowedExactly(offered, stage, task, Prefer);
    DistinctSize(plain);
    DistinctSize(r);
    assert Elements(r) == Elements(plain);
    if task == [] {
      FilterUniform(plain, x => x !in task);
    } else {
      var preferred := Within(task, plain);
      FilterElements(task, x => x in plain);
      FilterSame(plain, x => x !in preferred, x => x !in task);
    }
  }

  lemma {:induction false} DistinctSize<T>(s: seq<T>)
    requires Distinct(s)
    ensures |Elements(s)| == |s|
  {
    if s != [] {
      var n := |s| - 1;
      DistinctSize(s[..n]);
      assert s == s[..n] + [s[n]];
      assert Elements(s) == Elements(s[..n]) + {s[n]};
      assert s[n] !in s[..n];
    }
  }

  /** Every candidate keeps at least one of the planned runtimes. */
  lemma CandidateKeepsRuntime(
    table: seq<Backend>, d: StageDefinition, o: TaskOptions, source: SourceMetadata, b: Backend) returns (r: Runtime)
    requires TableValid(table) && DefinitionValid(d) && OptionsValid(o) && b in Candidates(table, d, o, source)
    ensures r in b.capability.runtimes
    ensures var offered := RuntimesOf(Candidates(table, d, o, source));
      r in AllowedRuntimes(offered, d.requiredRuntimes, o.runtimes, o.strategy)
  {
    var candidates := Candidates(table, d, o, source);
    CandidateProperties(table, d, o, source);
    RuntimesOfElements(candidates);
    AllowedExactly(RuntimesOf(candidates), d.requiredRuntimes, o.runtimes, o.strategy);
    var allowed := Elements(b.capability.runtimes);
    var staged := if d.requiredRuntimes != [] then allowed * Elements(d.requiredRuntimes) else allowed;
    r :| r in (if o.strategy.Demand? && o.runtimes != [] then staged * Elements(o.runtimes) else staged);
    assert r in RuntimesOf(candidates);
  }

  lemma DistinctIds(table: seq<Backend>, s: seq<Backend>)
    requires TableValid(table) && Distinct(s) && forall b :: b in s ==> b in table
    ensures Distinct(Ids(s))
  {
    forall i, j | 0 <= i < j < |s| ensures Ids(s)[i] != Ids(s)[j] {
      assert s[i] in table && s[j] in table;
      var k :| 0 <= k < |table| && table[k] == s[i];
      var l :| 0 <= l < |table| && table[l] == s[j];
      assert s[i] != s[j];
    }
  }

  /** The row of a definition: pending, available at once, and nothing on record but the first candidate. */
  ghost predicate PlannedFrom(s: Stage, d: StageDefinition, position: nat, now: Time) {
    && s.status.Pending? && s.attempt == 0 && s.progress == 0.0 && s.availableAt == now
    && s.spec.createdAt == now && s.spec.name == d.name && s.spec.dependsOn == d.dependsOn
    && s.spec.position == position && s.spec.optional == d.optional && s.spec.maximumAttempts == d.maximumAttempts
    && s.spec.retry == d.retry && s.spec.candidates != [] && s.backend == Some(s.spec.candidates[0])
    && s.runtime.None? && s.worker.None? && s.device.None? && s.token.None? && s.completionRequest.None?
    && s.resultUri.None? && s.error.None?
  }

  /** A planned stage is a valid pending stage that nobody has touched. */
  lemma PlannedStage(
    table: seq<Backend>, d: StageDefinition, position: nat, o: TaskOptions, source: SourceMetadata, now: Time)
    requires TableValid(table) && DefinitionValid(d) && OptionsValid(o)
    requires PlanStage(table, d, position, o, source, now).Success?
    ensures var s := PlanStage(table, d, position, o, source, now).value;
      TaskInvariant.StageInv(s, now) && PlannedFrom(s, d, position, now)
  {
    var candidates := Candidates(table, d, o, source);
    CandidateProperties(table, d, o, source);
    DistinctIds(table, candidates);
    AllowedExactly(RuntimesOf(candidates), d.requiredRuntimes, o.runtimes, o.strategy);
  }

  /** Exactly what a planned stage may run on, and where. */
  lemma PlanExact(
    table: seq<Backend>, d: StageDefinition, position: nat, o: TaskOptions, source: SourceMetadata, now: Time)
    requires TableValid(table) && DefinitionValid(d) && OptionsValid(o)
    requires PlanStage(table, d, position, o, source, now).Success?
    ensures var s := PlanStage(table, d, position, o, source, now).value;
      && (forall b :: b in table ==> (b.id in s.spec.candidates <==> Usable(b, d, o, source)))
      && (forall r :: r in s.spec.requiredRuntimes <==>
            && (exists b :: b in table && Usable(b, d, o, source) && r in b.capability.runtimes)
            && (d.requiredRuntimes != [] ==> r in d.requiredRuntimes)
            && (o.strategy.Demand? && o.runtimes != [] ==> r in o.runtimes))
  {
    var candidates := Candidates(table, d, o, source);
    CandidateProperties(table, d, o, source);
    RuntimesOfElements(candidates);
    AllowedExactly(RuntimesOf(candidates), d.requiredRuntimes, o.runtimes, o.strategy);
    forall b | b in table ensures b.id in Ids(candidates) <==> b in candidates {
      IdOf(table, candidates, b);
    }
  }

  predicate Usable(b: Backend, d: StageDefinition, o: TaskOptions, source: SourceMetadata) {
    && b.enabled && Suits(b, d, o, source)
    && b.key.name in Selector(d) && (o.backendName.Some? ==> b.key.name == o.backendName.value)
  }

  lemma IdOf(table: seq<Backend>, s: seq<Backend>, b: Backend)
    requires TableValid(table) && b in table && forall x :: x in s ==> x in table
    ensures b.id in Ids(s) <==> b in s
  {
    if b.id in Ids(s) {
      var k :| 0 <= k < |s| && Ids(s)[k] == b.id;
      assert s[k] in s;
      var i :| 0 <= i < |table| && table[i] == s[k];
      var j :| 0 <= j < |table| && table[j] == b;
    }
    if b in s {
      var k :| 0 <= k < |s| && s[k] == b;
      assert Ids(s)[k] == b.id;
    }
  }

  ghost predicate Plannable(table: seq<Backend>, defs: seq<StageDefinition>, o: TaskOptions, source: SourceMetadata) {
    forall i :: 0 <= i < |defs| ==> Candidates(table, defs[i], o, source) != []
  }

  ghost predicate PlanOf(
    table: seq<Backend>, defs: seq<StageDefinition>, o: TaskOptions, source: SourceMetadata, now: Time,
    plan: seq<Stage>)
  {
    |plan| == |defs| && forall i :: 0 <= i < |defs| ==>
      PlanStage(table, defs[i], i, o, source, now) == Success(plan[i])
  }

  lemma {:induction false} PlanSucceeds(
    table: seq<Backend>, defs: seq<StageDefinition>, o: TaskOptions, source: SourceMetadata, now: Time)
    ensures PlanStages(table, defs, o, source, now).Success? <==> Plannable(table, defs, o, source)
    ensures PlanStages(table, defs, o, source, now).Failure? ==>
      PlanStages(table, defs, o, source, now).fault == RoutingUnavailable
  {
    if defs != [] {
      var n := |defs| - 1;
      PlanSucceeds(table, defs[..n], o, source, now);
      PlannableSplits(table, defs, o, source);
    }
  }

  lemma PlannableSplits(table: seq<Backend>, defs: seq<StageDefinition>, o: TaskOptions, source: SourceMetadata)
    requires defs != []
    ensures var n := |defs| - 1;
      Plannable(table, defs, o, source) <==>
        Plannable(table, defs[..n], o, source) && Candidates(table, defs[n], o, source) != []
  {
    var n := |defs| - 1;
    if Plannable(table, defs[..n], o, source) && Candidates(table, defs[n], o, source) != [] {
      forall i | 0 <= i < |defs| ensures Candidates(table, defs[i], o, source) != [] {
        if i < n {
          assert defs[..n][i] == defs[i];
        }
      }
    }
  }

  lemma {:induction false} PlanPlaces(
    table: seq<Backend>, defs: seq<StageDefinition>, o: TaskOptions, source: SourceMetadata, now: Time)
    requires PlanStages(table, defs, o, source, now).Success?
    ensures PlanOf(table, defs, o, source, now, PlanStages(table, defs, o, source, now).value)
  {
    if defs != [] {
      var n := |defs| - 1;
      PlanPlaces(table, defs[..n], o, source, now);
      PlanExtends(table, defs, o, source, now,
        PlanStages(table, defs[..n], o, source, now).value, PlanStage(table, defs[n], n, o, source, now).value);
    }
  }

  /** Planning fails exactly when some stage has no candidate; otherwise each stage is planned in its place. */
  lemma PlanImage(
    table: seq<Backend>, defs: seq<StageDefinition>, o: TaskOptions, source: SourceMetadata, now: Time)
    ensures var r := PlanStages(table, defs, o, source, now);
      && (r.Success? <==> Plannable(table, defs, o, source))
      && (r.Failure? ==> r.fault == RoutingUnavailable)
      && (r.Success? ==> PlanOf(table, defs, o, source, now, r.value))
  {
    PlanSucceeds(table, defs, o, source, now);
    if PlanStages(table, defs, o, source, now).Success? {
      PlanPlaces(table, defs, o, source, now);
    }
  }

  lemma PlanExtends(
    table: seq<Backend>, defs: seq<StageDefinition>, o: TaskOptions, source: SourceMetadata, now: Time,
    front: seq<Stage>, last: Stage)
    requires defs != [] && PlanOf(table, defs[..|defs| - 1], o, source, now, front)
    requires PlanStage(table, defs[|defs| - 1], |defs| - 1, o, source, now) == Success(last)
    ensures PlanOf(table, defs, o, source, now, front + [last])
  {
    var n := |defs| - 1;
    forall i | 0 <= i < |defs| ensures PlanStage(table, defs[i], i, o, source, now) == Success((front + [last])[i]) {
      if i < n {
        assert defs[..n][i] == defs[i];
      }
    }
  }

  lemma PlanFails(
    table: seq<Backend>, defs: seq<StageDefinition>, i: nat, o: TaskOptions, source: SourceMetadata, now: Time)
    requires i < |defs| && PlanStage(table, defs[i], i, o, source, now).Failure?
    ensures PlanStages(table, defs, o, source, now) == Failure(RoutingUnavailable)
  {
    PlanImage(table, defs, o, source, now);
    assert Candidates(table, defs[i], o, source) == [];
  }

  /** The plan is the position-preserving image of the definition, so its graph is the checked one. */
  lemma PlanKeepsGraph(
    table: seq<Backend>, defs: seq<StageDefinition>, o: TaskOptions, source: SourceMetadata, now: Time)
    requires TableValid(table) && OptionsValid(o) && forall i :: 0 <= i < |defs| ==> DefinitionValid(defs[i])
    requires PlanStages(table, defs, o, source, now).Success?
    ensures var plan := PlanStages(table, defs, o, source, now).value;
      && NodesOf(plan) == DefinitionNodes(defs)
      && TaskInvariant.StagesInv(plan, now)
      && (forall i :: 0 <= i < |plan| ==> plan[i].status.Pending? && plan[i].spec.position == i)
  {
    PlanImage(table, defs, o, source, now);
    var plan := PlanStages(table, defs, o, source, now).value;
    forall i | 0 <= i < |defs|
      ensures TaskInvariant.StageInv(plan[i], now) && plan[i].status.Pending? && plan[i].spec.position == i
      ensures plan[i].spec.name == defs[i].name && plan[i].spec.dependsOn == defs[i].dependsOn
    {
      PlannedStage(table, defs[i], i, o, source, now);
    }
    assert NodesOf(plan) == DefinitionNodes(defs);
  }

  lemma RouteKeeps(
    table: seq<Backend>, t: Task, choice: Option<Pipeline>, id: nat, version: nat, clock: Time, now: Time)
    requires TaskInvariant.TaskInv(t, clock) && clock <= now && TableValid(table) && OptionsValid(t.request.options)
    requires choice.Some? ==> PipelineValid(choice.value)
    ensures var r := RouteTask(table, t, choice, id, version, now);
      && (r.Success? ==> TaskInvariant.TaskInv(r.value, now) && r.value.status == t.status && r.value.stages != [])
      && (r.Failure? ==>
            r.fault.TaskAlreadyRouted? || r.fault.SourceUnresolved? || r.fault.RoutingUnavailable?)
  {
    TaskInvariant.Age(t, clock, now);
    if t.status.Pending? && t.stages == [] && t.request.source.Some? && choice.Some? {
      var defs := choice.value.stages;
      PlanImage(table, defs, t.request.options, t.request.source.value, now);
      var r := RouteTask(table, t, choice, id, version, now);
      if r.Success? {
        PlanKeepsGraph(table, defs, t.request.options, t.request.source.value, now);
        assert !r.value.stages[0].status.Done();
      }
    }
  }

  // ---------- every planned candidate can be selected ----------

  lemma {:induction false} LookupFinds(table: seq<Backend>, b: Backend)
    requires TableValid(table) && b in table
    ensures Lookup(table, b.id) == Some(b)
  {
    var k :| 0 <= k < |table| && table[k] == b;
    if k > 0 {
      assert table[0].id != b.id;
      forall i, j | 0 <= i < |table[1..]| && 0 <= j < |table[1..]| && table[1..][i].id == table[1..][j].id
        ensures i == j
      {
        assert table[i + 1].id == table[j + 1].id;
      }
      forall i, j | 0 <= i < |table[1..]| && 0 <= j < |table[1..]| && table[1..][i].key == table[1..][j].key
        ensures i == j
      {
        assert table[i + 1].key == table[j + 1].key;
      }
      assert table[1..][k - 1] == b;
      LookupFinds(table[1..], b);
    }
  }

  /** A worker that offers this backend as registered: one device per runtime, with the labels and memory asked for. */
  function Specialist(b: Backend, labels: map<Label, Label>, floor: Option<nat>): Worker {
    var runtimes := b.capability.runtimes;
    Worker(true, Online, 1, 1,
      seq(|runtimes|, i requires 0 <= i < |runtimes| => Device(i, runtimes[i], floor)), map[],
      map[b.key := b.capability], labels, None)
  }

  lemma SpecialistRuntimes(b: Backend, labels: map<Label, Label>, floor: Option<nat>, cap: real)
    requires 0.0 < cap
    ensures AvailableRuntimes(Specialist(b, labels, floor), floor, cap) == Elements(b.capability.runtimes)
    ensures WorkerValid(Specialist(b, labels, floor))
  {
    var w, runtimes := Specialist(b, labels, floor), b.capability.runtimes;
    forall d | d in w.devices ensures !Saturated(w, d, cap) && Roomy(w, d, floor) && d.runtime in runtimes {
      var total := TotalMemory(w, d);
      if total.Some? && total.value > 0 {
        assert 0 as real / total.value as real == 0.0;
      }
    }
    forall r | r in runtimes ensures r in AvailableRuntimes(w, floor, cap) {
      var i :| 0 <= i < |runtimes| && runtimes[i] == r;
      assert w.devices[i] in w.devices && w.devices[i].runtime == r;
    }
  }

  /** The job of a planned stage, as the scheduler reads it. */
  function PlannedJob(s: Stage, source: SourceMetadata, labels: map<Label, Label>, floor: Option<nat>): Job {
    Job(s.spec.requiredRuntimes, s.spec.candidates, Some(source), labels, floor)
  }

  lemma SameKey(table: seq<Backend>, a: Backend, b: Backend)
    requires TableValid(table) && a in table && b in table && a.key == b.key
    ensures a == b
  {
    var i :| 0 <= i < |table| && table[i] == a;
    var j :| 0 <= j < |table| && table[j] == b;
  }

  lemma CandidateServed(
    table: seq<Backend>, d: StageDefinition, position: nat, o: TaskOptions, source: SourceMetadata, now: Time,
    b: Backend, labels: map<Label, Label>, floor: Option<nat>)
    requires TableValid(table) && DefinitionValid(d) && OptionsValid(o) && b in Candidates(table, d, o, source)
    requires PlanStage(table, d, position, o, source, now).Success?
    ensures var job := PlannedJob(PlanStage(table, d, position, o, source, now).value, source, labels, floor);
      var choice := SelectBackend(
        table, job, Specialist(b, labels, floor).capabilities, Elements(b.capability.runtimes));
      && (choice.Some? <==> Handles(b.capability, source))
      && (choice.Some? ==> choice.value.backend == b.id && choice.value.runtime in b.capability.runtimes)
  {
    var job := PlannedJob(PlanStage(table, d, position, o, source, now).value, source, labels, floor);
    var offered, runtimes := Specialist(b, labels, floor).capabilities, Elements(b.capability.runtimes);
    var candidates := Candidates(table, d, o, source);
    CandidateProperties(table, d, o, source);
    var r := CandidateKeepsRuntime(table, d, o, source, b);
    assert r in runtimes * Elements(job.required);
    LookupFinds(table, b);
    assert Serves(table, b.id, job, offered, runtimes).Some? <==> Handles(b.capability, source);
    forall id | id in job.candidates && Serves(table, id, job, offered, runtimes).Some? ensures id == b.id {
      var k :| 0 <= k < |candidates| && candidates[k].id == id;
      LookupFinds(table, candidates[k]);
      SameKey(table, candidates[k], b);
    }
    hide Serves, Candidates, PlanStage;
    SelectFromFirst(table, job.candidates, job, offered, runtimes);
    var k :| 0 <= k < |candidates| && candidates[k] == b;
    assert job.candidates[k] == b.id;
    if SelectBackend(table, job, offered, runtimes).Some? {
      SelectedRuntime(table, job, offered, runtimes);
    }
  }

  /**
   A planned candidate is runnable by a worker that offers it as registered if and only if
   its own capability handles the source by the scheduler's rule, under which MIME patterns
   decide alone.  Then that worker, alone, is elected, runs the stage on the candidate, and
   has a device for it.
   */
  lemma CandidateSelectable(
    table: seq<Backend>, d: StageDefinition, position: nat, o: TaskOptions, source: SourceMetadata, now: Time,
    b: Backend, labels: map<Label, Label>, floor: Option<nat>, cap: real)
    requires TableValid(table) && DefinitionValid(d) && OptionsValid(o) && b in Candidates(table, d, o, source)
    requires PlanStage(table, d, position, o, source, now).Success? && 0.0 < cap
    ensures var job := PlannedJob(PlanStage(table, d, position, o, source, now).value, source, labels, floor);
      var w := Specialist(b, labels, floor);
      var choice := SelectBackend(table, job, w.capabilities, AvailableRuntimes(w, floor, cap));
      && WorkerValid(w)
      && (Preferred(Market(map[0 := w], table, cap, map[]), 0, job) <==> Handles(b.capability, source))
      && (choice.Some? <==> Handles(b.capability, source))
      && (choice.Some? ==> choice.value.backend == b.id)
      && (choice.Some? ==> SelectDevice(w, choice.value.runtime, floor, cap, map[]).Some?)
  {
    var job := PlannedJob(PlanStage(table, d, position, o, source, now).value, source, labels, floor);
    var w := Specialist(b, labels, floor);
    CandidateServed(table, d, position, o, source, now, b, labels, floor);
    SpecialistRuntimes(b, labels, floor, cap);
    hide SelectBackend, AvailableRuntimes, Score, PlanStage, Candidates, SelectDevice, WorkerValid, Handles;
    var m := Market(map[0 := w], table, cap, map[]);
    assert LabelsMatch(w, job.labels);
    assert Rank(m, 0, job).Some? <==> Handles(b.capability, source);
    if Handles(b.capability, source) {
      assert Preferred(m, 0, job);
      ElectedPassesGates(m, 0, job, map[]);
    }
  }

  // ---------- plans that nobody can serve ----------

  /** Capabilities are advertised as the table registers them. */
  ghost predicate Registered(table: seq<Backend>, offered: map<BackendKey, Capability>) {
    forall b :: b in table && b.key in offered ==> offered[b.key] == b.capability
  }

  /** No candidate handles the source by the scheduler's rule. */
  ghost predicate Unhandled(table: seq<Backend>, candidates: seq<BackendId>, source: SourceMetadata) {
    forall b :: b in table && b.id in candidates ==> !Handles(b.capability, source)
  }

  lemma {:induction false} LookupMember(table: seq<Backend>, id: BackendId)
    ensures Lookup(table, id).Some? ==> Lookup(table, id).value in table && Lookup(table, id).value.id == id
  {
    if table != [] && table[0].id != id {
      LookupMember(table[1..], id);
    }
  }

  /** While capabilities are advertised as registered, an unhandled source is refused on every runtime. */
  lemma UnhandledRefused(
    table: seq<Backend>, job: Job, offered: map<BackendKey, Capability>, runtimes: set<Runtime>)
    requires Registered(table, offered) && (job.source.Some? ==> Unhandled(table, job.candidates, job.source.value))
    ensures SelectBackend(table, job, offered, runtimes).None?
  {
    forall id | id in job.candidates ensures Serves(table, id, job, offered, runtimes).None? {
      LookupMember(table, id);
    }
    SelectFromFirst(table, job.candidates, job, offered, runtimes);
  }

  // ---------- candidates and runtimes, in terms of the rows ----------

  /** Which backends a stage may use, spelt out. */
  lemma UsableMeans(b: Backend, d: StageDefinition, o: TaskOptions, source: SourceMetadata)
    ensures Usable(b, d, o, source) <==>
      && b.enabled
      && (b.key.name == d.preferred || b.key.name in d.fallbacks)
      && (o.backendName.Some? ==> b.key.name == o.backendName.value)
      && (source.category in b.capability.categories
          || exists p, m :: p in b.capability.mimes && Concrete(m) && Covers(p, m) && Covers(source.mime, m))
      && (exists r ::
            && r in b.capability.runtimes
            && (d.requiredRuntimes != [] ==> r in d.requiredRuntimes)
            && (o.strategy.Demand? && o.runtimes != [] ==> r in o.runtimes))
  {
    SupportsMeans(b, source);
    CompatibleMeans(b.capability.runtimes, d.requiredRuntimes, o.runtimes, o.strategy);
    hide SupportsSource, RuntimeCompatible;
  }

  lemma SupportsMeans(b: Backend, source: SourceMetadata)
    ensures SupportsSource(b, source) <==>
      (source.category in b.capability.categories
       || exists p, m :: p in b.capability.mimes && Concrete(m) && Covers(p, m) && Covers(source.mime, m))
  {
    if exists p :: p in b.capability.mimes && MimesOverlap(p, source.mime) {
      var p :| p in b.capability.mimes && MimesOverlap(p, source.mime);
      OverlapIff(p, source.mime);
    }
    if exists p, m :: p in b.capability.mimes && Concrete(m) && Covers(p, m) && Covers(source.mime, m) {
      var p, m :| p in b.capability.mimes && Concrete(m) && Covers(p, m) && Covers(source.mime, m);
      OverlapIff(p, source.mime);
    }
  }

  lemma CompatibleMeans(offered: seq<Runtime>, stage: seq<Runtime>, task: seq<Runtime>, strategy: Strategy)
    ensures RuntimeCompatible(offered, stage, task, strategy) <==>
      exists r :: r in offered && (stage != [] ==> r in stage) && (strategy.Demand? && task != [] ==> r in task)
  {
    var allowed := Elements(offered);
    var staged := if stage != [] then allowed * Elements(stage) else allowed;
    var left := if strategy.Demand? && task != [] then staged * Elements(task) else staged;
    assert forall r :: r in left <==>
      r in offered && (stage != [] ==> r in stage) && (strategy.Demand? && task != [] ==> r in task);
    if left != {} {
      var r :| r in left;
    }
  }

  /** `x` stands before `y`: its name comes earlier in the selector, or it is an earlier row of the same name. */
  ghost predicate Sooner(table: seq<Backend>, names: seq<Label>, x: Backend, y: Backend) {
    || Precede(names, x.key.name, y.key.name)
    || (x.key.name == y.key.name && Precede(table, x, y))
  }

  lemma {:induction false} EnabledOrder(table: seq<Backend>, names: seq<Label>, i: nat, j: nat)
    requires i < j < |EnabledByNames(table, names)|
    ensures Sooner(table, names, EnabledByNames(table, names)[i], EnabledByNames(table, names)[j])
  {
    var group, rest := Group(table, names[0]), EnabledByNames(table, names[1..]);
    FilterElements(table, (b: Backend) => Listed(b, names[0]));
    if j < |group| {
      FilterOrder(table, (b: Backend) => Listed(b, names[0]), i, j);
      assert group[i] in group && group[j] in group;
    } else if i < |group| {
      EnabledProperties(table, names[1..]);
      var x, y := group[i], rest[j - |group|];
      assert x in group && y in rest;
      var q :| 0 <= q < |names[1..]| && names[1..][q] == y.key.name;
      assert names[0] == x.key.name && names[q + 1] == y.key.name;
    } else {
      EnabledOrder(table, names[1..], i - |group|, j - |group|);
      SoonerTail(table, names, rest[i - |group|], rest[j - |group|]);
    }
  }

  lemma SoonerTail(table: seq<Backend>, names: seq<Label>, x: Backend, y: Backend)
    requires names != [] && Sooner(table, names[1..], x, y)
    ensures Sooner(table, names, x, y)
  {
    if Precede(names[1..], x.key.name, y.key.name) {
      PrecedeTail(names, x.key.name, y.key.name);
    }
  }

  /** Without a preference for runtimes, the candidates stand in the order of the selector, then of the table. */
  lemma CandidateOrder(
    table: seq<Backend>, d: StageDefinition, o: TaskOptions, source: SourceMetadata, i: nat, j: nat)
    requires i < j < |Candidates(table, d, o, source)| && (!o.strategy.Prefer? || o.runtimes == [])
    requires o.backendName.None?
    ensures var c := Candidates(table, d, o, source); Sooner(table, [d.preferred] + d.fallbacks, c[i], c[j])
  {
    var all, suits := EnabledByNames(table, Selector(d)), (b: Backend) => Suits(b, d, o, source);
    var c := Candidates(table, d, o, source);
    assert c == Filter(all, suits);
    FilterOrder(all, suits, i, j);
    var p, q :| 0 <= p < q < |all| && all[p] == c[i] && all[q] == c[j];
    EnabledOrder(table, Selector(d), p, q);
  }

  ghost predicate IsFirst<T(!new)>(s: seq<T>, p: int) {
    0 <= p < |s| && forall k :: 0 <= k < p ==> s[k] != s[p]
  }

  /** `x` is first offered before `y` is. */
  ghost predicate OfferedSooner(s: seq<Runtime>, x: Runtime, y: Runtime) {
    exists p, q :: IsFirst(s, p) && IsFirst(s, q) && p < q && s[p] == x && s[q] == y
  }

  lemma {:induction false} FirstOf(s: seq<Runtime>, x: Runtime) returns (p: nat)
    requires x in s
    ensures IsFirst(s, p) && s[p] == x
  {
    if s[0] == x {
      p := 0;
    } else {
      assert x in s[1..];
      var q := FirstOf(s[1..], x);
      p := q + 1;
      forall k | 0 <= k < p ensures s[k] != s[p] {
        assert k > 0 ==> s[1..][k - 1] == s[k];
      }
    }
  }

  lemma OfferedGrows(s: seq<Runtime>, last: Runtime, x: Runtime, y: Runtime)
    requires OfferedSooner(s, x, y)
    ensures OfferedSooner(s + [last], x, y)
  {
    var p, q :| IsFirst(s, p) && IsFirst(s, q) && p < q && s[p] == x && s[q] == y;
    assert IsFirst(s + [last], p) && IsFirst(s + [last], q);
  }

  lemma {:induction false} DedupOrder(s: seq<Runtime>, i: nat, j: nat)
    requires i < j < |Dedup(s)|
    ensures OfferedSooner(s, Dedup(s)[i], Dedup(s)[j])
  {
    var n := |s| - 1;
    var front, last := Dedup(s[..n]), s[n];
    assert s == s[..n] + [last];
    DedupProperties(s[..n]);
    if j < |front| {
      DedupOrder(s[..n], i, j);
      OfferedGrows(s[..n], last, front[i], front[j]);
    } else {
      assert front[i] in front;
      var p := FirstOf(s[..n], front[i]);
      assert IsFirst(s, p) && IsFirst(s, n);
    }
  }

  /** Without a preference the planned runtimes stand in the order in which the candidates first offer them. */
  lemma AllowedOrder(
    offered: seq<Runtime>, stage: seq<Runtime>, task: seq<Runtime>, strategy: Strategy, i: nat, j: nat)
    requires !strategy.Prefer? && i < j < |AllowedRuntimes(offered, stage, task, strategy)|
    ensures var r := AllowedRuntimes(offered, stage, task, strategy); OfferedSooner(offered, r[i], r[j])
  {
    var unique := Dedup(offered);
    var staged := if stage != [] then Within(unique, stage) else unique;
    var r := AllowedRuntimes(offered, stage, task, strategy);
    var x, y := r[i], r[j];
    var a, b := i, j;
    if strategy.Demand? && task != [] {
      FilterOrder(staged, v => v in task, i, j);
      a, b :| 0 <= a < b < |staged| && staged[a] == x && staged[b] == y;
    }
    if stage != [] {
      FilterOrder(unique, v => v in stage, a, b);
      a, b :| 0 <= a < b < |unique| && unique[a] == x && unique[b] == y;
    }
    DedupOrder(offered, a, b);
  }

  /** The backend runs on a runtime the task named. */
  ghost predicate RunsOnNamed(b: Backend, o: TaskOptions) {
    exists r :: r in b.capability.runtimes && r in o.runtimes
  }

  lemma RunsOnMeans(b: Backend, o: TaskOptions)
    ensures RunsOn(b, Elements(o.runtimes)) <==> RunsOnNamed(b, o)
  {
    var shared := Elements(b.capability.runtimes) * Elements(o.runtimes);
    if shared != {} {
      var r :| r in shared;
    }
    if RunsOnNamed(b, o) {
      var r :| r in b.capability.runtimes && r in o.runtimes;
      assert r in shared;
    }
  }

  /**
   With a preference for runtimes, candidates that run on a named one come first; among
   those that do, and among those that do not, the order is that of the selector and the table.
   */
  lemma PreferredCandidateOrder(
    table: seq<Backend>, d: StageDefinition, o: TaskOptions, source: SourceMetadata, i: nat, j: nat)
    requires i < j < |Candidates(table, d, o, source)| && o.strategy.Prefer? && o.runtimes != []
    requires o.backendName.None?
    ensures var c := Candidates(table, d, o, source);
      && (RunsOnNamed(c[j], o) ==> RunsOnNamed(c[i], o))
      && (RunsOnNamed(c[j], o) == RunsOnNamed(c[i], o) ==> Sooner(table, [d.preferred] + d.fallbacks, c[i], c[j]))
  {
    var c := Candidates(table, d, o, source);
    var named := Elements(o.runtimes);
    var all, suits := EnabledByNames(table, Selector(d)), (b: Backend) => Suits(b, d, o, source);
    var suited := Filter(all, suits);
    var first, others := Favoured(suited, named), Others(suited, named);
    assert c == first + others;
    RunsOnMeans(c[i], o);
    RunsOnMeans(c[j], o);
    FilterElements(suited, (b: Backend) => RunsOn(b, named));
    FilterElements(suited, (b: Backend) => !RunsOn(b, named));
    assert i < |first| ==> c[i] in first;
    assert j < |first| ==> c[j] in first;
    assert i >= |first| ==> c[i] in others;
    assert j >= |first| ==> c[j] in others;
    if j < |first| {
      FilterOrder(suited, (b: Backend) => RunsOn(b, named), i, j);
      SuitedOrder(table, d, o, source, c[i], c[j]);
    } else if i >= |first| {
      FilterOrder(suited, (b: Backend) => !RunsOn(b, named), i - |first|, j - |first|);
      SuitedOrder(table, d, o, source, c[i], c[j]);
    }
  }

  lemma SuitedOrder(
    table: seq<Backend>, d: StageDefinition, o: TaskOptions, source: SourceMetadata, x: Backend, y: Backend)
    requires Precede(
      Filter(EnabledByNames(table, Selector(d)), (b: Backend) => Suits(b, d, o, source)), x, y)
    ensures Sooner(table, [d.preferred] + d.fallbacks, x, y)
  {
    var all, suits := EnabledByNames(table, Selector(d)), (b: Backend) => Suits(b, d, o, source);
    var suited := Filter(all, suits);
    var p, q :| 0 <= p < q < |suited| && suited[p] == x && suited[q] == y;
    FilterOrder(all, suits, p, q);
    var a, b :| 0 <= a < b < |all| && all[a] == x && all[b] == y;
    EnabledOrder(table, Selector(d), a, b);
  }

  function RuntimesBefore(s: seq<Backend>, i: nat): nat
    requires i <= |s|
  {
    if i == 0 then 0 else RuntimesBefore(s, i - 1) + |s[i - 1].capability.runtimes|
  }

  lemma {:induction false} RuntimesShift(s: seq<Backend>, i: nat)
    requires s != [] && i < |s|
    ensures RuntimesBefore(s, i + 1) == |s[0].capability.runtimes| + RuntimesBefore(s[1..], i)
  {
    if i > 0 {
      RuntimesShift(s, i - 1);
      assert s[1..][i - 1] == s[i];
    } else {
      assert RuntimesBefore(s, 1) == RuntimesBefore(s, 0) + |s[0].capability.runtimes|;
    }
  }

  /** The offered runtimes are those of the candidates one after the other, each in its own order. */
  lemma {:induction false} RuntimesInTurn(s: seq<Backend>, i: nat, k: nat)
    requires i < |s| && k < |s[i].capability.runtimes|
    ensures RuntimesBefore(s, i) + k < |RuntimesOf(s)|
    ensures RuntimesOf(s)[RuntimesBefore(s, i) + k] == s[i].capability.runtimes[k]
  {
    if i > 0 {
      RuntimesInTurn(s[1..], i - 1, k);
      RuntimesShift(s, i - 1);
    }
  }

  /** Which sources a pipeline takes, spelt out. */
  lemma PipelineSupportsMeans(p: Pipeline, source: SourceMetadata)
    ensures PipelineSupports(p, source) <==>
      && source.category in p.categories
      && (p.mimes != [] ==>
            exists x, m :: x in p.mimes && Concrete(m) && Covers(x, m) && Covers(source.mime, m))
  {
    if exists x :: x in p.mimes && MimesOverlap(x, source.mime) {
      var x :| x in p.mimes && MimesOverlap(x, source.mime);
      OverlapIff(x, source.mime);
    }
    if exists x, m :: x in p.mimes && Concrete(m) && Covers(x, m) && Covers(source.mime, m) {
      var x, m :| x in p.mimes && Concrete(m) && Covers(x, m) && Covers(source.mime, m);
      OverlapIff(x, source.mime);
    }
  }
}

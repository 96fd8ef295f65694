/**
 The rows the control plane keeps, and the validators of the public schema they must meet.
 Identifiers are numbers (only equality and order are used), time is a real number of
 seconds, and the SHA-256 digests are idealised as injective constructors.
 */
module Records {
  import opened Common
  import opened TaskState
  import opened PipelineDag

  type Time = real
  type TaskId = nat
  type WorkerId = nat
  type DeviceId = nat
  type BackendId = nat

  type Positive = n: nat | 1 <= n witness 1

  datatype Uri = Uri(text: string)
  datatype Label = Label(text: string)
  datatype ErrorDetail = ErrorDetail(code: string, message: string, retryable: bool)

  // ---------- hardware, backends, workers ----------

  datatype Runtime = CPU | CUDA | ASCEND | MLU | DCU | MUSA | XPU
  datatype Strategy = Auto | Prefer | Demand
  datatype Media = Text | Web | Document | Image | Audio | Video

  /** A MIME pattern already split at its slash; "*" is the wildcard. */
  datatype Mime = Mime(major: string, minor: string)

  datatype SourceMetadata = SourceMetadata(mime: Mime, category: Media)

  datatype Device = Device(id: DeviceId, runtime: Runtime, totalMemory: Option<nat>)
  datatype Usage = Usage(utilization: Option<real>, memoryUsed: Option<nat>, memoryTotal: Option<nat>)
  datatype Resources = Resources(cpuPercent: real, running: nat, leased: nat)

  datatype BackendKey = BackendKey(name: Label, version: string)
  datatype Capability = Capability(categories: set<Media>, mimes: seq<Mime>, runtimes: seq<Runtime>)
  datatype Backend = Backend(id: BackendId, key: BackendKey, capability: Capability, enabled: bool)

  datatype WorkerStatus = Online | Busy | Draining | Offline | Unhealthy

  datatype Worker = Worker(
    enabled: bool,
    status: WorkerStatus,
    maximumConcurrency: Positive,
    weight: Positive,
    devices: seq<Device>,
    usage: map<DeviceId, Usage>,
    capabilities: map<BackendKey, Capability>,
    labels: map<Label, Label>,
    resources: Option<Resources>
  ) {
    predicate AcceptsLeases() {
      enabled && (status.Online? || status.Busy?)
    }
  }

  /** What registration, heartbeat and update requests are validated to. */
  ghost predicate WorkerValid(w: Worker) {
    && w.weight <= 1000
    && (forall i, j :: 0 <= i < |w.devices| && 0 <= j < |w.devices| && w.devices[i].id == w.devices[j].id ==> i == j)
    && (forall d :: d in w.usage && w.usage[d].utilization.Some? ==> 0.0 <= w.usage[d].utilization.value <= 100.0)
    && (w.resources.Some? ==> 0.0 <= w.resources.value.cpuPercent <= 100.0)
  }

  // ---------- tokens and digests ----------

  datatype Token = Token(serial: nat)
  datatype LeaseDigest = LeaseDigest(token: Token)

  datatype CompleteRequest = CompleteRequest(
    worker: WorkerId, token: Token, succeeded: bool, resultUri: Option<Uri>, error: Option<ErrorDetail>)
  datatype CompletionDigest = CompletionDigest(request: CompleteRequest)

  // ---------- stages ----------

  datatype RetryPolicy = RetryPolicy(initialDelay: real, maximumDelay: real, multiplier: real)

  ghost predicate RetryValid(r: RetryPolicy) {
    0.0 <= r.initialDelay <= r.maximumDelay && 1.0 <= r.multiplier
  }

  /** The part of a stage row that routing writes once. */
  datatype StageSpec = StageSpec(
    name: Name,
    position: nat,
    dependsOn: seq<Name>,
    optional: bool,
    candidates: seq<BackendId>,
    requiredRuntimes: seq<Runtime>,
    maximumAttempts: nat,
    retry: RetryPolicy,
    createdAt: Time
  )

  datatype Stage = Stage(
    spec: StageSpec,
    status: StageStatus,
    progress: real,
    backend: Option<BackendId>,
    runtime: Option<Runtime>,
    worker: Option<WorkerId>,
    device: Option<DeviceId>,
    attempt: nat,
    token: Option<LeaseDigest>,
    expiresAt: Option<Time>,
    completionWorker: Option<WorkerId>,
    completionDevice: Option<DeviceId>,
    completionToken: Option<LeaseDigest>,
    completionRequest: Option<CompletionDigest>,
    availableAt: Time,
    resultUri: Option<Uri>,
    error: Option<ErrorDetail>,
    startedAt: Option<Time>,
    completedAt: Option<Time>,
    updatedAt: Time
  )

  /** `StageDetail.validate_state`, with the field bounds of `StageDetail`. */
  ghost predicate StageDetailValid(s: Stage) {
    && Distinct(s.spec.dependsOn)
    && Distinct(s.spec.candidates)
    && Distinct(s.spec.requiredRuntimes)
    && 0.0 <= s.progress <= 100.0
    && 1 <= s.spec.maximumAttempts
    && (s.status.Terminal() ==> s.completedAt.Some?)
    && (s.status.Failed? <==> s.error.Some?)
    && (s.resultUri.Some? ==> s.status.Succeeded?)
    && s.attempt <= s.spec.maximumAttempts
    && (s.status.Running? ==> s.startedAt.Some?)
    && (s.completionDevice.Some? ==> s.completionWorker.Some?)
    && (s.startedAt.Some? ==> s.spec.createdAt <= s.startedAt.value)
    && (s.startedAt.Some? && s.completedAt.Some? ==> s.startedAt.value <= s.completedAt.value)
  }

  // ---------- tasks ----------

  datatype TaskOptions = TaskOptions(
    workerLabels: map<Label, Label>,
    minimumMemory: Option<nat>,
    strategy: Strategy,
    runtimes: seq<Runtime>,
    backendName: Option<Label>
  )

  /** `DeviceRequirement.validate_strategy`. */
  ghost predicate OptionsValid(o: TaskOptions) {
    (!o.strategy.Auto? ==> o.runtimes != []) && Distinct(o.runtimes)
  }

  datatype CreateRequest = CreateRequest(
    source: Option<SourceMetadata>,
    options: TaskOptions,
    pipelineId: Option<nat>,
    pipelineVersion: Option<nat>,
    priority: int
  )

  datatype Task = Task(
    request: CreateRequest,
    key: Option<Label>,
    status: TaskStatus,
    progress: real,
    pipelineId: Option<nat>,
    pipelineVersion: Option<nat>,
    stages: seq<Stage>,
    resultUri: Option<Uri>,
    error: Option<ErrorDetail>,
    createdAt: Time,
    startedAt: Option<Time>,
    completedAt: Option<Time>,
    updatedAt: Time
  )

  /** `TaskDetail.validate_state`, with the field bounds of `TaskDetail`. */
  ghost predicate TaskDetailValid(t: Task) {
    && 0.0 <= t.progress <= 100.0
    && (t.pipelineId.Some? <==> t.pipelineVersion.Some?)
    && (t.status.Leased? || t.status.Running? || t.status.Succeeded? || t.status.Failed? ==> t.pipelineId.Some?)
    && (t.status.Terminal() ==> t.completedAt.Some?)
    && (t.status.Failed? <==> t.error.Some?)
    && (t.resultUri.Some? ==> t.status.Succeeded?)
    && (t.status.Running? ==> t.startedAt.Some?)
    && (t.startedAt.Some? ==> t.createdAt <= t.startedAt.value)
    && (t.startedAt.Some? && t.completedAt.Some? ==> t.startedAt.value <= t.completedAt.value)
    && (forall i :: 0 <= i < |t.stages| ==> StageDetailValid(t.stages[i]))
  }

  function NodesOf(stages: seq<Stage>): seq<Node> {
    seq(|stages|, i requires 0 <= i < |stages| => Node(stages[i].spec.name, stages[i].spec.dependsOn))
  }

  function TaskGraph(t: Task): Graph {
    GraphOf(NodesOf(t.stages))
  }
}

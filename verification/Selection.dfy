/**
 Which worker, backend, runtime and device a stage goes to: the admission gates of the
 lease loop and the ranking of the polling workers, with the loops that compute them.
 */
module Selection {
  import opened Common
  import opened Records

  // ---------- devices ----------

  function TotalMemory(w: Worker, d: Device): Option<nat> {
    if d.id in w.usage && w.usage[d.id].memoryTotal.Some? then w.usage[d.id].memoryTotal else d.totalMemory
  }

  function UsedMemory(w: Worker, d: Device): nat {
    if d.id in w.usage && w.usage[d.id].memoryUsed.Some? then w.usage[d.id].memoryUsed.value else 0
  }

  /** The saturation test of `_available_worker_runtimes`. */
  predicate Saturated(w: Worker, d: Device, cap: real) {
    var total := TotalMemory(w, d);
    total.Some? && total.value > 0 && UsedMemory(w, d) as real / total.value as real * 100.0 >= cap
  }

  function MemoryLoad(w: Worker, d: Device): real {
    var total := TotalMemory(w, d);
    if total.Some? && total.value > 0 then UsedMemory(w, d) as real / total.value as real else 0.0
  }

  /** The saturation test of `_select_device_id`. */
  predicate Overloaded(w: Worker, d: Device, cap: real) {
    MemoryLoad(w, d) * 100.0 >= cap
  }

  predicate Roomy(w: Worker, d: Device, floor: Option<nat>) {
    floor.Some? ==>
      TotalMemory(w, d).Some? && TotalMemory(w, d).value - UsedMemory(w, d) >= floor.value
  }

  function AvailableRuntimes(w: Worker, floor: Option<nat>, cap: real): set<Runtime> {
    set d | d in w.devices && !Saturated(w, d, cap) && Roomy(w, d, floor) :: d.runtime
  }

  method AvailableWorkerRuntimes(w: Worker, floor: Option<nat>, cap: real) returns (available: set<Runtime>)
    ensures available == AvailableRuntimes(w, floor, cap)
  {
    available := {};
    for i := 0 to |w.devices|
      invariant available ==
        set d | d in w.devices[..i] && !Saturated(w, d, cap) && Roomy(w, d, floor) :: d.runtime
    {
      assert w.devices[..i + 1] == w.devices[..i] + [w.devices[i]];
      if !Saturated(w, w.devices[i], cap) && Roomy(w, w.devices[i], floor) {
        available := available + {w.devices[i].runtime};
      }
    }
    assert w.devices[..|w.devices|] == w.devices;
  }

  /** Reserved stages per device. */
  type Reservations = map<DeviceId, nat>

  function Reserved(counts: Reservations, d: DeviceId): nat {
    if d in counts then counts[d] else 0
  }

  predicate Fits(w: Worker, d: Device, runtime: Runtime, floor: Option<nat>, cap: real) {
    d.runtime == runtime && !Overloaded(w, d, cap) && Roomy(w, d, floor)
  }

  function UtilizationLoad(w: Worker, d: Device): real {
    if d.id in w.usage && w.usage[d.id].utilization.Some? then w.usage[d.id].utilization.value / 100.0 else 0.0
  }

  function PressureOf(w: Worker, d: Device): real {
    MaxReal(MemoryLoad(w, d), UtilizationLoad(w, d))
  }

  /** Fewest reservations first, then the lighter load, then the identifier. */
  predicate Before(w: Worker, counts: Reservations, d: Device, e: Device) {
    || Reserved(counts, d.id) < Reserved(counts, e.id)
    || (Reserved(counts, d.id) == Reserved(counts, e.id)
        && (PressureOf(w, d) < PressureOf(w, e) || (PressureOf(w, d) == PressureOf(w, e) && d.id < e.id)))
  }

  /** The device that `_select_device_id` promises: the least of those that fit. */
  ghost predicate LeastDevice(
    w: Worker, d: Device, runtime: Runtime, floor: Option<nat>, cap: real, counts: Reservations)
  {
    && d in w.devices && Fits(w, d, runtime, floor, cap)
    && (forall e :: e in w.devices && Fits(w, e, runtime, floor, cap) ==> !Before(w, counts, e, d))
  }

  function SelectAmong(
    w: Worker, devices: seq<Device>, runtime: Runtime, floor: Option<nat>, cap: real, counts: Reservations)
    : Option<Device>
  {
    if devices == [] then None
    else
      var best := SelectAmong(w, devices[..|devices| - 1], runtime, floor, cap, counts);
      var d := devices[|devices| - 1];
      if !Fits(w, d, runtime, floor, cap) then best
      else if best.Some? && !Before(w, counts, d, best.value) then best
      else Some(d)
  }

  function SelectDevice(w: Worker, runtime: Runtime, floor: Option<nat>, cap: real, counts: Reservations)
    : Option<Device>
  {
    SelectAmong(w, w.devices, runtime, floor, cap, counts)
  }

  lemma {:induction false} SelectAmongLeast(
    w: Worker, devices: seq<Device>, runtime: Runtime, floor: Option<nat>, cap: real, counts: Reservations)
    ensures var r := SelectAmong(w, devices, runtime, floor, cap, counts);
      && (r.None? <==> forall e :: e in devices ==> !Fits(w, e, runtime, floor, cap))
      && (r.Some? ==> r.value in devices && Fits(w, r.value, runtime, floor, cap))
      && (r.Some? ==> forall e :: e in devices && Fits(w, e, runtime, floor, cap) ==> !Before(w, counts, e, r.value))
  {
    if devices != [] {
      SelectAmongLeast(w, devices[..|devices| - 1], runtime, floor, cap, counts);
      assert devices == devices[..|devices| - 1] + [devices[|devices| - 1]];
    }
  }

  /** A device is selected exactly when one fits, and it is the least that does. */
  lemma DeviceSelected(w: Worker, runtime: Runtime, floor: Option<nat>, cap: real, counts: Reservations)
    ensures var r := SelectDevice(w, runtime, floor, cap, counts);
      && (r.Some? <==> exists e :: e in w.devices && Fits(w, e, runtime, floor, cap))
      && (r.Some? ==> LeastDevice(w, r.value, runtime, floor, cap, counts))
  {
    SelectAmongLeast(w, w.devices, runtime, floor, cap, counts);
  }

  method SelectDeviceId(w: Worker, runtime: Runtime, floor: Option<nat>, cap: real, counts: Reservations)
    returns (best: Option<Device>)
    ensures best == SelectDevice(w, runtime, floor, cap, counts)
  {
    best := None;
    for i := 0 to |w.devices|
      invariant best == SelectAmong(w, w.devices[..i], runtime, floor, cap, counts)
    {
      assert w.devices[..i + 1][..i] == w.devices[..i];
      var d := w.devices[i];
      if Fits(w, d, runtime, floor, cap) {
        if best.None? || Before(w, counts, d, best.value) {
          best := Some(d);
        }
      }
    }
    assert w.devices[..|w.devices|] == w.devices;
  }

  /** The two saturation tests agree, so an available runtime always yields a device. */
  lemma AvailableHasDevice(w: Worker, runtime: Runtime, floor: Option<nat>, cap: real, counts: Reservations)
    requires 0.0 < cap
    ensures runtime in AvailableRuntimes(w, floor, cap) <==> SelectDevice(w, runtime, floor, cap, counts).Some?
  {
    DeviceSelected(w, runtime, floor, cap, counts);
    if runtime in AvailableRuntimes(w, floor, cap) {
      var d :| d in w.devices && !Saturated(w, d, cap) && Roomy(w, d, floor) && d.runtime == runtime;
      assert Fits(w, d, runtime, floor, cap);
    }
    if SelectDevice(w, runtime, floor, cap, counts).Some? {
      var e :| e in w.devices && Fits(w, e, runtime, floor, cap);
      assert !Saturated(w, e, cap);
    }
  }

  /** No device that fits is reserved more than once beyond another that fits. */
  ghost predicate Balanced(w: Worker, runtime: Runtime, floor: Option<nat>, cap: real, counts: Reservations) {
    forall d, e ::
      d in w.devices && e in w.devices && Fits(w, d, runtime, floor, cap) && Fits(w, e, runtime, floor, cap) ==>
        Reserved(counts, d.id) <= Reserved(counts, e.id) + 1
  }

  function Reserve(counts: Reservations, d: DeviceId): Reservations {
    counts[d := Reserved(counts, d) + 1]
  }

  /** Reserving the selected device keeps the fitting devices of every runtime balanced. */
  lemma BalanceKept(
    w: Worker, runtime: Runtime, other: Runtime, floor: Option<nat>, cap: real, counts: Reservations, d: Device)
    requires WorkerValid(w)
    requires SelectDevice(w, runtime, floor, cap, counts) == Some(d)
    requires Balanced(w, other, floor, cap, counts)
    ensures Balanced(w, other, floor, cap, Reserve(counts, d.id))
  {
    DeviceSelected(w, runtime, floor, cap, counts);
    var after := Reserve(counts, d.id);
    forall a, b | a in w.devices && b in w.devices && Fits(w, a, other, floor, cap) && Fits(w, b, other, floor, cap)
      ensures Reserved(after, a.id) <= Reserved(after, b.id) + 1
    {
      if a.id == d.id {
        SameDevice(w, a, d);
        assert !Before(w, counts, b, d);
      }
    }
  }

  lemma SameDevice(w: Worker, a: Device, b: Device)
    requires WorkerValid(w) && a in w.devices && b in w.devices && a.id == b.id
    ensures a == b
  {
    var i :| 0 <= i < |w.devices| && w.devices[i] == a;
    var j :| 0 <= j < |w.devices| && w.devices[j] == b;
  }

  // ---------- backends ----------

  predicate MimesOverlap(a: Mime, b: Mime) {
    && (a.major == "*" || b.major == "*" || a.major == b.major)
    && (a.minor == "*" || b.minor == "*" || a.minor == b.minor)
  }

  /** A concrete type that a pattern covers. */
  predicate Covers(pattern: Mime, concrete: Mime) {
    && (pattern.major == "*" || pattern.major == concrete.major)
    && (pattern.minor == "*" || pattern.minor == concrete.minor)
  }

  /** A type without wildcards. */
  predicate Concrete(m: Mime) {
    m.major != "*" && m.minor != "*"
  }

  /** A part that both patterns cover and that is no wildcard. */
  function CommonPart(a: string, b: string): (part: string)
    requires a == "*" || b == "*" || a == b
    ensures part != "*" && (a == "*" || a == part) && (b == "*" || b == part)
  {
    if a != "*" then a else if b != "*" then b else assert |"any"| == 3 && |"*"| == 1; "any"
  }

  /** Two patterns overlap exactly when some type without wildcards is covered by both. */
  lemma OverlapIff(a: Mime, b: Mime)
    ensures MimesOverlap(a, b) <==> exists m :: Concrete(m) && Covers(a, m) && Covers(b, m)
  {
    if MimesOverlap(a, b) {
      var m := Mime(CommonPart(a.major, b.major), CommonPart(a.minor, b.minor));
      assert Concrete(m) && Covers(a, m) && Covers(b, m);
    }
  }

  function Lookup(table: seq<Backend>, id: BackendId): Option<Backend> {
    if table == [] then None
    else if table[0].id == id then Some(table[0])
    else Lookup(table[1..], id)
  }

  /** The capability handles the source; MIME patterns, when given, decide alone. */
  predicate Handles(c: Capability, source: SourceMetadata) {
    if c.mimes != [] then exists m :: m in c.mimes && MimesOverlap(m, source.mime)
    else source.category in c.categories
  }

  /** What selection reads of a stage and its task. */
  datatype Job = Job(
    required: seq<Runtime>,
    candidates: seq<BackendId>,
    source: Option<SourceMetadata>,
    labels: map<Label, Label>,
    floor: Option<nat>
  )

  function JobOf(t: Task, s: Stage): Job {
    Job(s.spec.requiredRuntimes, s.spec.candidates, t.request.source,
      t.request.options.workerLabels, t.request.options.minimumMemory)
  }

  /** First of `order` that lies in `allowed`, or the length of `order`. */
  function FirstIn(order: seq<Runtime>, allowed: set<Runtime>): (k: nat)
    ensures k <= |order|
    ensures k < |order| ==> order[k] in allowed
    ensures forall i :: 0 <= i < k ==> order[i] !in allowed
  {
    if order == [] then 0
    else if order[0] in allowed then 0
    else 1 + FirstIn(order[1..], allowed)
  }

  /** The runtime on which this worker would run backend `id` for the job, if it can. */
  function Serves(
    table: seq<Backend>, id: BackendId, job: Job, offered: map<BackendKey, Capability>, runtimes: set<Runtime>)
    : Option<Runtime>
  {
    var backend := Lookup(table, id);
    if backend.None? || !backend.value.enabled || backend.value.key !in offered || job.source.None? then None
    else
      var capability := offered[backend.value.key];
      var k := FirstIn(job.required,
        (set r | r in backend.value.capability.runtimes && r in runtimes && r in capability.runtimes));
      if !Handles(capability, job.source.value) || k == |job.required| then None
      else Some(job.required[k])
  }

  datatype Choice = Choice(backend: BackendId, runtime: Runtime)

  function SelectFrom(
    table: seq<Backend>, candidates: seq<BackendId>, job: Job, offered: map<BackendKey, Capability>,
    runtimes: set<Runtime>)
    : Option<Choice>
  {
    if candidates == [] then None
    else
      var runtime := Serves(table, candidates[0], job, offered, runtimes);
      if runtime.Some? then Some(Choice(candidates[0], runtime.value))
      else SelectFrom(table, candidates[1..], job, offered, runtimes)
  }

  /** `_select_backend`: the first candidate the worker can run for the source. */
  function SelectBackend(table: seq<Backend>, job: Job, offered: map<BackendKey, Capability>, runtimes: set<Runtime>)
    : Option<Choice>
  {
    if runtimes * Elements(job.required) == {} then None
    else SelectFrom(table, job.candidates, job, offered, runtimes)
  }

  method FindBackend(table: seq<Backend>, job: Job, offered: map<BackendKey, Capability>, runtimes: set<Runtime>)
    returns (choice: Option<Choice>)
    ensures choice == SelectBackend(table, job, offered, runtimes)
  {
    if runtimes * Elements(job.required) == {} {
      return None;
    }
    for i := 0 to |job.candidates|
      invariant SelectFrom(table, job.candidates, job, offered, runtimes)
             == SelectFrom(table, job.candidates[i..], job, offered, runtimes)
    {
      var runtime := Serves(table, job.candidates[i], job, offered, runtimes);
      if runtime.Some? {
        return Some(Choice(job.candidates[i], runtime.value));
      }
      assert job.candidates[i..][1..] == job.candidates[i + 1..];
    }
    return None;
  }

  ghost predicate FirstServing(
    table: seq<Backend>, candidates: seq<BackendId>, k: int, job: Job, offered: map<BackendKey, Capability>,
    runtimes: set<Runtime>, choice: Choice)
  {
    && 0 <= k < |candidates|
    && candidates[k] == choice.backend
    && Serves(table, candidates[k], job, offered, runtimes) == Some(choice.runtime)
    && (forall i :: 0 <= i < k ==> Serves(table, candidates[i], job, offered, runtimes).None?)
  }

  /** The choice names a planned backend that serves, and no earlier candidate does. */
  lemma {:induction false} SelectFromFirst(
    table: seq<Backend>, candidates: seq<BackendId>, job: Job, offered: map<BackendKey, Capability>,
    runtimes: set<Runtime>)
    ensures var r := SelectFrom(table, candidates, job, offered, runtimes);
      && (r.None? <==> forall id :: id in candidates ==> Serves(table, id, job, offered, runtimes).None?)
      && (r.Some? ==> exists k :: FirstServing(table, candidates, k, job, offered, runtimes, r.value))
  {
    if candidates == [] {
    } else if Serves(table, candidates[0], job, offered, runtimes).Some? {
      assert FirstServing(table, candidates, 0, job, offered, runtimes,
        SelectFrom(table, candidates, job, offered, runtimes).value);
    } else {
      SelectFromFirst(table, candidates[1..], job, offered, runtimes);
      var r := SelectFrom(table, candidates, job, offered, runtimes);
      if r.Some? {
        var k :| FirstServing(table, candidates[1..], k, job, offered, runtimes, r.value);
        forall i | 0 <= i < k + 1 ensures Serves(table, candidates[i], job, offered, runtimes).None? {
          if i > 0 {
            assert candidates[i] == candidates[1..][i - 1];
          }
        }
        assert FirstServing(table, candidates, k + 1, job, offered, runtimes, r.value);
      }
    }
  }

  /** A selected runtime is required by the stage and available on the worker. */
  lemma SelectedRuntime(table: seq<Backend>, job: Job, offered: map<BackendKey, Capability>, runtimes: set<Runtime>)
    requires SelectBackend(table, job, offered, runtimes).Some?
    ensures SelectBackend(table, job, offered, runtimes).value.runtime in runtimes
    ensures SelectBackend(table, job, offered, runtimes).value.runtime in job.required
    ensures job.source.Some?
  {
    SelectFromFirst(table, job.candidates, job, offered, runtimes);
  }

  // ---------- ranking the workers ----------

  function DeviceLoad(w: Worker, d: Device): real {
    if d.id !in w.usage then 0.0
    else
      MaxReal(0.0, MaxReal(UtilizationLoad(w, d), MemoryLoad(w, d)))
  }

  /** The least load among the devices of these runtimes that meet the memory floor. */
  function LeastLoad(w: Worker, devices: seq<Device>, runtimes: set<Runtime>, floor: Option<nat>): Option<real> {
    if devices == [] then None
    else
      var best := LeastLoad(w, devices[..|devices| - 1], runtimes, floor);
      var d := devices[|devices| - 1];
      if d.runtime !in runtimes || !Roomy(w, d, floor) then best
      else if best.None? then Some(DeviceLoad(w, d))
      else Some(MinReal(best.value, DeviceLoad(w, d)))
  }

  /** The load of the slots in use and of the last heartbeat. */
  function ReportedLoad(w: Worker, active: nat): real {
    var slots := Ratio(active, w.maximumConcurrency);
    if w.resources.None? then slots
    else
      MaxReal(slots, MaxReal(w.resources.value.cpuPercent / 100.0,
        MinReal(Ratio(w.resources.value.running + w.resources.value.leased, w.maximumConcurrency), 1.0)))
  }

  function Ratio(part: nat, whole: Positive): real {
    part as real / whole as real
  }

  /** The busiest of the load signals. */
  function Load(w: Worker, active: nat, runtimes: set<Runtime>, floor: Option<nat>): real {
    var reported := ReportedLoad(w, active);
    var devices := LeastLoad(w, w.devices, runtimes, floor);
    if devices.None? then reported else MaxReal(reported, devices.value)
  }

  function Score(w: Worker, active: nat, runtimes: set<Runtime>, floor: Option<nat>): real {
    w.weight as real * CapacityFactor(Load(w, active, runtimes, floor))
  }

  function CapacityFactor(load: real): real {
    MaxReal(1.0 - MinReal(load, 1.0), 0.05)
  }

  method WorkerSchedulingScore(w: Worker, active: nat, runtimes: set<Runtime>, floor: Option<nat>)
    returns (score: real)
    ensures score == Score(w, active, runtimes, floor)
  {
    var load := ReportedLoad(w, active);
    var least: Option<real> := None;
    for i := 0 to |w.devices|
      invariant least == LeastLoad(w, w.devices[..i], runtimes, floor)
    {
      assert w.devices[..i + 1][..i] == w.devices[..i];
      var d := w.devices[i];
      if d.runtime in runtimes && Roomy(w, d, floor) {
        var deviceLoad := DeviceLoad(w, d);
        least := Some(if least.None? then deviceLoad else MinReal(least.value, deviceLoad));
      }
    }
    assert w.devices[..|w.devices|] == w.devices;
    if least.Some? {
      load := MaxReal(load, least.value);
    }
    score := w.weight as real * CapacityFactor(load);
  }

  function Twentieth(weight: real): real {
    weight * 0.05
  }

  /** A worker keeps at least a twentieth of its weight and never exceeds it. */
  lemma ScoreBounds(w: Worker, active: nat, runtimes: set<Runtime>, floor: Option<nat>)
    ensures Twentieth(w.weight as real) <= Score(w, active, runtimes, floor) <= w.weight as real
  {
    hide Load, CapacityFactor, Twentieth;
    LoadNonNegative(w, active, runtimes, floor);
    FactorBounds(Load(w, active, runtimes, floor));
    var weight, factor := w.weight as real, CapacityFactor(Load(w, active, runtimes, floor));
    Scaled(weight, factor);
    assert Score(w, active, runtimes, floor) == weight * factor;
  }

  lemma FactorBounds(load: real)
    requires 0.0 <= load
    ensures 0.05 <= CapacityFactor(load) <= 1.0
  {
  }

  lemma Scaled(weight: real, factor: real)
    requires 0.0 <= weight && 0.05 <= factor <= 1.0
    ensures Twentieth(weight) <= weight * factor <= weight
  {
    Times(weight, 0.05, factor);
    Times(weight, factor, 1.0);
  }

  lemma LoadNonNegative(w: Worker, active: nat, runtimes: set<Runtime>, floor: Option<nat>)
    ensures 0.0 <= Load(w, active, runtimes, floor)
  {
    hide LeastLoad;
    DivideMonotone(active as real, active as real, w.maximumConcurrency as real);
  }

  /** The least loaded compatible device sets the device load. */
  lemma {:induction false} LeastLoadMeans(w: Worker, devices: seq<Device>, runtimes: set<Runtime>, floor: Option<nat>)
    ensures var least := LeastLoad(w, devices, runtimes, floor);
      && (least.None? <==> forall d :: d in devices ==> !Compatible(w, d, runtimes, floor))
      && (least.Some? ==>
            forall d :: d in devices && Compatible(w, d, runtimes, floor) ==> least.value <= DeviceLoad(w, d))
      && (least.Some? ==>
            exists d :: d in devices && Compatible(w, d, runtimes, floor) && DeviceLoad(w, d) == least.value)
  {
    hide DeviceLoad, Roomy;
    if devices != [] {
      var n := |devices| - 1;
      LeastLoadMeans(w, devices[..n], runtimes, floor);
      assert devices == devices[..n] + [devices[n]];
      assert devices[n] in devices;
      assert forall d :: d in devices[..n] ==> d in devices;
      assert forall d :: d in devices ==> d in devices[..n] || d == devices[n];
    }
  }

  predicate Compatible(w: Worker, d: Device, runtimes: set<Runtime>, floor: Option<nat>) {
    d.runtime in runtimes && Roomy(w, d, floor)
  }

  lemma LoadRises(w: Worker, fewer: nat, more: nat, runtimes: set<Runtime>, floor: Option<nat>)
    requires fewer <= more
    ensures Load(w, fewer, runtimes, floor) <= Load(w, more, runtimes, floor)
  {
    hide LeastLoad;
    DivideMonotone(fewer as real, more as real, w.maximumConcurrency as real);
  }

  /** A busier worker never scores higher. */
  lemma ScoreFalls(w: Worker, fewer: nat, more: nat, runtimes: set<Runtime>, floor: Option<nat>)
    requires fewer <= more
    ensures Score(w, more, runtimes, floor) <= Score(w, fewer, runtimes, floor)
  {
    hide Load;
    LoadRises(w, fewer, more, runtimes, floor);
    var low, high := CapacityFactor(Load(w, more, runtimes, floor)), CapacityFactor(Load(w, fewer, runtimes, floor));
    Times(w.weight as real, low, high);
  }

  /** Everything the admission ranking reads. */
  datatype Market = Market(
    workers: map<WorkerId, Worker>,
    backends: seq<Backend>,
    cap: real,
    active: map<WorkerId, nat>
  ) {
    function Active(id: WorkerId): nat {
      if id in active then active[id] else 0
    }
  }

  datatype RankKey = RankKey(place: int, score: real, weight: nat, idle: int)

  predicate LabelsMatch(w: Worker, labels: map<Label, Label>) {
    forall k :: k in labels ==> k in w.labels && w.labels[k] == labels[k]
  }

  function Rank(m: Market, id: WorkerId, job: Job): Option<RankKey>
    requires id in m.workers
  {
    var w := m.workers[id];
    if m.Active(id) >= w.maximumConcurrency || !LabelsMatch(w, job.labels) then None
    else
      var runtimes := AvailableRuntimes(w, job.floor, m.cap);
      if SelectBackend(m.backends, job, w.capabilities, runtimes).None? then None
      else
        var compatible := runtimes * Elements(job.required);
        Some(RankKey(
          0 - FirstIn(job.required, compatible),
          Score(w, m.Active(id), compatible, job.floor),
          w.weight,
          0 - m.Active(id)))
  }

  predicate Lower(a: RankKey, b: RankKey) {
    || a.place < b.place
    || (a.place == b.place && (a.score < b.score
        || (a.score == b.score && (a.weight < b.weight || (a.weight == b.weight && a.idle < b.idle)))))
  }

  predicate Eligible(m: Market, id: WorkerId, job: Job) {
    id in m.workers && m.workers[id].AcceptsLeases() && Rank(m, id, job).Some?
  }

  predicate Outranks(a: RankKey, i: WorkerId, b: RankKey, j: WorkerId) {
    Lower(b, a) || (a == b && i < j)
  }

  /** `id` outranks `other`; equal ranks go to the smaller identifier. */
  predicate Beats(m: Market, id: WorkerId, other: WorkerId, job: Job)
    requires Eligible(m, id, job) && Eligible(m, other, job)
  {
    Outranks(Rank(m, id, job).value, id, Rank(m, other, job).value, other)
  }

  /** The elected worker for a job. */
  predicate Preferred(m: Market, id: WorkerId, job: Job) {
    && Eligible(m, id, job)
    && (forall o :: o in m.workers && o != id && Eligible(m, o, job) ==> Beats(m, id, o, job))
  }

  lemma {:induction false} BestOf(ranks: map<WorkerId, RankKey>) returns (best: WorkerId)
    requires ranks != map[]
    ensures best in ranks
    ensures forall o :: o in ranks && o != best ==> Outranks(ranks[best], best, ranks[o], o)
    decreases |ranks|
  {
    var x :| x in ranks;
    var others := map o | o in ranks && o != x :: ranks[o];
    assert others.Keys == ranks.Keys - {x};
    if others == map[] {
      best := x;
      assert others.Keys == {};
      assert ranks.Keys == {x};
    } else {
      var rest := BestOf(others);
      best := if Outranks(ranks[x], x, ranks[rest], rest) then x else rest;
      forall o | o in ranks && o != best ensures Outranks(ranks[best], best, ranks[o], o) {
        assert o == x || o in others;
      }
    }
  }

  /** For a fixed snapshot with an eligible worker, exactly one worker is elected. */
  lemma ElectionUnique(m: Market, job: Job) returns (elected: WorkerId)
    requires exists id :: Eligible(m, id, job)
    ensures Preferred(m, elected, job)
    ensures forall id :: Preferred(m, id, job) ==> id == elected
  {
    var ranks := map id | id in m.workers && Eligible(m, id, job) :: Rank(m, id, job).value;
    var some :| Eligible(m, some, job);
    assert some in ranks;
    elected := BestOf(ranks);
    forall o | o in m.workers && o != elected && Eligible(m, o, job) ensures Beats(m, elected, o, job) {
      assert o in ranks;
    }
    forall id | Preferred(m, id, job) ensures id == elected {
      PreferredUnique(m, id, elected, job);
    }
  }

  lemma PreferredUnique(m: Market, a: WorkerId, b: WorkerId, job: Job)
    requires Preferred(m, a, job) && Preferred(m, b, job)
    ensures a == b
  {
  }

  /** The two snapshots differ at most in a higher count for one worker. */
  ghost predicate Busier(m: Market, n: Market, id: WorkerId) {
    && n.workers == m.workers && n.backends == m.backends && n.cap == m.cap
    && m.Active(id) <= n.Active(id)
    && (forall o :: o in m.workers && o != id ==> n.Active(o) == m.Active(o))
  }

  lemma RankFalls(m: Market, n: Market, id: WorkerId, job: Job)
    requires id in m.workers && Busier(m, n, id) && Rank(n, id, job).Some?
    ensures Rank(m, id, job).Some?
    ensures Rank(m, id, job) == Rank(n, id, job) || Lower(Rank(n, id, job).value, Rank(m, id, job).value)
  {
    hide Score, AvailableRuntimes, SelectBackend, LabelsMatch;
    var w := m.workers[id];
    var compatible := AvailableRuntimes(w, job.floor, m.cap) * Elements(job.required);
    ScoreFalls(w, m.Active(id), n.Active(id), compatible, job.floor);
  }

  lemma RankSame(m: Market, n: Market, id: WorkerId, job: Job)
    requires id in m.workers && n.workers == m.workers && n.backends == m.backends && n.cap == m.cap
    requires n.Active(id) == m.Active(id)
    ensures Rank(n, id, job) == Rank(m, id, job)
  {
  }

  /** A worker that loses an election does not win it by taking on more work. */
  lemma LoserStaysLoser(m: Market, n: Market, id: WorkerId, job: Job)
    requires Busier(m, n, id) && Preferred(n, id, job)
    ensures Preferred(m, id, job)
  {
    hide Rank;
    RankFalls(m, n, id, job);
    forall o | o in m.workers && o != id && Eligible(m, o, job) ensures Beats(m, id, o, job) {
      RankSame(m, n, o, job);
      assert Beats(n, id, o, job);
    }
  }

  /** The elected worker passes every gate of its own lease loop. */
  lemma ElectedPassesGates(m: Market, id: WorkerId, job: Job, counts: Reservations)
    requires 0.0 < m.cap && Preferred(m, id, job)
    ensures var w := m.workers[id];
      var runtimes := AvailableRuntimes(w, job.floor, m.cap);
      var choice := SelectBackend(m.backends, job, w.capabilities, runtimes);
      && w.AcceptsLeases() && m.Active(id) < w.maximumConcurrency && LabelsMatch(w, job.labels)
      && job.source.Some? && choice.Some?
      && SelectDevice(w, choice.value.runtime, job.floor, m.cap, counts).Some?
  {
    var w := m.workers[id];
    var runtimes := AvailableRuntimes(w, job.floor, m.cap);
    SelectedRuntime(m.backends, job, w.capabilities, runtimes);
    var runtime := SelectBackend(m.backends, job, w.capabilities, runtimes).value.runtime;
    AvailableHasDevice(w, runtime, job.floor, m.cap, counts);
  }

  datatype Ranked = Ranked(key: RankKey, id: WorkerId)

  method RankCandidates(m: Market, candidates: seq<WorkerId>, job: Job) returns (ranked: seq<Ranked>)
    requires forall id :: id in candidates ==> id in m.workers
    ensures forall r :: r in ranked ==> r.id in candidates && Rank(m, r.id, job) == Some(r.key)
    ensures forall id :: id in candidates && Rank(m, id, job).Some? ==>
      Ranked(Rank(m, id, job).value, id) in ranked
  {
    ranked := [];
    for i := 0 to |candidates|
      invariant forall r :: r in ranked ==> r.id in candidates && Rank(m, r.id, job) == Some(r.key)
      invariant forall k :: 0 <= k < i && Rank(m, candidates[k], job).Some? ==>
        Ranked(Rank(m, candidates[k], job).value, candidates[k]) in ranked
    {
      var id := candidates[i];
      var key := RankOne(m, id, job);
      if key.Some? {
        ranked := ranked + [Ranked(key.value, id)];
      }
    }
  }

  method RankOne(m: Market, id: WorkerId, job: Job) returns (key: Option<RankKey>)
    requires id in m.workers
    ensures key == Rank(m, id, job)
  {
    var w := m.workers[id];
    if m.Active(id) >= w.maximumConcurrency || !LabelsMatch(w, job.labels) {
      return None;
    }
    var runtimes := AvailableWorkerRuntimes(w, job.floor, m.cap);
    var choice := FindBackend(m.backends, job, w.capabilities, runtimes);
    if choice.None? {
      return None;
    }
    var compatible := runtimes * Elements(job.required);
    var score := WorkerSchedulingScore(w, m.Active(id), compatible, job.floor);
    key := Some(RankKey(0 - FirstIn(job.required, compatible), score, w.weight, 0 - m.Active(id)));
  }

  /** The best key and, among those that have it, the least identifier. */
  method Winner(ranked: seq<Ranked>) returns (winner: Ranked)
    requires ranked != []
    ensures winner in ranked
    ensures forall r :: r in ranked && r != winner ==> Outranks(winner.key, winner.id, r.key, r.id)
  {
    var best := ranked[0].key;
    for i := 0 to |ranked|
      invariant exists k :: 0 <= k < |ranked| && ranked[k].key == best
      invariant forall k :: 0 <= k < i ==> !Lower(best, ranked[k].key)
    {
      if Lower(best, ranked[i].key) {
        best := ranked[i].key;
      }
    }
    var id: Option<WorkerId> := None;
    for i := 0 to |ranked|
      invariant id.Some? ==> Ranked(best, id.value) in ranked
      invariant forall k :: 0 <= k < i && ranked[k].key == best ==> id.Some? && id.value <= ranked[k].id
    {
      if ranked[i].key == best && (id.None? || ranked[i].id < id.value) {
        id := Some(ranked[i].id);
      }
    }
    winner := Ranked(best, id.value);
  }

  /** `_requesting_worker_is_preferred`: ranks the candidate workers and compares the winner. */
  method RequestingWorkerIsPreferred(m: Market, candidates: seq<WorkerId>, requesting: WorkerId, job: Job)
    returns (preferred: bool)
    requires forall id :: id in candidates <==> id in m.workers && m.workers[id].AcceptsLeases()
    ensures preferred <==> Preferred(m, requesting, job)
  {
    var ranked := RankCandidates(m, candidates, job);
    if ranked == [] {
      return false;
    }
    var winner := Winner(ranked);
    preferred := winner.id == requesting;
    forall o | o in m.workers && o != winner.id && Eligible(m, o, job) ensures Beats(m, winner.id, o, job) {
      assert Ranked(Rank(m, o, job).value, o) in ranked;
    }
    assert Preferred(m, winner.id, job);
    if Preferred(m, requesting, job) {
      PreferredUnique(m, requesting, winner.id, job);
    }
  }

  // ---------- the election, in terms of the rows ----------

  /** Memory the worker last reported for the device, or what the device was registered with. */
  ghost predicate HasMemory(w: Worker, d: Device, total: nat) {
    if d.id in w.usage && w.usage[d.id].memoryTotal.Some? then w.usage[d.id].memoryTotal == Some(total)
    else d.totalMemory == Some(total)
  }

  ghost predicate UsesMemory(w: Worker, d: Device, used: nat) {
    if d.id in w.usage && w.usage[d.id].memoryUsed.Some? then w.usage[d.id].memoryUsed == Some(used) else used == 0
  }

  /** The device can take the job on this runtime: below the memory cap, and with the memory floor free. */
  ghost predicate CanHost(w: Worker, d: Device, runtime: Runtime, floor: Option<nat>, cap: real) {
    && d in w.devices && d.runtime == runtime
    && (forall total: nat, used: nat :: HasMemory(w, d, total) && UsesMemory(w, d, used) && total > 0 ==>
          used as real * 100.0 < cap * total as real)
    && (floor.Some? ==>
          exists total: nat, used: nat ::
            HasMemory(w, d, total) && UsesMemory(w, d, used) && used + floor.value <= total)
  }

  lemma ShareBelow(used: real, total: real, cap: real)
    requires 0.0 < total
    ensures used / total * 100.0 < cap <==> used * 100.0 < cap * total
  {
    var share := used / total;
    assert share * total == used;
    assert (share * 100.0 - cap) * total == used * 100.0 - cap * total;
    ProductSign(share * 100.0 - cap, total);
  }

  /** A device fits exactly when it can host the job, by the numbers in its rows. */
  lemma FitsMeans(w: Worker, d: Device, runtime: Runtime, floor: Option<nat>, cap: real)
    requires 0.0 < cap && d in w.devices
    ensures Fits(w, d, runtime, floor, cap) <==> CanHost(w, d, runtime, floor, cap)
  {
    hide Overloaded, Roomy;
    BelowCap(w, d, cap);
    AboveFloor(w, d, floor);
  }

  lemma MemoryOf(w: Worker, d: Device)
    ensures UsesMemory(w, d, UsedMemory(w, d)) && forall u: nat :: UsesMemory(w, d, u) ==> u == UsedMemory(w, d)
    ensures forall t: nat :: HasMemory(w, d, t) <==> TotalMemory(w, d) == Some(t)
  {
  }

  lemma BelowCap(w: Worker, d: Device, cap: real)
    requires 0.0 < cap
    ensures !Overloaded(w, d, cap) <==>
      forall total: nat, used: nat :: HasMemory(w, d, total) && UsesMemory(w, d, used) && total > 0 ==>
        used as real * 100.0 < cap * total as real
  {
    hide HasMemory, UsesMemory, UsedMemory, TotalMemory;
    MemoryOf(w, d);
    var total, used := TotalMemory(w, d), UsedMemory(w, d);
    if total.Some? && total.value > 0 {
      ShareBelow(used as real, total.value as real, cap);
      assert HasMemory(w, d, total.value);
    }
  }

  lemma AboveFloor(w: Worker, d: Device, floor: Option<nat>)
    ensures Roomy(w, d, floor) <==>
      (floor.Some? ==>
         exists total: nat, used: nat ::
           HasMemory(w, d, total) && UsesMemory(w, d, used) && used + floor.value <= total)
  {
    hide HasMemory, UsesMemory, UsedMemory, TotalMemory;
    MemoryOf(w, d);
    var total, used := TotalMemory(w, d), UsedMemory(w, d);
    if total.Some? {
      assert HasMemory(w, d, total.value);
    }
  }

  /** The load of a device as reported: the busier of its memory and its utilisation. */
  lemma PressureMeans(w: Worker, d: Device)
    ensures MemoryLoad(w, d) <= PressureOf(w, d) && UtilizationLoad(w, d) <= PressureOf(w, d)
    ensures PressureOf(w, d) == MemoryLoad(w, d) || PressureOf(w, d) == UtilizationLoad(w, d)
    ensures d.id in w.usage && w.usage[d.id].utilization.Some? ==>
      UtilizationLoad(w, d) * 100.0 == w.usage[d.id].utilization.value
    ensures d.id !in w.usage || w.usage[d.id].utilization.None? ==> UtilizationLoad(w, d) == 0.0
    ensures forall total: nat, used: nat :: HasMemory(w, d, total) && UsesMemory(w, d, used) && total > 0 ==>
      MemoryLoad(w, d) * total as real == used as real
  {
    var total := TotalMemory(w, d);
    if total.Some? && total.value > 0 {
      DivideBack(UsedMemory(w, d) as real, total.value as real);
    }
  }

  lemma DivideBack(a: real, m: real)
    requires 0.0 < m
    ensures a / m * m == a
  {
  }

  /** The selected device: fewest reservations, then the lightest load, then the smallest identifier. */
  lemma DeviceLaw(
    w: Worker, d: Device, e: Device, runtime: Runtime, floor: Option<nat>, cap: real, counts: Reservations)
    requires 0.0 < cap && SelectDevice(w, runtime, floor, cap, counts) == Some(d) && CanHost(w, e, runtime, floor, cap)
    ensures CanHost(w, d, runtime, floor, cap)
    ensures
      || Reserved(counts, d.id) < Reserved(counts, e.id)
      || (Reserved(counts, d.id) == Reserved(counts, e.id) && PressureOf(w, d) < PressureOf(w, e))
      || (Reserved(counts, d.id) == Reserved(counts, e.id) && PressureOf(w, d) == PressureOf(w, e) && d.id <= e.id)
  {
    DeviceSelected(w, runtime, floor, cap, counts);
    FitsMeans(w, d, runtime, floor, cap);
    FitsMeans(w, e, runtime, floor, cap);
  }

  /** The worker may be handed the job: it accepts leases, has a slot and the labels, and can run a candidate. */
  ghost predicate MayTake(m: Market, id: WorkerId, job: Job) {
    && id in m.workers && m.workers[id].AcceptsLeases() && m.Active(id) < m.workers[id].maximumConcurrency
    && (forall k :: k in job.labels ==> k in m.workers[id].labels && m.workers[id].labels[k] == job.labels[k])
    && SelectBackend(
         m.backends, job, m.workers[id].capabilities, AvailableRuntimes(m.workers[id], job.floor, m.cap)).Some?
  }

  ghost predicate Hosts(w: Worker, runtime: Runtime, floor: Option<nat>, cap: real) {
    exists d :: CanHost(w, d, runtime, floor, cap)
  }

  /** The first of the stage's runtimes, in its own order of preference, that the worker has a device for. */
  ghost predicate FirstHosted(w: Worker, job: Job, cap: real, b: int) {
    && 0 <= b < |job.required| && Hosts(w, job.required[b], job.floor, cap)
    && (forall i :: 0 <= i < b ==> !Hosts(w, job.required[i], job.floor, cap))
  }

  /** The runtimes of the stage that the worker has a device for. */
  ghost function Hosted(w: Worker, job: Job, cap: real): set<Runtime> {
    set r | r in job.required && Hosts(w, r, job.floor, cap)
  }

  lemma HostedRuntimes(w: Worker, job: Job, cap: real)
    requires 0.0 < cap
    ensures AvailableRuntimes(w, job.floor, cap) * Elements(job.required) == Hosted(w, job, cap)
    ensures forall r :: r in AvailableRuntimes(w, job.floor, cap) <==> Hosts(w, r, job.floor, cap)
  {
    forall r ensures r in AvailableRuntimes(w, job.floor, cap) <==> Hosts(w, r, job.floor, cap) {
      AvailableHasDevice(w, r, job.floor, cap, map[]);
      DeviceSelected(w, r, job.floor, cap, map[]);
      forall d | d in w.devices ensures Fits(w, d, r, job.floor, cap) <==> CanHost(w, d, r, job.floor, cap) {
        FitsMeans(w, d, r, job.floor, cap);
      }
    }
  }

  /**
   `a` is ahead of `b`: an earlier runtime decides, then the higher score, then the higher
   weight, then the fewer stages held, then the smaller identifier.
   */
  ghost predicate Ahead(m: Market, job: Job, a: WorkerId, b: WorkerId, i: int, j: int)
    requires a in m.workers && b in m.workers
  {
    var v, w := m.workers[a], m.workers[b];
    var x := Score(v, m.Active(a), Hosted(v, job, m.cap), job.floor);
    var y := Score(w, m.Active(b), Hosted(w, job, m.cap), job.floor);
    || i < j
    || (i == j && x > y)
    || (i == j && x == y && v.weight > w.weight)
    || (i == j && x == y && v.weight == w.weight && m.Active(a) < m.Active(b))
    || (i == j && x == y && v.weight == w.weight && m.Active(a) == m.Active(b) && a < b)
  }

  lemma EligibleIff(m: Market, id: WorkerId, job: Job)
    ensures Eligible(m, id, job) <==> MayTake(m, id, job)
  {
    hide SelectBackend, AvailableRuntimes, Score;
  }

  /** The rank of a worker, spelt out. */
  lemma RankMeans(m: Market, id: WorkerId, job: Job) returns (i: int)
    requires 0.0 < m.cap && MayTake(m, id, job)
    ensures FirstHosted(m.workers[id], job, m.cap, i)
    ensures var w := m.workers[id];
      Rank(m, id, job) == Some(RankKey(
        0 - i, Score(w, m.Active(id), Hosted(w, job, m.cap), job.floor), w.weight, 0 - m.Active(id)))
  {
    var w := m.workers[id];
    var runtimes := AvailableRuntimes(w, job.floor, m.cap);
    HostedRuntimes(w, job, m.cap);
    SelectedRuntime(m.backends, job, w.capabilities, runtimes);
    var r := SelectBackend(m.backends, job, w.capabilities, runtimes).value.runtime;
    hide SelectBackend, AvailableRuntimes, Score, Hosts;
    i := FirstIn(job.required, runtimes * Elements(job.required));
    assert r in runtimes * Elements(job.required);
    assert forall k :: 0 <= k < |job.required| ==> job.required[k] in Elements(job.required);
  }

  lemma FirstHostedUnique(w: Worker, job: Job, cap: real, i: int, j: int)
    requires FirstHosted(w, job, cap, i) && FirstHosted(w, job, cap, j)
    ensures i == j
  {
  }

  /**
   The election law: a worker is elected exactly when it may take the job and is ahead of
   every other worker that may.
   */
  lemma ElectionLaw(m: Market, id: WorkerId, job: Job)
    requires 0.0 < m.cap
    ensures Preferred(m, id, job) <==>
      MayTake(m, id, job)
      && forall o, i, j ::
           o != id && MayTake(m, o, job)
           && FirstHosted(m.workers[id], job, m.cap, i) && FirstHosted(m.workers[o], job, m.cap, j) ==>
             Ahead(m, job, id, o, i, j)
  {
    hide SelectBackend, AvailableRuntimes, Score, Rank, FirstHosted, MayTake, Eligible, Hosted;
    EligibleIff(m, id, job);
    EligibleIn(m, id, job);
    if MayTake(m, id, job) {
      var i := RankMeans(m, id, job);
      forall o | o != id && MayTake(m, o, job)
        ensures o in m.workers && Eligible(m, o, job) && exists j :: FirstHosted(m.workers[o], job, m.cap, j)
        ensures forall x, j :: FirstHosted(m.workers[id], job, m.cap, x) && FirstHosted(m.workers[o], job, m.cap, j) ==>
          (Ahead(m, job, id, o, x, j) <==> Beats(m, id, o, job))
      {
        EligibleIff(m, o, job);
        EligibleIn(m, o, job);
        var j := RankMeans(m, o, job);
        forall x, y | FirstHosted(m.workers[id], job, m.cap, x) && FirstHosted(m.workers[o], job, m.cap, y)
          ensures x == i && y == j
        {
          FirstHostedUnique(m.workers[id], job, m.cap, x, i);
          FirstHostedUnique(m.workers[o], job, m.cap, y, j);
        }
      }
      forall o | o in m.workers ensures Eligible(m, o, job) <==> MayTake(m, o, job) {
        EligibleIff(m, o, job);
      }
    }
  }

  lemma EligibleIn(m: Market, id: WorkerId, job: Job)
    ensures MayTake(m, id, job) ==> id in m.workers
  {
  }

  // ---------- the score, in terms of the rows ----------

  /** `x` is the given share of the whole. */
  ghost predicate IsShare(x: real, part: nat, whole: Positive) {
    x * whole as real == part as real
  }

  lemma ShareIff(x: real, part: nat, whole: Positive)
    ensures IsShare(x, part, whole) <==> x == Ratio(part, whole)
    ensures part >= whole <==> Ratio(part, whole) >= 1.0
  {
    var m, a := whole as real, part as real;
    DivideBack(a, m);
    DivideMonotone(a, m, m);
    DivideMonotone(m, a, m);
    assert m / m == 1.0;
    if x * m == a {
      ScaleUnique(x, a / m, m);
    }
  }

  lemma ScaleUnique(x: real, y: real, m: real)
    requires 0.0 < m && x * m == y * m
    ensures x == y
  {
    ProductSign(x - y, m);
    ProductSign(y - x, m);
    assert (x - y) * m == x * m - y * m;
  }

  /** One of the load signals of a worker: slots in use, CPU, tasks it reported, its least loaded device. */
  ghost predicate Signal(w: Worker, active: nat, runtimes: set<Runtime>, floor: Option<nat>, x: real) {
    || IsShare(x, active, w.maximumConcurrency)
    || (w.resources.Some? && x * 100.0 == w.resources.value.cpuPercent)
    || (w.resources.Some? && ReportedShare(w.resources.value, w.maximumConcurrency, x))
    || LeastLoad(w, w.devices, runtimes, floor) == Some(x)
  }

  /** The reported tasks as a share of the slots, at most all of them. */
  ghost predicate ReportedShare(r: Resources, slots: Positive, x: real) {
    if r.running + r.leased >= slots then x == 1.0 else IsShare(x, r.running + r.leased, slots)
  }

  /** The load is the busiest signal: it is one of them, and none is higher. */
  lemma LoadBusiest(w: Worker, active: nat, runtimes: set<Runtime>, floor: Option<nat>, x: real)
    ensures Signal(w, active, runtimes, floor, Load(w, active, runtimes, floor))
    ensures Signal(w, active, runtimes, floor, x) ==> x <= Load(w, active, runtimes, floor)
  {
    hide LeastLoad, Ratio, IsShare;
    var load := Load(w, active, runtimes, floor);
    ShareIff(x, active, w.maximumConcurrency);
    ShareIff(load, active, w.maximumConcurrency);
    if w.resources.Some? {
      var busy := w.resources.value.running + w.resources.value.leased;
      ShareIff(x, busy, w.maximumConcurrency);
      ShareIff(load, busy, w.maximumConcurrency);
    }
  }

  /** The score scales the weight by the free capacity, of which a twentieth is always left. */
  lemma ScoreExact(w: Worker, active: nat, runtimes: set<Runtime>, floor: Option<nat>)
    ensures var load, score := Load(w, active, runtimes, floor), Score(w, active, runtimes, floor);
      && (load <= 0.95 ==> score == w.weight as real * (1.0 - load))
      && (load >= 0.95 ==> score == Twentieth(w.weight as real))
  {
    hide Load;
    LoadNonNegative(w, active, runtimes, floor);
  }

  /** The load of a device that takes part: what it last reported, and nothing when it reported nothing. */
  lemma DeviceLoadMeans(w: Worker, d: Device)
    ensures d.id !in w.usage ==> DeviceLoad(w, d) == 0.0
    ensures d.id in w.usage ==> DeviceLoad(w, d) == MaxReal(0.0, PressureOf(w, d))
  {
  }

  // ---------- backend selection, in terms of the rows ----------

  /** The worker can run backend `b` for the job on this runtime. */
  ghost predicate CanRun(
    b: Backend, job: Job, offered: map<BackendKey, Capability>, runtimes: set<Runtime>, runtime: Runtime)
  {
    && b.enabled && b.key in offered && job.source.Some?
    && (offered[b.key].mimes != [] ==>
          exists p, m :: p in offered[b.key].mimes && Concrete(m) && Covers(p, m) && Covers(job.source.value.mime, m))
    && (offered[b.key].mimes == [] ==> job.source.value.category in offered[b.key].categories)
    && runtime in job.required && runtime in b.capability.runtimes && runtime in runtimes
    && runtime in offered[b.key].runtimes
  }

  /** The runtime is the earliest, in the order of the stage, on which the worker can run the backend. */
  lemma ServesMeans(
    table: seq<Backend>, b: Backend, job: Job, offered: map<BackendKey, Capability>, runtimes: set<Runtime>, k: int)
    requires Lookup(table, b.id) == Some(b) && 0 <= k < |job.required|
    requires forall i :: 0 <= i < k ==> job.required[i] != job.required[k]
    ensures Serves(table, b.id, job, offered, runtimes) == Some(job.required[k]) <==>
      CanRun(b, job, offered, runtimes, job.required[k])
      && forall i :: 0 <= i < k ==> !CanRun(b, job, offered, runtimes, job.required[i])
  {
    if job.source.Some? && b.key in offered {
      HandlesMeans(offered[b.key], job.source.value);
      var allowed := set r | r in b.capability.runtimes && r in runtimes && r in offered[b.key].runtimes;
      var first := FirstIn(job.required, allowed);
      hide Handles;
      assert first < |job.required| ==> job.required[first] in allowed;
    }
  }

  lemma HandlesMeans(c: Capability, source: SourceMetadata)
    ensures c.mimes != [] ==>
      (Handles(c, source) <==>
         exists p, m :: p in c.mimes && Concrete(m) && Covers(p, m) && Covers(source.mime, m))
    ensures c.mimes == [] ==> (Handles(c, source) <==> source.category in c.categories)
  {
    if c.mimes != [] {
      if Handles(c, source) {
        var p :| p in c.mimes && MimesOverlap(p, source.mime);
        OverlapIff(p, source.mime);
      }
      if exists p, m :: p in c.mimes && Concrete(m) && Covers(p, m) && Covers(source.mime, m) {
        var p, m :| p in c.mimes && Concrete(m) && Covers(p, m) && Covers(source.mime, m);
        OverlapIff(p, source.mime);
      }
    }
  }
}

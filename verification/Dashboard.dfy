/** The dashboard figures: percentiles, status counts and bucketed series. */
module Dashboard {
  import opened Common
  import opened TaskState
  import opened Records

  // ---------- percentiles ----------

  ghost predicate Ascending(s: seq<real>) {
    forall i, j :: 0 <= i <= j < |s| ==> s[i] <= s[j]
  }

  function Insert(s: seq<real>, x: real): (r: seq<real>)
    ensures |r| == |s| + 1
  {
    if s == [] || x <= s[0] then [x] + s else [s[0]] + Insert(s[1..], x)
  }

  function Sort(values: seq<real>): (r: seq<real>)
    ensures |r| == |values|
  {
    if values == [] then [] else Insert(Sort(values[1..]), values[0])
  }

  lemma {:induction false} InsertElements(s: seq<real>, x: real)
    ensures multiset(Insert(s, x)) == multiset(s) + multiset{x}
    ensures forall y :: y in Insert(s, x) <==> y == x || y in s
  {
    if s != [] && x > s[0] {
      InsertElements(s[1..], x);
      assert s == [s[0]] + s[1..];
    }
  }

  lemma {:induction false} InsertSorts(s: seq<real>, x: real)
    requires Ascending(s)
    ensures Ascending(Insert(s, x))
  {
    if s != [] && x > s[0] {
      InsertSorts(s[1..], x);
      InsertElements(s[1..], x);
      Prepend(s[0], Insert(s[1..], x));
    }
  }

  lemma Prepend(x: real, s: seq<real>)
    requires Ascending(s) && forall y :: y in s ==> x <= y
    ensures Ascending([x] + s)
  {
    var t := [x] + s;
    forall i, j | 0 <= i <= j < |t| ensures t[i] <= t[j] {
      if j > 0 {
        assert t[j] == s[j - 1] && s[j - 1] in s;
        assert i > 0 ==> t[i] == s[i - 1];
      }
    }
  }

  lemma {:induction false} SortSorts(values: seq<real>)
    ensures Ascending(Sort(values)) && multiset(Sort(values)) == multiset(values)
    ensures forall y :: y in Sort(values) <==> y in values
  {
    if values != [] {
      SortSorts(values[1..]);
      InsertSorts(Sort(values[1..]), values[0]);
      InsertElements(Sort(values[1..]), values[0]);
      assert values == [values[0]] + values[1..];
    }
  }

  function Blend(low: real, high: real, part: real): real {
    low + (high - low) * part
  }

  /** The value at a fractional position, interpolated between its neighbours. */
  function At(ordered: seq<real>, position: real): real
    requires 0.0 <= position <= (|ordered| - 1) as real
  {
    var lower := position.Floor;
    if lower as real == position then ordered[lower]
    else Blend(ordered[lower], ordered[lower + 1], position - lower as real)
  }

  function Position(n: nat, p: real): (x: real)
    requires 1 <= n && 0.0 <= p <= 1.0
    ensures 0.0 <= x <= (n - 1) as real
  {
    Part((n - 1) as real, p);
    (n - 1) as real * p
  }

  function Percentile(values: seq<real>, p: real): real
    requires 0.0 <= p <= 1.0
  {
    if values == [] then 0.0 else At(Sort(values), Position(|values|, p))
  }

  lemma BlendBounds(low: real, high: real, part: real)
    requires low <= high && 0.0 <= part <= 1.0
    ensures low <= Blend(low, high, part) <= high
  {
    var gap := high - low;
    Part(gap, part);
    assert Blend(low, high, part) == low + gap * part;
  }

  lemma BlendMonotone(low: real, high: real, a: real, b: real)
    requires low <= high && a <= b
    ensures Blend(low, high, a) <= Blend(low, high, b)
    ensures Blend(low, high, 0.0) == low
  {
    Times(high - low, a, b);
  }

  /** Interpolation stays between the two neighbours. */
  lemma AtBounds(ordered: seq<real>, position: real)
    requires Ascending(ordered) && 0.0 <= position <= (|ordered| - 1) as real
    ensures ordered[position.Floor] <= At(ordered, position)
    ensures position.Floor + 1 < |ordered| ==> At(ordered, position) <= ordered[position.Floor + 1]
    ensures position.Floor + 1 >= |ordered| ==> At(ordered, position) == ordered[position.Floor]
  {
    hide Blend;
    var lower := position.Floor;
    if lower + 1 < |ordered| {
      BlendBounds(ordered[lower], ordered[lower + 1], position - lower as real);
    }
  }

  lemma AtMonotone(ordered: seq<real>, x: real, y: real)
    requires Ascending(ordered) && 0.0 <= x <= y <= (|ordered| - 1) as real
    ensures At(ordered, x) <= At(ordered, y)
  {
    hide Blend;
    AtBounds(ordered, x);
    AtBounds(ordered, y);
    var lower := x.Floor;
    if lower == y.Floor {
      if lower + 1 < |ordered| {
        BlendMonotone(ordered[lower], ordered[lower + 1], x - lower as real, y - lower as real);
      }
    } else {
      assert lower + 1 <= y.Floor;
    }
  }

  lemma PositionMonotone(n: nat, p: real, q: real)
    requires 1 <= n && 0.0 <= p <= q <= 1.0
    ensures Position(n, p) <= Position(n, q)
    ensures Position(n, 0.0) == 0.0 && Position(n, 1.0) == (n - 1) as real
  {
    Times((n - 1) as real, p, q);
  }

  /** A percentile lies between the least and the greatest value, and both are reached. */
  lemma PercentileBounds(values: seq<real>, p: real, low: real, high: real)
    requires values != [] && 0.0 <= p <= 1.0
    requires low in values && high in values && forall v :: v in values ==> low <= v <= high
    ensures low <= Percentile(values, p) <= high
    ensures Percentile(values, 0.0) == low && Percentile(values, 1.0) == high
  {
    SortSorts(values);
    var ordered, n := Sort(values), |values|;
    forall k | 0 <= k < n ensures low <= ordered[k] <= high {
      assert ordered[k] in ordered;
    }
    var i :| 0 <= i < n && ordered[i] == low;
    var j :| 0 <= j < n && ordered[j] == high;
    assert ordered[0] == low && ordered[n - 1] == high;
    hide Blend, Position, Sort;
    PositionMonotone(n, 0.0, p);
    AtMonotone(ordered, 0.0, Position(n, p));
    AtMonotone(ordered, Position(n, p), (n - 1) as real);
  }

  /** Percentiles rise with the percentage. */
  lemma PercentileMonotone(values: seq<real>, p: real, q: real)
    requires 0.0 <= p <= q <= 1.0
    ensures Percentile(values, p) <= Percentile(values, q)
  {
    hide Blend, Position, Sort, At;
    if values != [] {
      SortSorts(values);
      PositionMonotone(|values|, p, q);
      AtMonotone(Sort(values), Position(|values|, p), Position(|values|, q));
    }
  }

  // ---------- the summary ----------

  datatype Summary = Summary(
    total: nat, pending: nat, running: nat, succeeded: nat, failed: nat, cancelled: nat,
    successRate: real, averageWait: real, averageExecution: real, p50: real, p95: real, p99: real)

  function CountStatus(tasks: seq<Task>, status: TaskStatus): nat {
    if tasks == [] then 0
    else CountStatus(tasks[..|tasks| - 1], status) + (if tasks[|tasks| - 1].status == status then 1 else 0)
  }

  function Lasted(start: Time, end: Time): real {
    MaxReal((end - start) * 1000.0, 0.0)
  }

  function Executions(tasks: seq<Task>): seq<real> {
    if tasks == [] then []
    else
      var t := tasks[|tasks| - 1];
      Executions(tasks[..|tasks| - 1])
        + (if t.startedAt.Some? && t.completedAt.Some? then [Lasted(t.startedAt.value, t.completedAt.value)] else [])
  }

  function Waits(tasks: seq<Task>): seq<real> {
    if tasks == [] then []
    else
      var t := tasks[|tasks| - 1];
      Waits(tasks[..|tasks| - 1]) + (if t.startedAt.Some? then [Lasted(t.createdAt, t.startedAt.value)] else [])
  }

  function Total(values: seq<real>): real {
    if values == [] then 0.0 else Total(values[..|values| - 1]) + values[|values| - 1]
  }

  /** `_average`. */
  function Average(values: seq<real>): real {
    if values == [] then 0.0 else Total(values) / |values| as real
  }

  lemma {:induction false} TotalBounds(values: seq<real>, low: real, high: real)
    requires forall i :: 0 <= i < |values| ==> low <= values[i] <= high
    ensures low * |values| as real <= Total(values) <= high * |values| as real
  {
    if values != [] {
      var n := |values| - 1;
      TotalBounds(values[..n], low, high);
      assert low * |values| as real == low * n as real + low;
      assert high * |values| as real == high * n as real + high;
    }
  }

  /** An average lies between any bounds of its values. */
  lemma AverageBounds(values: seq<real>, low: real, high: real)
    requires values != [] && forall i :: 0 <= i < |values| ==> low <= values[i] <= high
    ensures low <= Average(values) <= high
  {
    TotalBounds(values, low, high);
    var m, q := |values| as real, Average(values);
    assert q * m == Total(values);
    ProductSign(low - q, m);
    ProductSign(q - high, m);
    assert (low - q) * m == low * m - q * m;
    assert (q - high) * m == q * m - high * m;
  }

  lemma {:induction false} StatusesPartition(tasks: seq<Task>)
    ensures CountStatus(tasks, TaskStatus.Pending) + CountStatus(tasks, TaskStatus.Leased)
      + CountStatus(tasks, TaskStatus.Running) + CountStatus(tasks, TaskStatus.Succeeded)
      + CountStatus(tasks, TaskStatus.Failed) + CountStatus(tasks, TaskStatus.Cancelled) == |tasks|
  {
    if tasks != [] {
      StatusesPartition(tasks[..|tasks| - 1]);
    }
  }

  function Get<K>(counter: map<K, nat>, key: K): nat {
    if key in counter then counter[key] else 0
  }

  /** `_task_summary`: the five groups partition the tasks and the percentiles are in order. */
  method TaskSummary(tasks: seq<Task>) returns (s: Summary)
    ensures s.total == |tasks| == s.pending + s.running + s.succeeded + s.failed + s.cancelled
    ensures s.pending == CountStatus(tasks, TaskStatus.Pending)
    ensures s.running == CountStatus(tasks, TaskStatus.Leased) + CountStatus(tasks, TaskStatus.Running)
    ensures s.succeeded == CountStatus(tasks, TaskStatus.Succeeded)
    ensures s.failed == CountStatus(tasks, TaskStatus.Failed)
    ensures 0.0 <= s.successRate <= 1.0
    ensures tasks != [] ==> s.successRate * |tasks| as real == s.succeeded as real
    ensures s.p50 <= s.p95 <= s.p99
    ensures s.p50 == Percentile(Executions(tasks), 0.5)
    ensures s.p95 == Percentile(Executions(tasks), 0.95)
    ensures s.p99 == Percentile(Executions(tasks), 0.99)
    ensures s.averageWait == Average(Waits(tasks)) && s.averageExecution == Average(Executions(tasks))
  {
    hide Percentile, CountStatus, Average;
    var counts, waits, executions := Collect(tasks);
    StatusesPartition(tasks);
    PercentileMonotone(executions, 0.5, 0.95);
    PercentileMonotone(executions, 0.95, 0.99);
    var succeeded := Get(counts, TaskStatus.Succeeded);
    s := Summary(|tasks|, Get(counts, TaskStatus.Pending),
      Get(counts, TaskStatus.Leased) + Get(counts, TaskStatus.Running), succeeded,
      Get(counts, TaskStatus.Failed), Get(counts, TaskStatus.Cancelled), Rate(succeeded, |tasks|),
      Average(waits), Average(executions),
      Percentile(executions, 0.5), Percentile(executions, 0.95), Percentile(executions, 0.99));
  }

  method Collect(tasks: seq<Task>)
    returns (counts: map<TaskStatus, nat>, waits: seq<real>, executions: seq<real>)
    ensures forall status :: Get(counts, status) == CountStatus(tasks, status)
    ensures waits == Waits(tasks) && executions == Executions(tasks)
  {
    counts, waits, executions := map[], [], [];
    for i := 0 to |tasks|
      invariant forall status :: Get(counts, status) == CountStatus(tasks[..i], status)
      invariant waits == Waits(tasks[..i])
      invariant executions == Executions(tasks[..i])
    {
      assert tasks[..i + 1][..i] == tasks[..i];
      var t := tasks[i];
      if t.startedAt.Some? {
        waits := waits + [Lasted(t.createdAt, t.startedAt.value)];
      }
      counts := counts[t.status := Get(counts, t.status) + 1];
      if t.startedAt.Some? && t.completedAt.Some? {
        executions := executions + [Lasted(t.startedAt.value, t.completedAt.value)];
      }
    }
    assert tasks[..|tasks|] == tasks;
  }

  function Rate(part: nat, whole: nat): (r: real)
    requires part <= whole
    ensures 0.0 <= r <= 1.0
    ensures whole > 0 ==> r * whole as real == part as real
  {
    if whole == 0 then 0.0
    else
      DivideBetween(part as real, whole as real, 1.0);
      part as real / whole as real
  }

  // ---------- the series ----------

  datatype Window = Window(start: Time, end: Time, seconds: Positive)

  function Ceiling(x: real): int {
    if x.Floor as real == x then x.Floor else x.Floor + 1
  }

  function BucketCount(w: Window): int {
    Ceiling((w.end - w.start) / w.seconds as real)
  }

  /** The bucket a time falls into; times before the window count in the first one. */
  function BucketIndex(w: Window, v: Time): int {
    (MaxReal(v - w.start, 0.0) / w.seconds as real).Floor
  }

  function Timestamp(w: Window, i: int): Time {
    w.start + Offset(i, w.seconds as real)
  }

  function Offset(i: int, m: real): real {
    i as real * m
  }

  /** `_bucket`. */
  function Bucket(w: Window, v: Time): Time {
    Timestamp(w, BucketIndex(w, v))
  }

  /** Every time before the end of the window has its bucket in the list. */
  lemma BucketInRange(w: Window, v: Time)
    requires v < w.end && w.start < w.end
    ensures 0 <= BucketIndex(w, v) < BucketCount(w)
  {
    var offset, m := MaxReal(v - w.start, 0.0), w.seconds as real;
    DivideMonotone(offset, w.end - w.start, m);
  }

  /** Distinct buckets have distinct timestamps. */
  lemma TimestampsDistinct(w: Window, i: int, j: int)
    ensures Timestamp(w, i) == Timestamp(w, j) <==> i == j
  {
    var m := w.seconds as real;
    ProductSign((i - j) as real, m);
    assert ((i - j) as real) * m == i as real * m - j as real * m;
  }

  /** How many of the times fall into bucket `i`. */
  function Tally(w: Window, values: seq<Time>, i: int): nat {
    if values == [] then 0
    else Tally(w, values[..|values| - 1], i) + (if BucketIndex(w, values[|values| - 1]) == i then 1 else 0)
  }

  function Sum(points: seq<nat>): nat {
    if points == [] then 0 else Sum(points[..|points| - 1]) + points[|points| - 1]
  }

  ghost predicate Counts(w: Window, points: seq<nat>, values: seq<Time>) {
    forall i :: 0 <= i < |points| ==> points[i] == Tally(w, values, i)
  }

  lemma {:induction false} SumOfZeros(points: seq<nat>)
    requires forall i :: 0 <= i < |points| ==> points[i] == 0
    ensures Sum(points) == 0
  {
    if points != [] {
      SumOfZeros(points[..|points| - 1]);
    }
  }

  lemma {:induction false} SumPlusOne(a: seq<nat>, b: seq<nat>, k: int)
    requires |a| == |b| && forall i :: 0 <= i < |a| ==> b[i] == a[i] + (if i == k then 1 else 0)
    ensures Sum(b) == Sum(a) + (if 0 <= k < |a| then 1 else 0)
  {
    if a != [] {
      var n := |a| - 1;
      SumPlusOne(a[..n], b[..n], k);
    }
  }

  ghost predicate Within(values: seq<Time>, end: Time) {
    forall k :: 0 <= k < |values| ==> values[k] < end
  }

  /** The points of a series add up to the number of times counted, when all lie before the end. */
  lemma {:induction false} SeriesConserves(w: Window, points: seq<nat>, values: seq<Time>)
    requires Counts(w, points, values) && |points| == Max(BucketCount(w), 0)
    requires Within(values, w.end) && (values != [] ==> w.start < w.end)
    ensures Sum(points) == |values|
    decreases |values|
  {
    if values == [] {
      SumOfZeros(points);
    } else {
      var n := |values| - 1;
      var fewer := seq(|points|, i requires 0 <= i < |points| => Tally(w, values[..n], i));
      assert values[n] < w.end;
      SeriesConserves(w, fewer, values[..n]);
      BucketInRange(w, values[n]);
      SumPlusOne(fewer, points, BucketIndex(w, values[n]));
    }
  }

  function CreatedTimes(tasks: seq<Task>): seq<Time> {
    if tasks == [] then [] else CreatedTimes(tasks[..|tasks| - 1]) + [tasks[|tasks| - 1].createdAt]
  }

  predicate Ended(t: Task, status: TaskStatus, end: Time) {
    t.status == status && t.completedAt.Some? && t.completedAt.value < end
  }

  /** The completion times of the tasks that ended with `status` before the end of the window. */
  function EndedTimes(tasks: seq<Task>, status: TaskStatus, end: Time): seq<Time> {
    if tasks == [] then []
    else
      var t := tasks[|tasks| - 1];
      EndedTimes(tasks[..|tasks| - 1], status, end) + (if Ended(t, status, end) then [t.completedAt.value] else [])
  }

  lemma {:induction false} CreatedWithin(tasks: seq<Task>, w: Window)
    requires forall k :: 0 <= k < |tasks| ==> w.start <= tasks[k].createdAt < w.end
    ensures |CreatedTimes(tasks)| == |tasks|
    ensures Within(CreatedTimes(tasks), w.end)
  {
    if tasks != [] {
      CreatedWithin(tasks[..|tasks| - 1], w);
    }
  }

  lemma {:induction false} EndedWithin(tasks: seq<Task>, status: TaskStatus, end: Time)
    ensures Within(EndedTimes(tasks, status, end), end)
    ensures |EndedTimes(tasks, status, end)| <= CountStatus(tasks, status)
  {
    if tasks != [] {
      EndedWithin(tasks[..|tasks| - 1], status, end);
    }
  }

  // ----- the counters -----

  ghost predicate Tallies(w: Window, counter: map<Time, nat>, values: seq<Time>) {
    forall i :: Get(counter, Timestamp(w, i)) == Tally(w, values, i)
  }

  method CountInto(w: Window, counter: map<Time, nat>, v: Time, ghost values: seq<Time>) returns (after: map<Time, nat>)
    requires Tallies(w, counter, values)
    ensures Tallies(w, after, values + [v])
  {
    var key := Bucket(w, v);
    after := counter[key := Get(counter, key) + 1];
    forall i ensures Get(after, Timestamp(w, i)) == Tally(w, values + [v], i) {
      TimestampsDistinct(w, i, BucketIndex(w, v));
      assert (values + [v])[..|values + [v]| - 1] == values;
    }
  }

  method ReadPoints(w: Window, counter: map<Time, nat>, ghost values: seq<Time>) returns (points: seq<nat>)
    requires Tallies(w, counter, values)
    ensures |points| == Max(BucketCount(w), 0) && Counts(w, points, values)
  {
    points := [];
    var count := Max(BucketCount(w), 0);
    for i := 0 to count
      invariant |points| == i && Counts(w, points, values)
    {
      points := points + [Get(counter, Timestamp(w, i))];
    }
  }

  datatype Series = Series(submitted: seq<nat>, succeeded: seq<nat>, failed: seq<nat>)

  /** `_task_series`, over the tasks created in the window: nothing is dropped and nothing counted twice. */
  method TaskSeries(tasks: seq<Task>, w: Window) returns (s: Series)
    requires forall k :: 0 <= k < |tasks| ==> w.start <= tasks[k].createdAt < w.end
    ensures |s.submitted| == |s.succeeded| == |s.failed| == Max(BucketCount(w), 0)
    ensures Counts(w, s.submitted, CreatedTimes(tasks)) && Sum(s.submitted) == |tasks|
    ensures Counts(w, s.succeeded, EndedTimes(tasks, TaskStatus.Succeeded, w.end))
    ensures Counts(w, s.failed, EndedTimes(tasks, TaskStatus.Failed, w.end))
    ensures Sum(s.succeeded) == |EndedTimes(tasks, TaskStatus.Succeeded, w.end)|
    ensures Sum(s.failed) == |EndedTimes(tasks, TaskStatus.Failed, w.end)|
  {
    hide Tallies, Counts;
    var submitted, succeeded, failed := CountAll(tasks, w);
    var points := ReadPoints(w, submitted, CreatedTimes(tasks));
    var good := ReadPoints(w, succeeded, EndedTimes(tasks, TaskStatus.Succeeded, w.end));
    var bad := ReadPoints(w, failed, EndedTimes(tasks, TaskStatus.Failed, w.end));
    CreatedWithin(tasks, w);
    EndedWithin(tasks, TaskStatus.Succeeded, w.end);
    EndedWithin(tasks, TaskStatus.Failed, w.end);
    NonemptyWindow(tasks, w);
    SeriesConserves(w, points, CreatedTimes(tasks));
    SeriesConserves(w, good, EndedTimes(tasks, TaskStatus.Succeeded, w.end));
    SeriesConserves(w, bad, EndedTimes(tasks, TaskStatus.Failed, w.end));
    s := Series(points, good, bad);
  }

  lemma NonemptyWindow(tasks: seq<Task>, w: Window)
    requires forall k :: 0 <= k < |tasks| ==> w.start <= tasks[k].createdAt < w.end
    ensures w.start < w.end || (tasks == [] && forall status :: EndedTimes(tasks, status, w.end) == [])
  {
    if tasks != [] {
      assert w.start <= tasks[0].createdAt < w.end;
    }
  }

  method CountAll(tasks: seq<Task>, w: Window)
    returns (submitted: map<Time, nat>, succeeded: map<Time, nat>, failed: map<Time, nat>)
    ensures Tallies(w, submitted, CreatedTimes(tasks))
    ensures Tallies(w, succeeded, EndedTimes(tasks, TaskStatus.Succeeded, w.end))
    ensures Tallies(w, failed, EndedTimes(tasks, TaskStatus.Failed, w.end))
  {
    submitted, succeeded, failed := map[], map[], map[];
    NothingTallied(w);
    hide Tallies;
    for i := 0 to |tasks|
      invariant Tallies(w, submitted, CreatedTimes(tasks[..i]))
      invariant Tallies(w, succeeded, EndedTimes(tasks[..i], TaskStatus.Succeeded, w.end))
      invariant Tallies(w, failed, EndedTimes(tasks[..i], TaskStatus.Failed, w.end))
    {
      assert tasks[..i + 1][..i] == tasks[..i];
      EndedStep(tasks, i, TaskStatus.Succeeded, w.end);
      EndedStep(tasks, i, TaskStatus.Failed, w.end);
      var t := tasks[i];
      submitted := CountInto(w, submitted, t.createdAt, CreatedTimes(tasks[..i]));
      if t.completedAt.Some? && t.completedAt.value < w.end {
        if t.status.Succeeded? {
          succeeded := CountInto(
            w, succeeded, t.completedAt.value, EndedTimes(tasks[..i], TaskStatus.Succeeded, w.end));
        } else if t.status.Failed? {
          failed := CountInto(w, failed, t.completedAt.value, EndedTimes(tasks[..i], TaskStatus.Failed, w.end));
        }
      }
    }
    assert tasks[..|tasks|] == tasks;
  }

  lemma EndedStep(tasks: seq<Task>, i: nat, status: TaskStatus, end: Time)
    requires i < |tasks|
    ensures EndedTimes(tasks[..i + 1], status, end) ==
      if Ended(tasks[i], status, end) then EndedTimes(tasks[..i], status, end) + [tasks[i].completedAt.value]
      else EndedTimes(tasks[..i], status, end)
  {
    assert tasks[..i + 1][..i] == tasks[..i];
  }

  lemma NothingTallied(w: Window)
    ensures Tallies(w, map[], [])
  {
  }

  // ---------- the figures, in terms of the rows ----------

  /** A bucket holds the times from its timestamp to the next; earlier times fall into the first. */
  lemma BucketHolds(w: Window, v: Time)
    ensures w.start <= v ==> Timestamp(w, BucketIndex(w, v)) <= v < Timestamp(w, BucketIndex(w, v) + 1)
    ensures v <= w.start ==> BucketIndex(w, v) == 0
  {
    hide Offset;
    var m := w.seconds as real;
    Ratio(MaxReal(v - w.start, 0.0), m);
    FloorScales(MaxReal(v - w.start, 0.0) / m, m);
    FirstBucket(m);
  }

  lemma Ratio(a: real, m: real)
    requires 0.0 < m
    ensures a / m * m == a && 0.0 / m == 0.0
  {
  }

  lemma FirstBucket(m: real)
    ensures Offset(0, m) == 0.0
  {
  }

  lemma ScaleOrder(x: real, y: real, m: real)
    requires 0.0 < m
    ensures x < y ==> x * m < y * m
    ensures x <= y ==> x * m <= y * m
  {
    ProductSign(y - x, m);
    assert (y - x) * m == y * m - x * m;
  }

  lemma OffsetOrder(i: int, q: real, m: real)
    requires 0.0 < m
    ensures i as real <= q ==> Offset(i, m) <= q * m
    ensures i as real < q ==> Offset(i, m) < q * m
    ensures q <= i as real ==> q * m <= Offset(i, m)
    ensures q < i as real ==> q * m < Offset(i, m)
  {
    var x := i as real;
    assert Offset(i, m) == x * m;
    ScaleOrder(x, q, m);
    ScaleOrder(q, x, m);
  }

  lemma FloorScales(q: real, m: real)
    requires 0.0 < m
    ensures Offset(q.Floor, m) <= q * m < Offset(q.Floor + 1, m)
  {
    hide Offset;
    OffsetOrder(q.Floor, q, m);
    OffsetOrder(q.Floor + 1, q, m);
  }

  lemma CeilingScales(q: real, m: real)
    requires 0.0 < m
    ensures Offset(Ceiling(q) - 1, m) < q * m <= Offset(Ceiling(q), m)
  {
    hide Offset;
    OffsetOrder(Ceiling(q) - 1, q, m);
    OffsetOrder(Ceiling(q), q, m);
  }

  /** The buckets reach the end of the window, and the last one begins before it. */
  lemma BucketsCover(w: Window)
    requires w.start < w.end
    ensures BucketCount(w) >= 1
    ensures Timestamp(w, BucketCount(w) - 1) < w.end <= Timestamp(w, BucketCount(w))
  {
    hide Offset;
    var m := w.seconds as real;
    Ratio(w.end - w.start, m);
    DivideMonotone(0.0, w.end - w.start, m);
    CeilingScales((w.end - w.start) / m, m);
  }

  /** `k` parts and a fraction of one, out of the `n - 1` between `n` values. */
  function PartWay(n: nat, k: nat, t: real): (p: real)
    requires k + 1 < n && 0.0 <= t <= 1.0
    ensures 0.0 <= p <= 1.0 && Position(n, p) == k as real + t
  {
    PlaceOf(n, k as real + t);
    (k as real + t) / (n - 1) as real
  }

  function Mix(low: real, high: real, t: real): real {
    low * (1.0 - t) + high * t
  }

  /** The percentile at `k` of `n - 1` parts is the `k`th value in order, and in between it is linear. */
  lemma PercentileLinear(values: seq<real>, k: nat, t: real)
    requires k + 1 < |values| && 0.0 <= t <= 1.0
    ensures Percentile(values, PartWay(|values|, k, t)) == Mix(Sort(values)[k], Sort(values)[k + 1], t)
  {
    hide Sort, At, Position, PartWay, Mix;
    AtLinear(Sort(values), k, t);
  }

  lemma PlaceOf(n: nat, x: real)
    requires n > 1 && 0.0 <= x <= (n - 1) as real
    ensures var p := x / (n - 1) as real; 0.0 <= p <= 1.0 && Position(n, p) == x
  {
    var m := (n - 1) as real;
    DivideBetween(x, m, 1.0);
    var p := x / m;
    assert p * m == x;
    assert m * p == p * m;
  }

  lemma AtLinear(s: seq<real>, k: nat, t: real)
    requires k + 1 < |s| && 0.0 <= t <= 1.0
    ensures At(s, k as real + t) == Mix(s[k], s[k + 1], t)
  {
    hide Blend, Mix;
    var x := k as real + t;
    BlendForm(s[k], s[k + 1], t);
    if t < 1.0 {
      assert x.Floor == k;
    } else {
      assert x == (k + 1) as real && x.Floor == k + 1;
    }
  }

  lemma BlendForm(low: real, high: real, t: real)
    ensures Blend(low, high, t) == Mix(low, high, t)
    ensures Mix(low, high, 0.0) == low && Mix(low, high, 1.0) == high
  {
    assert (high - low) * t == high * t - low * t;
    assert low * (1.0 - t) == low - low * t;
  }

  // ---------- counts as cardinalities ----------

  /** How many positions of a list satisfy a test. */
  ghost function Positions<T>(s: seq<T>, test: T -> bool): set<int> {
    set i | 0 <= i < |s| && test(s[i])
  }

  lemma PositionsStep<T>(s: seq<T>, test: T -> bool)
    requires s != []
    ensures var n := |s| - 1;
      |Positions(s, test)| == |Positions(s[..n], test)| + (if test(s[n]) then 1 else 0)
  {
    var n := |s| - 1;
    var front, all := Positions(s[..n], test), Positions(s, test);
    forall i ensures i in all <==> i in front || (i == n && test(s[n])) {
      if 0 <= i < n {
        assert s[..n][i] == s[i];
      }
    }
    if test(s[n]) {
      assert all == front + {n};
    } else {
      assert all == front;
    }
  }

  lemma {:induction false} CountStatusExact(tasks: seq<Task>, status: TaskStatus)
    ensures CountStatus(tasks, status) == |Positions(tasks, (t: Task) => t.status == status)|
  {
    if tasks != [] {
      CountStatusExact(tasks[..|tasks| - 1], status);
      PositionsStep(tasks, (t: Task) => t.status == status);
    }
  }

  /** The succeeded or failed series counts each task that ended that way before the end of the window once. */
  lemma {:induction false} EndedExact(tasks: seq<Task>, status: TaskStatus, end: Time)
    ensures |EndedTimes(tasks, status, end)| ==
      |Positions(tasks, (t: Task) => t.status == status && t.completedAt.Some? && t.completedAt.value < end)|
    ensures forall x :: x in EndedTimes(tasks, status, end) ==>
      exists i :: 0 <= i < |tasks| && tasks[i].completedAt == Some(x) && tasks[i].status == status
  {
    if tasks != [] {
      var n := |tasks| - 1;
      EndedExact(tasks[..n], status, end);
      PositionsStep(tasks, (t: Task) => t.status == status && t.completedAt.Some? && t.completedAt.value < end);
      assert forall i :: 0 <= i < n ==> tasks[..n][i] == tasks[i];
    }
  }

  lemma {:induction false} CreatedExact(tasks: seq<Task>)
    ensures |CreatedTimes(tasks)| == |tasks|
    ensures forall i :: 0 <= i < |tasks| ==> CreatedTimes(tasks)[i] == tasks[i].createdAt
  {
    if tasks != [] {
      CreatedExact(tasks[..|tasks| - 1]);
    }
  }

  /** A point of a series counts the times that fall into its bucket. */
  lemma {:induction false} TallyExact(w: Window, values: seq<Time>, i: int)
    ensures Tally(w, values, i) == |Positions(values, (v: Time) => BucketIndex(w, v) == i)|
  {
    if values != [] {
      TallyExact(w, values[..|values| - 1], i);
      PositionsStep(values, (v: Time) => BucketIndex(w, v) == i);
    }
  }

  /** Execution times are those of the tasks that started and ended; waiting times those of the tasks that started. */
  lemma {:induction false} DurationsExact(tasks: seq<Task>)
    ensures |Executions(tasks)| == |Positions(tasks, (t: Task) => t.startedAt.Some? && t.completedAt.Some?)|
    ensures |Waits(tasks)| == |Positions(tasks, (t: Task) => t.startedAt.Some?)|
    ensures forall x :: x in Executions(tasks) ==> exists i :: 0 <= i < |tasks| && Executed(tasks[i], x)
    ensures forall x :: x in Waits(tasks) ==> exists i :: 0 <= i < |tasks| && Waited(tasks[i], x)
  {
    if tasks != [] {
      var n := |tasks| - 1;
      DurationsExact(tasks[..n]);
      PositionsStep(tasks, (t: Task) => t.startedAt.Some? && t.completedAt.Some?);
      PositionsStep(tasks, (t: Task) => t.startedAt.Some?);
      LastDurations(tasks[n]);
      assert forall i :: 0 <= i < n ==> tasks[..n][i] == tasks[i];
    }
  }

  /** `x` is the time from `start` to `end` in milliseconds, and nothing if the clock ran backwards. */
  ghost predicate IsDuration(start: Time, end: Time, x: real) {
    x == if start <= end then 1000.0 * (end - start) else 0.0
  }

  /** The task ran for `x` milliseconds. */
  ghost predicate Executed(t: Task, x: real) {
    t.startedAt.Some? && t.completedAt.Some? && IsDuration(t.startedAt.value, t.completedAt.value, x)
  }

  /** The task waited for `x` milliseconds before it started. */
  ghost predicate Waited(t: Task, x: real) {
    t.startedAt.Some? && IsDuration(t.createdAt, t.startedAt.value, x)
  }

  lemma LastDurations(t: Task)
    ensures t.startedAt.Some? && t.completedAt.Some? ==> Executed(t, Lasted(t.startedAt.value, t.completedAt.value))
    ensures t.startedAt.Some? ==> Waited(t, Lasted(t.createdAt, t.startedAt.value))
  {
  }

  function SumFromFront(values: seq<real>): real {
    if values == [] then 0.0 else values[0] + SumFromFront(values[1..])
  }

  lemma {:induction false} SumAppends(values: seq<real>)
    requires values != []
    ensures SumFromFront(values) == SumFromFront(values[..|values| - 1]) + values[|values| - 1]
  {
    var n := |values| - 1;
    if n > 0 {
      SumAppends(values[1..]);
      assert values[1..][..n - 1] == values[..n][1..];
    }
  }

  lemma {:induction false} TotalExact(values: seq<real>)
    ensures Total(values) == SumFromFront(values)
  {
    if values != [] {
      TotalExact(values[..|values| - 1]);
      SumAppends(values);
    }
  }

  /** The average is the mean. */
  lemma AverageExact(values: seq<real>)
    ensures values != [] ==> Average(values) * |values| as real == SumFromFront(values)
    ensures values == [] ==> Average(values) == 0.0
  {
    TotalExact(values);
    if values != [] {
      Ratio(Total(values), |values| as real);
    }
  }
}

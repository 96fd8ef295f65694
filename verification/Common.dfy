/** Options, results and the faults the control plane raises. */
module Common {

  datatype Option<+T> = None | Some(value: T)

  /** Every exception a modelled operation can raise.  A raised fault rolls the transaction back. */
  datatype Fault =
    | WorkerUnavailable
    | InvalidLease
    | LeaseExpired
    | StageConflict
    | InvalidTaskTransition
    | InvalidStageTransition
    | TaskNotCancellable
    | TaskNotRetryable
    | TaskAlreadyRouted
    | SourceUnresolved
    | RoutingUnavailable
    | PipelineNotFound
    | IdempotencyConflict
    | CallbackNotRetryable

  datatype Result<+T> = Success(value: T) | Failure(fault: Fault) {

    predicate IsFailure() {
      Failure?
    }

    function PropagateFailure<U>(): Result<U>
      requires Failure?
    {
      Failure(fault)
    }

    function Extract(): T
      requires Success?
    {
      value
    }
  }

  /** `require_*_transition`: nothing happens, or the fault is raised. */
  function Require(condition: bool, fault: Fault): Result<()> {
    if condition then Success(()) else Failure(fault)
  }

  /** Raises the fault of `check`, or goes on with `next`. */
  function Then<T>(check: Result<()>, next: Result<T>): Result<T> {
    match check
    case Success(_) => next
    case Failure(fault) => Failure(fault)
  }

  function Max(a: int, b: int): int {
    if a < b then b else a
  }

  function MinReal(a: real, b: real): real {
    if b < a then b else a
  }

  function MaxReal(a: real, b: real): real {
    if a < b then b else a
  }

  ghost predicate Distinct<T>(s: seq<T>) {
    forall i, j :: 0 <= i < j < |s| ==> s[i] != s[j]
  }

  function Elements<T>(s: seq<T>): set<T> {
    set x | x in s
  }

  lemma ProductSign(a: real, b: real)
    ensures a > 0.0 && b > 0.0 ==> a * b > 0.0
    ensures a < 0.0 && b > 0.0 ==> a * b < 0.0
  {
  }

  lemma Times(a: real, x: real, y: real)
    requires 0.0 <= a && x <= y
    ensures a * x <= a * y
  {
    ProductSign(y - x, a);
    assert a * (y - x) == a * y - a * x;
  }

  lemma Part(whole: real, p: real)
    requires 0.0 <= whole && 0.0 <= p <= 1.0
    ensures 0.0 <= whole * p <= whole
  {
    Times(whole, 0.0, p);
    Times(whole, p, 1.0);
  }

  lemma DivideMonotone(a: real, b: real, m: real)
    requires 0.0 < m
    ensures a < b ==> a / m < b / m
    ensures a <= b ==> a / m <= b / m
    ensures 0.0 <= a ==> 0.0 <= a / m
  {
    var x, y := a / m, b / m;
    assert x * m == a && y * m == b;
    ProductSign(y - x, m);
    ProductSign(x, m);
    assert (y - x) * m == y * m - x * m;
  }

  lemma DivideBetween(total: real, m: real, high: real)
    requires 0.0 < m && 0.0 <= total <= high * m
    ensures 0.0 <= total / m <= high
    ensures total == high * m ==> total / m == high
  {
    var q := total / m;
    assert q * m == total;
    ProductSign(q, m);
    ProductSign(q - high, m);
    assert (q - high) * m == q * m - high * m;
  }

  // ---------- filtering ----------

  function Filter<T>(s: seq<T>, keep: T -> bool): seq<T> {
    if s == [] then []
    else if keep(s[0]) then [s[0]] + Filter(s[1..], keep)
    else Filter(s[1..], keep)
  }

  lemma {:induction false} FilterElements<T>(s: seq<T>, keep: T -> bool)
    ensures forall x :: x in Filter(s, keep) <==> x in s && keep(x)
  {
    if s != [] {
      FilterElements(s[1..], keep);
      assert s == [s[0]] + s[1..];
    }
  }

  lemma {:induction false} FilterDistinct<T>(s: seq<T>, keep: T -> bool)
    requires Distinct(s)
    ensures Distinct(Filter(s, keep))
  {
    if s != [] {
      FilterDistinct(s[1..], keep);
      FilterElements(s[1..], keep);
    }
  }

  lemma {:induction false} FilterConcat<T>(a: seq<T>, b: seq<T>, keep: T -> bool)
    ensures Filter(a + b, keep) == Filter(a, keep) + Filter(b, keep)
  {
    if a == [] {
      assert a + b == b;
    } else {
      assert (a + b)[1..] == a[1..] + b;
      FilterConcat(a[1..], b, keep);
    }
  }

  lemma {:induction false} FilterUniform<T>(s: seq<T>, keep: T -> bool)
    ensures (forall x :: x in s ==> keep(x)) ==> Filter(s, keep) == s
    ensures (forall x :: x in s ==> !keep(x)) ==> Filter(s, keep) == []
  {
    if s != [] {
      FilterUniform(s[1..], keep);
      assert s == [s[0]] + s[1..];
    }
  }

  lemma DistinctConcat<T>(a: seq<T>, b: seq<T>)
    requires Distinct(a) && Distinct(b) && forall x :: x in a ==> x !in b
    ensures Distinct(a + b)
  {
    forall i, j | 0 <= i < j < |a + b| ensures (a + b)[i] != (a + b)[j] {
      if i < |a| <= j {
        assert (a + b)[i] in a && (a + b)[j] in b;
      }
    }
  }

  lemma {:induction false} FilterSame<T>(s: seq<T>, keep: T -> bool, other: T -> bool)
    requires forall x :: x in s ==> keep(x) == other(x)
    ensures Filter(s, keep) == Filter(s, other)
  {
    if s != [] {
      assert s[0] in s;
      assert forall x :: x in s[1..] ==> x in s;
      FilterSame(s[1..], keep, other);
    }
  }

  /** `x` occurs before `y`. */
  ghost predicate Precede<T(!new)>(s: seq<T>, x: T, y: T) {
    exists p, q :: 0 <= p < q < |s| && s[p] == x && s[q] == y
  }

  /** Filtering keeps the order. */
  lemma {:induction false} FilterOrder<T(!new)>(s: seq<T>, keep: T -> bool, i: nat, j: nat)
    requires i < j < |Filter(s, keep)|
    ensures Precede(s, Filter(s, keep)[i], Filter(s, keep)[j])
  {
    var f := Filter(s, keep);
    if keep(s[0]) {
      if i == 0 {
        FilterElements(s[1..], keep);
        assert f[j] == Filter(s[1..], keep)[j - 1];
        assert f[j] in s[1..];
        var q :| 0 <= q < |s[1..]| && s[1..][q] == f[j];
        assert s[0] == f[i] && s[q + 1] == f[j];
      } else {
        FilterOrder(s[1..], keep, i - 1, j - 1);
        PrecedeTail(s, f[i], f[j]);
      }
    } else {
      FilterOrder(s[1..], keep, i, j);
      PrecedeTail(s, f[i], f[j]);
    }
  }

  lemma PrecedeTail<T(!new)>(s: seq<T>, x: T, y: T)
    requires s != [] && Precede(s[1..], x, y)
    ensures Precede(s, x, y)
  {
    var p, q :| 0 <= p < q < |s[1..]| && s[1..][p] == x && s[1..][q] == y;
    assert s[p + 1] == x && s[q + 1] == y;
  }
}

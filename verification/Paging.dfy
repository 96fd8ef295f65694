/** Keyset paging over a fixed event table, against one plain sorted query. */
module Paging {
  import opened Common
  import opened Records

  /** Event types are numbered in their own order; only equality and order are used. */
  datatype Row = Row(id: nat, occurredAt: Time, kind: nat, task: Option<TaskId>, worker: Option<WorkerId>)

  datatype SortField = OccurredAt | Kind

  datatype Query = Query(
    kinds: set<nat>,
    task: Option<TaskId>,
    worker: Option<WorkerId>,
    sortBy: SortField,
    ascending: bool
  )

  ghost predicate UniqueIds(table: seq<Row>) {
    forall i, j :: 0 <= i < |table| && 0 <= j < |table| && table[i].id == table[j].id ==> i == j
  }

  predicate Matches(q: Query, r: Row) {
    && (q.kinds != {} ==> r.kind in q.kinds)
    && (q.task.Some? ==> r.task == q.task)
    && (q.worker.Some? ==> r.worker == q.worker)
  }

  function SortValue(q: Query, r: Row): real {
    if q.sortBy.OccurredAt? then r.occurredAt else r.kind as real
  }

  /** `a` comes strictly before `b` in the direction of the query: the condition put on the cursor. */
  predicate Precedes(q: Query, a: Row, b: Row) {
    if q.ascending then
      SortValue(q, a) < SortValue(q, b) || (SortValue(q, a) == SortValue(q, b) && a.id < b.id)
    else
      SortValue(q, a) > SortValue(q, b) || (SortValue(q, a) == SortValue(q, b) && a.id > b.id)
  }

  // ---------- ORDER BY ----------

  ghost predicate InOrder(q: Query, s: seq<Row>) {
    forall i, j :: 0 <= i < j < |s| ==> Precedes(q, s[i], s[j])
  }

  function Place(q: Query, s: seq<Row>, r: Row): seq<Row> {
    if s == [] || Precedes(q, r, s[0]) then [r] + s else [s[0]] + Place(q, s[1..], r)
  }

  function OrderBy(q: Query, s: seq<Row>): seq<Row> {
    if s == [] then [] else Place(q, OrderBy(q, s[1..]), s[0])
  }

  lemma {:induction false} PlaceElements(q: Query, s: seq<Row>, r: Row)
    ensures forall x :: x in Place(q, s, r) <==> x == r || x in s
  {
    if s != [] && !Precedes(q, r, s[0]) {
      PlaceElements(q, s[1..], r);
      assert s == [s[0]] + s[1..];
    }
  }

  lemma Front(q: Query, r: Row, s: seq<Row>)
    requires InOrder(q, s) && forall x :: x in s ==> Precedes(q, r, x)
    ensures InOrder(q, [r] + s)
  {
    var t := [r] + s;
    forall i, j | 0 <= i < j < |t| ensures Precedes(q, t[i], t[j]) {
      assert t[j] == s[j - 1] && s[j - 1] in s;
      assert i > 0 ==> t[i] == s[i - 1];
    }
  }

  lemma {:induction false} PlaceOrders(q: Query, s: seq<Row>, r: Row)
    requires InOrder(q, s) && forall x :: x in s ==> x.id != r.id
    ensures InOrder(q, Place(q, s, r))
  {
    if s == [] || Precedes(q, r, s[0]) {
      forall x | x in s ensures Precedes(q, r, x) {
        var k :| 0 <= k < |s| && s[k] == x;
        assert k > 0 ==> Precedes(q, s[0], s[k]);
      }
      Front(q, r, s);
    } else {
      assert s[0] in s;
      assert forall x :: x in s[1..] ==> x in s;
      PlaceOrders(q, s[1..], r);
      PlaceElements(q, s[1..], r);
      forall x | x in Place(q, s[1..], r) ensures Precedes(q, s[0], x) {
        if x != r {
          var k :| 0 <= k < |s[1..]| && s[1..][k] == x;
          assert Precedes(q, s[0], s[k + 1]);
        }
      }
      Front(q, s[0], Place(q, s[1..], r));
    }
  }

  lemma {:induction false} OrderByOrders(q: Query, s: seq<Row>)
    requires UniqueIds(s)
    ensures InOrder(q, OrderBy(q, s)) && forall x :: x in OrderBy(q, s) <==> x in s
  {
    if s != [] {
      forall i, j | 0 <= i < |s[1..]| && 0 <= j < |s[1..]| && s[1..][i].id == s[1..][j].id ensures i == j {
        assert s[i + 1].id == s[j + 1].id;
      }
      OrderByOrders(q, s[1..]);
      forall x | x in s[1..] ensures x.id != s[0].id {
        var k :| 0 <= k < |s[1..]| && s[1..][k] == x;
        assert s[k + 1] == x;
      }
      PlaceOrders(q, OrderBy(q, s[1..]), s[0]);
      PlaceElements(q, OrderBy(q, s[1..]), s[0]);
      assert s == [s[0]] + s[1..];
    }
  }

  /** An ordered list is determined by its elements. */
  lemma {:induction false} OrderUnique(q: Query, a: seq<Row>, b: seq<Row>)
    requires InOrder(q, a) && InOrder(q, b) && forall x :: x in a <==> x in b
    ensures a == b
    decreases |a|
  {
    SameEmptiness(a, b);
    if a != [] {
      assert a[0] in b;
      assert b[0] in a;
      var i :| 0 <= i < |b| && b[i] == a[0];
      var j :| 0 <= j < |a| && a[j] == b[0];
      assert a[0] == b[0] by {
        assert j > 0 ==> Precedes(q, a[0], a[j]);
        assert i > 0 ==> Precedes(q, b[0], b[i]);
      }
      TailElements(q, a);
      TailElements(q, b);
      OrderUnique(q, a[1..], b[1..]);
      assert a == [a[0]] + a[1..] && b == [b[0]] + b[1..];
    }
  }

  lemma SameEmptiness(a: seq<Row>, b: seq<Row>)
    requires forall x :: x in a <==> x in b
    ensures a == [] <==> b == []
  {
    if b != [] {
      assert b[0] in b;
    }
    if a != [] {
      assert a[0] in a;
    }
  }

  lemma TailElements(q: Query, a: seq<Row>)
    requires InOrder(q, a) && a != []
    ensures InOrder(q, a[1..]) && forall x :: x in a[1..] <==> x in a && x != a[0]
  {
    forall i, j | 0 <= i < j < |a[1..]| ensures Precedes(q, a[1..][i], a[1..][j]) {
      assert Precedes(q, a[i + 1], a[j + 1]);
    }
    forall x | x in a[1..] ensures x != a[0] {
      var k :| 0 <= k < |a[1..]| && a[1..][k] == x;
      assert Precedes(q, a[0], a[k + 1]);
    }
    assert a == [a[0]] + a[1..];
  }

  // ---------- the list operation ----------

  function FindRow(table: seq<Row>, id: nat): Option<Row> {
    if table == [] then None else if table[0].id == id then Some(table[0]) else FindRow(table[1..], id)
  }

  lemma {:induction false} FindRowFinds(table: seq<Row>, r: Row)
    requires UniqueIds(table) && r in table
    ensures FindRow(table, r.id) == Some(r)
  {
    var k :| 0 <= k < |table| && table[k] == r;
    if k > 0 {
      assert table[0].id != r.id;
      forall i, j | 0 <= i < |table[1..]| && 0 <= j < |table[1..]| && table[1..][i].id == table[1..][j].id
        ensures i == j
      {
        assert table[i + 1].id == table[j + 1].id;
      }
      assert table[1..][k - 1] == r;
      FindRowFinds(table[1..], r);
    }
  }

  function Take(s: seq<Row>, limit: Option<nat>): seq<Row> {
    if limit.Some? && limit.value < |s| then s[..limit.value] else s
  }

  /** `EventRepository.list`: an unknown cursor lists nothing. */
  function List(table: seq<Row>, q: Query, cursor: Option<nat>, limit: Option<nat>): seq<Row> {
    var matching := Filter(table, (r: Row) => Matches(q, r));
    if cursor.None? then Take(OrderBy(q, matching), limit)
    else
      var last := FindRow(table, cursor.value);
      if last.None? then []
      else Take(OrderBy(q, Filter(matching, (r: Row) => Precedes(q, last.value, r))), limit)
  }

  /** The plain sorted query. */
  function Sorted(table: seq<Row>, q: Query): seq<Row> {
    List(table, q, None, None)
  }

  lemma {:induction false} FilterUnique(s: seq<Row>, keep: Row -> bool)
    requires UniqueIds(s)
    ensures UniqueIds(Filter(s, keep))
  {
    if s != [] {
      forall i, j | 0 <= i < |s[1..]| && 0 <= j < |s[1..]| && s[1..][i].id == s[1..][j].id ensures i == j {
        assert s[i + 1].id == s[j + 1].id;
      }
      FilterUnique(s[1..], keep);
      FilterElements(s[1..], keep);
      var t := Filter(s[1..], keep);
      forall k | 0 <= k < |t| ensures t[k].id != s[0].id {
        assert t[k] in s[1..];
        var m :| 0 <= m < |s[1..]| && s[1..][m] == t[k];
        assert s[m + 1] == t[k];
      }
    }
  }

  /** The plain query lists exactly the matching rows, in order. */
  lemma SortedExactly(table: seq<Row>, q: Query)
    requires UniqueIds(table)
    ensures InOrder(q, Sorted(table, q))
    ensures forall r :: r in Sorted(table, q) <==> r in table && Matches(q, r)
  {
    FilterElements(table, (r: Row) => Matches(q, r));
    FilterUnique(table, (r: Row) => Matches(q, r));
    OrderByOrders(q, Filter(table, (r: Row) => Matches(q, r)));
  }

  lemma AfterExactly(table: seq<Row>, q: Query, last: Row)
    requires UniqueIds(table) && last in table
    ensures var page := List(table, q, Some(last.id), None);
      InOrder(q, page) && forall r :: r in page <==> r in table && Matches(q, r) && Precedes(q, last, r)
  {
    FindRowFinds(table, last);
    var matching := Filter(table, (r: Row) => Matches(q, r));
    FilterElements(table, (r: Row) => Matches(q, r));
    FilterUnique(table, (r: Row) => Matches(q, r));
    FilterElements(matching, (r: Row) => Precedes(q, last, r));
    FilterUnique(matching, (r: Row) => Precedes(q, last, r));
    OrderByOrders(q, Filter(matching, (r: Row) => Precedes(q, last, r)));
  }

  lemma SuffixOrder(q: Query, s: seq<Row>, k: nat)
    requires InOrder(q, s) && k < |s|
    ensures InOrder(q, s[k + 1..])
    ensures forall r :: r in s[k + 1..] <==> r in s && Precedes(q, s[k], r)
  {
    var t := s[k + 1..];
    forall i, j | 0 <= i < j < |t| ensures Precedes(q, t[i], t[j]) {
      assert Precedes(q, s[i + k + 1], s[j + k + 1]);
    }
    forall r | r in s && Precedes(q, s[k], r) ensures r in t {
      var m :| 0 <= m < |s| && s[m] == r;
      assert m < k ==> Precedes(q, s[m], s[k]);
      assert t[m - k - 1] == r;
    }
    forall r | r in t ensures r in s && Precedes(q, s[k], r) {
      var m :| 0 <= m < |t| && t[m] == r;
      assert s[m + k + 1] == r;
    }
  }

  /** Listing after a listed row continues the plain query right behind it. */
  lemma CursorContinues(table: seq<Row>, q: Query, k: nat, limit: Option<nat>)
    requires UniqueIds(table) && k < |Sorted(table, q)|
    ensures List(table, q, Some(Sorted(table, q)[k].id), limit) == Take(Sorted(table, q)[k + 1..], limit)
  {
    var all := Sorted(table, q);
    SortedExactly(table, q);
    assert all[k] in all;
    AfterExactly(table, q, all[k]);
    SuffixOrder(q, all, k);
    OrderUnique(q, List(table, q, Some(all[k].id), None), all[k + 1..]);
    LimitTakes(table, q, Some(all[k].id), limit);
  }

  lemma LimitTakes(table: seq<Row>, q: Query, cursor: Option<nat>, limit: Option<nat>)
    ensures List(table, q, cursor, limit) == Take(List(table, q, cursor, None), limit)
  {
  }

  // ---------- paging ----------

  /** Lists page after page, each after the last row of the one before, until a page is empty. */
  method ReadPages(table: seq<Row>, q: Query, limit: Positive) returns (rows: seq<Row>, pages: nat)
    requires UniqueIds(table)
    ensures rows == Sorted(table, q)
    ensures pages <= |rows| + 1
  {
    hide List, InOrder, UniqueIds;
    var all := Sorted(table, q);
    rows, pages := [], 0;
    var cursor: Option<nat> := None;
    var open := true;
    while open
      invariant |rows| <= |all| && rows == all[..|rows|]
      invariant cursor.None? ==> rows == []
      invariant cursor.Some? ==> rows != [] && cursor == Some(rows[|rows| - 1].id)
      invariant open ==> pages <= |rows|
      invariant !open ==> rows == all && pages <= |rows| + 1
      decreases open, |all| - |rows|
    {
      var page := List(table, q, cursor, Some(limit));
      PageFollows(table, q, all, rows, cursor, limit);
      pages := pages + 1;
      if page == [] {
        open := false;
      } else {
        rows := rows + page;
        cursor := Some(page[|page| - 1].id);
      }
    }
  }

  lemma PageFollows(table: seq<Row>, q: Query, all: seq<Row>, rows: seq<Row>, cursor: Option<nat>, limit: Positive)
    requires UniqueIds(table) && all == Sorted(table, q)
    requires |rows| <= |all| && rows == all[..|rows|]
    requires cursor == if rows == [] then None else Some(rows[|rows| - 1].id)
    ensures var page := List(table, q, cursor, Some(limit));
      && |rows + page| <= |all| && rows + page == all[..|rows + page|]
      && (page == [] ==> rows == all)
  {
    hide List, InOrder;
    LimitTakes(table, q, cursor, Some(limit));
    var rest := all[|rows|..];
    if rows != [] {
      CursorContinues(table, q, |rows| - 1, Some(limit));
    } else {
      assert rest == all;
    }
    assert List(table, q, cursor, Some(limit)) == Take(rest, Some(limit));
  }

  /** No row is listed twice. */
  lemma NoDuplicates(table: seq<Row>, q: Query)
    requires UniqueIds(table)
    ensures Distinct(Sorted(table, q))
  {
    SortedExactly(table, q);
    var s := Sorted(table, q);
    forall i, j | 0 <= i < j < |s| ensures s[i] != s[j] {
      assert Precedes(q, s[i], s[j]);
    }
  }

  // ---------- the listing, in terms of the rows ----------

  /** `a` may stand before `b`: by the field asked for, in the direction asked for, then by identifier. */
  ghost predicate MayPrecede(q: Query, a: Row, b: Row) {
    match (q.sortBy, q.ascending)
    case (OccurredAt, true) => a.occurredAt < b.occurredAt || (a.occurredAt == b.occurredAt && a.id < b.id)
    case (OccurredAt, false) => b.occurredAt < a.occurredAt || (a.occurredAt == b.occurredAt && b.id < a.id)
    case (Kind, true) => a.kind < b.kind || (a.kind == b.kind && a.id < b.id)
    case (Kind, false) => b.kind < a.kind || (a.kind == b.kind && b.id < a.id)
  }

  /** The listing without cursor or limit: exactly the rows that pass every filter given, in the order asked for. */
  lemma ListingLaw(table: seq<Row>, q: Query)
    requires UniqueIds(table)
    ensures var rows := Sorted(table, q);
      && (forall i, j :: 0 <= i < j < |rows| ==> MayPrecede(q, rows[i], rows[j]))
      && (forall r :: r in rows <==>
            && r in table && (q.kinds == {} || r.kind in q.kinds)
            && (q.task == None || r.task == q.task) && (q.worker == None || r.worker == q.worker))
  {
    hide List, UniqueIds;
    SortedExactly(table, q);
    var rows := Sorted(table, q);
    forall i, j | 0 <= i < j < |rows| ensures MayPrecede(q, rows[i], rows[j]) {
      assert Precedes(q, rows[i], rows[j]);
    }
  }

  lemma {:induction false} FindRowNone(table: seq<Row>, id: nat)
    requires forall r :: r in table ==> r.id != id
    ensures FindRow(table, id).None?
  {
    if table != [] {
      assert table[0] in table;
      assert forall r :: r in table[1..] ==> r in table;
      FindRowNone(table[1..], id);
    }
  }

  /** A cursor that names no row lists nothing. */
  lemma UnknownCursor(table: seq<Row>, q: Query, id: nat, limit: Option<nat>)
    requires forall r :: r in table ==> r.id != id
    ensures List(table, q, Some(id), limit) == []
  {
    FindRowNone(table, id);
  }

  /** A page is no longer than its limit, and shorter only when nothing more is left. */
  lemma PageLength(table: seq<Row>, q: Query, cursor: Option<nat>, limit: nat)
    ensures var page, rest := List(table, q, cursor, Some(limit)), List(table, q, cursor, None);
      |page| <= limit && page <= rest && (|page| < limit ==> page == rest)
  {
    LimitTakes(table, q, cursor, Some(limit));
    hide List;
  }
}

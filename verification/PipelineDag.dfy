/**
 The dependency check of a pipeline definition: a depth-first search over mutable
 `visiting` and `visited` sets.  The graph model here is the one the scheduler's
 deadlock-freedom and causality results are stated over.
 */
module PipelineDag {
  import opened Common

  datatype Name = Name(text: string)

  /** What the check looks at in one stage definition. */
  datatype Node = Node(name: Name, dependsOn: seq<Name>)

  /** Stage name to the names it depends on. */
  type Graph = map<Name, set<Name>>

  datatype Verdict = Accepted | DuplicateNames | UnknownDependency | Cyclic

  // ---------- the graph model ----------

  ghost predicate Closed(g: Graph) {
    forall n, m :: n in g && m in g[n] ==> m in g
  }

  /** A nonempty chain of stages, each depending on the next. */
  ghost predicate Walk(g: Graph, p: seq<Name>) {
    && p != []
    && (forall k :: 0 <= k < |p| ==> p[k] in g)
    && (forall k :: 0 <= k < |p| - 1 ==> p[k + 1] in g[p[k]])
  }

  ghost predicate Cycle(g: Graph, p: seq<Name>) {
    |p| >= 2 && Walk(g, p) && p[0] == p[|p| - 1]
  }

  ghost predicate Acyclic(g: Graph) {
    forall p :: !Cycle(g, p)
  }

  /** Dependencies within `s` come first. */
  ghost predicate OrdersWithin(g: Graph, order: seq<Name>, s: set<Name>) {
    && Elements(order) == s
    && s <= g.Keys
    && Distinct(order)
    && (forall i, m :: 0 <= i < |order| && m in g[order[i]] && m in s ==> m in order[..i])
  }

  ghost predicate TopologicalOrder(g: Graph, order: seq<Name>) {
    OrdersWithin(g, order, g.Keys) && Closed(g)
  }

  lemma Pigeonhole(p: seq<Name>, s: set<Name>) returns (i: nat, j: nat)
    requires forall k :: 0 <= k < |p| ==> p[k] in s
    requires |p| > |s|
    ensures i < j < |p| && p[i] == p[j]
  {
    var last := p[|p| - 1];
    var front := p[..|p| - 1];
    if last in front {
      i :| 0 <= i < |front| && front[i] == last;
      j := |p| - 1;
    } else {
      i, j := Pigeonhole(front, s - {last});
    }
  }

  lemma LongWalk(g: Graph, s: set<Name>, length: nat) returns (p: seq<Name>)
    requires s != {} && s <= g.Keys
    requires forall n :: n in s ==> g[n] * s != {}
    ensures Walk(g, p) && |p| == length + 1
    ensures forall k :: 0 <= k < |p| ==> p[k] in s
  {
    if length == 0 {
      var n :| n in s;
      p := [n];
    } else {
      var q := LongWalk(g, s, length - 1);
      var m :| m in g[q[|q| - 1]] * s;
      p := q + [m];
    }
  }

  /** In an acyclic graph every nonempty set of stages has one that waits for nothing in the set. */
  lemma MinimalElement(g: Graph, s: set<Name>) returns (n: Name)
    requires Acyclic(g) && s != {} && s <= g.Keys
    ensures n in s && g[n] * s == {}
  {
    if forall x :: x in s ==> g[x] * s != {} {
      var p := LongWalk(g, s, |s|);
      var i, j := Pigeonhole(p, s);
      assert Cycle(g, p[i..j + 1]);
      assert false;
    }
    n :| n in s && g[n] * s == {};
  }

  lemma OrderExists(g: Graph, s: set<Name>) returns (order: seq<Name>)
    requires Acyclic(g) && s <= g.Keys
    ensures OrdersWithin(g, order, s)
    decreases |s|
  {
    if s == {} {
      order := [];
    } else {
      var n := MinimalElement(g, s);
      var rest := OrderExists(g, s - {n});
      order := [n] + rest;
      forall i, m | 0 <= i < |order| && m in g[order[i]] && m in s
        ensures m in order[..i]
      {
        if i > 0 {
          assert order[i] == rest[i - 1];
          if m == n {
            assert order[..i][0] == n;
          } else {
            var k := i - 1;
            assert m in g[rest[k]] && m in s - {n};
            assert m in rest[..k];
            assert order[..i] == [n] + rest[..i - 1];
          }
        }
      }
      assert Elements(order) == s by {
        forall x ensures x in Elements(order) <==> x in s {
          assert x in order <==> x == n || x in rest;
          assert x in rest <==> x in Elements(rest);
        }
      }
    }
  }

  /** Along a walk, positions in a topological order strictly fall. */
  lemma {:induction false} OrderFalls(g: Graph, order: seq<Name>, p: seq<Name>, i: nat) returns (j: nat)
    requires TopologicalOrder(g, order) && Walk(g, p)
    requires i < |order| && order[i] == p[0]
    ensures j <= i && order[j] == p[|p| - 1]
    ensures |p| >= 2 ==> j < i
    decreases |p|
  {
    if |p| == 1 {
      j := i;
    } else {
      assert p[0 + 1] in g[p[0]];
      assert p[1] in order[..i];
      var k :| 0 <= k < i && order[k] == p[1];
      assert Walk(g, p[1..]) by {
        forall k | 0 <= k < |p[1..]| - 1 ensures p[1..][k + 1] in g[p[1..][k]] {
          assert p[(k + 1) + 1] in g[p[k + 1]];
        }
      }
      j := OrderFalls(g, order, p[1..], k);
    }
  }

  /** Acyclic is the same as having a topological order of all stages. */
  lemma AcyclicIffOrdered(g: Graph)
    requires Closed(g)
    ensures Acyclic(g) <==> exists order :: TopologicalOrder(g, order)
  {
    if Acyclic(g) {
      var order := OrderExists(g, g.Keys);
      assert TopologicalOrder(g, order);
    }
    if exists order :: TopologicalOrder(g, order) {
      var order :| TopologicalOrder(g, order);
      forall p ensures !Cycle(g, p) {
        if Cycle(g, p) {
          assert p[0] in Elements(order);
          var i :| 0 <= i < |order| && order[i] == p[0];
          var j := OrderFalls(g, order, p, i);
        }
      }
    }
  }

  // ---------- the definition under check ----------

  ghost predicate UniqueNames(nodes: seq<Node>) {
    forall i, j :: 0 <= i < j < |nodes| ==> nodes[i].name != nodes[j].name
  }

  function Names(nodes: seq<Node>): set<Name> {
    set n | n in nodes :: n.name
  }

  ghost predicate KnownDependencies(nodes: seq<Node>) {
    forall i, d :: 0 <= i < |nodes| && d in nodes[i].dependsOn ==> d in Names(nodes)
  }

  function GraphOf(nodes: seq<Node>): Graph {
    if nodes == [] then map[]
    else GraphOf(nodes[..|nodes| - 1])[nodes[|nodes| - 1].name := Elements(nodes[|nodes| - 1].dependsOn)]
  }

  /** What `validate_dag` promises of a definition it lets through. */
  ghost predicate WellFormed(nodes: seq<Node>) {
    UniqueNames(nodes) && KnownDependencies(nodes) && Acyclic(GraphOf(nodes))
  }

  lemma {:induction false} GraphKeys(nodes: seq<Node>)
    ensures GraphOf(nodes).Keys == Names(nodes)
  {
    if nodes != [] {
      var front := nodes[..|nodes| - 1];
      GraphKeys(front);
      assert nodes == front + [nodes[|nodes| - 1]];
      forall x ensures x in GraphOf(nodes).Keys <==> x in Names(nodes) {
        if x in Names(nodes) {
          var n :| n in nodes && n.name == x;
          assert n in front || n == nodes[|nodes| - 1];
        }
      }
    }
  }

  lemma {:induction false} GraphAt(nodes: seq<Node>, i: nat)
    requires UniqueNames(nodes) && i < |nodes|
    ensures nodes[i].name in GraphOf(nodes)
    ensures GraphOf(nodes)[nodes[i].name] == Elements(nodes[i].dependsOn)
  {
    if i < |nodes| - 1 {
      GraphAt(nodes[..|nodes| - 1], i);
    }
  }

  lemma GraphClosed(nodes: seq<Node>)
    requires UniqueNames(nodes)
    ensures KnownDependencies(nodes) <==> Closed(GraphOf(nodes))
  {
    var g := GraphOf(nodes);
    GraphKeys(nodes);
    if KnownDependencies(nodes) {
      forall n, m | n in g && m in g[n] ensures m in g {
        assert n in Names(nodes);
        var i :| 0 <= i < |nodes| && nodes[i].name == n;
        GraphAt(nodes, i);
      }
    }
    if Closed(g) {
      forall i, d | 0 <= i < |nodes| && d in nodes[i].dependsOn ensures d in Names(nodes) {
        GraphAt(nodes, i);
        assert d in g[nodes[i].name];
      }
    }
  }

  // ---------- the search ----------

  class DepthFirstCheck {
    const dependencies: Graph
    var visiting: set<Name>
    var visited: set<Name>
    /** The recursion stack: `visiting`, in the order it was entered. */
    ghost var path: seq<Name>
    /** `visited`, in the order it was left. */
    ghost var finished: seq<Name>

    ghost predicate Valid()
      reads this
    {
      && Closed(dependencies)
      && visiting <= dependencies.Keys
      && visiting !! visited
      && visiting == Elements(path)
      && Distinct(path)
      && (path != [] ==> Walk(dependencies, path))
      && OrdersWithin(dependencies, finished, visited)
      && (forall n, m :: n in visited && m in dependencies[n] ==> m in visited)
    }

    constructor (dependencies: Graph)
      requires Closed(dependencies)
      ensures Valid() && this.dependencies == dependencies
      ensures visiting == {} && visited == {} && path == []
    {
      this.dependencies := dependencies;
      visiting, visited, path, finished := {}, {}, [], [];
    }

    /** Explores `name`; false is the raised `ValueError`, and then a cycle exists. */
    method Visit(name: Name) returns (ok: bool)
      requires Valid() && name in dependencies
      requires path != [] ==> name in dependencies[path[|path| - 1]]
      modifies this
      ensures ok ==> Valid() && visiting == old(visiting) && path == old(path)
      ensures ok ==> old(visited) + {name} <= visited
      ensures !ok ==> exists p :: Cycle(dependencies, p)
      decreases dependencies.Keys - visiting
    {
      if name in visiting {
        ghost var k :| 0 <= k < |path| && path[k] == name;
        assert Cycle(dependencies, path[k..] + [name]);
        return false;
      }
      if name in visited {
        return true;
      }
      visiting, path := visiting + {name}, path + [name];
      var remaining := dependencies[name];
      while remaining != {}
        invariant Valid() && path == old(path) + [name] && visiting == old(visiting) + {name}
        invariant remaining <= dependencies[name]
        invariant dependencies[name] - remaining <= visited
        invariant old(visited) <= visited
        decreases remaining
      {
        var dependency :| dependency in remaining;
        var explored := Visit(dependency);
        if !explored {
          return false;
        }
        remaining := remaining - {dependency};
      }
      assert path[..|path| - 1] == old(path);
      ghost var before := finished;
      assert forall n :: n in before <==> n in Elements(before);
      visiting, path := visiting - {name}, path[..|path| - 1];
      visited, finished := visited + {name}, finished + [name];
      Finish(before, name);
      return true;
    }

    /** Appending a stage whose dependencies are all finished keeps the finishing order topological. */
    lemma Finish(before: seq<Name>, name: Name)
      requires name in dependencies && name !in before
      requires OrdersWithin(dependencies, before, Elements(before))
      requires dependencies[name] <= Elements(before)
      requires forall n, m :: n in before && m in dependencies[n] ==> m in before
      ensures OrdersWithin(dependencies, before + [name], Elements(before) + {name})
    {
      var after := before + [name];
      assert Elements(after) == Elements(before) + {name} by {
        forall x ensures x in Elements(after) <==> x in Elements(before) + {name} {
          assert x in after <==> x in before || x == name;
        }
      }
      forall i, m | 0 <= i < |after| && m in dependencies[after[i]] && m in Elements(after)
        ensures m in after[..i]
      {
        if i < |before| {
          assert after[i] == before[i] && after[..i] == before[..i];
        } else {
          assert after[..i] == before;
        }
      }
    }
  }

  /** `PipelineDefinition.validate_dag`: exactly the well-formed definitions are accepted. */
  method ValidateDag(nodes: seq<Node>) returns (verdict: Verdict)
    ensures verdict.Accepted? <==> WellFormed(nodes)
    ensures verdict.DuplicateNames? <==> !UniqueNames(nodes)
    ensures verdict.UnknownDependency? <==> UniqueNames(nodes) && !KnownDependencies(nodes)
    ensures verdict.Accepted? ==> exists order :: TopologicalOrder(GraphOf(nodes), order)
  {
    var known: set<Name> := {};
    for i := 0 to |nodes|
      invariant known == Names(nodes[..i])
      invariant UniqueNames(nodes[..i])
    {
      assert nodes[..i + 1] == nodes[..i] + [nodes[i]];
      assert Names(nodes[..i + 1]) == Names(nodes[..i]) + {nodes[i].name};
      if nodes[i].name in known {
        return DuplicateNames;
      }
      known := known + {nodes[i].name};
    }
    assert nodes[..|nodes|] == nodes;
    for i := 0 to |nodes|
      invariant forall k, d :: 0 <= k < i && d in nodes[k].dependsOn ==> d in known
    {
      var missing := Elements(nodes[i].dependsOn) - known;
      if missing != {} {
        var d :| d in missing;
        assert d in nodes[i].dependsOn;
        return UnknownDependency;
      }
      forall d | d in nodes[i].dependsOn ensures d in known {
        assert d in Elements(nodes[i].dependsOn) && d !in missing;
      }
    }
    GraphKeys(nodes);
    GraphClosed(nodes);
    var check := new DepthFirstCheck(GraphOf(nodes));
    for i := 0 to |nodes|
      invariant check.Valid() && check.dependencies == GraphOf(nodes) && check.path == []
      invariant forall k :: 0 <= k < i ==> nodes[k].name in check.visited
    {
      assert nodes[i].name in Names(nodes);
      var explored := check.Visit(nodes[i].name);
      if !explored {
        return Cyclic;
      }
    }
    assert check.visited == check.dependencies.Keys;
    assert TopologicalOrder(GraphOf(nodes), check.finished);
    AcyclicIffOrdered(GraphOf(nodes));
    return Accepted;
  }
}

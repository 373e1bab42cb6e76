/** The independent depth-first cycle check C1 (engine/core/validation_gateway.py, check_c1_no_cycle). */
module CycleDetector {
  import opened Graph
  import opened Nodes
  import TopologicalSort

  type Adjacency = map<NodeId, seq<NodeId>>

  function Neighbors(graph: Adjacency, v: NodeId): seq<NodeId>
  {
    if v in graph then graph[v] else []
  }

  ghost function EdgesOf(graph: Adjacency): set<Edge>
  {
    set a, i | a in graph && 0 <= i < |graph[a]| :: Edge(a, graph[a][i])
  }

  lemma NeighborIsEdge(graph: Adjacency, a: NodeId, b: NodeId)
    ensures b in Neighbors(graph, a) <==> Edge(a, b) in EdgesOf(graph)
  {
    if b in Neighbors(graph, a) {
      var i :| 0 <= i < |graph[a]| && graph[a][i] == b;
    }
  }

  // ---- What the search knows ----

  /** The recursion stack is a walk. */
  ghost predicate Chain(E: set<Edge>, stack: seq<NodeId>)
  {
    forall i :: 0 < i < |stack| ==> Edge(stack[i - 1], stack[i]) in E
  }

  /** Every edge out of a finished node leads to a node that finished before it. */
  ghost predicate FinishedInOrder(E: set<Edge>, finished: seq<NodeId>)
  {
    forall i, w :: 0 <= i < |finished| && Edge(finished[i], w) in E ==> w in finished[..i]
  }

  ghost predicate SearchState(E: set<Edge>, visited: set<NodeId>, recStack: set<NodeId>,
                              stack: seq<NodeId>, finished: seq<NodeId>)
  {
    && recStack == Members(stack)
    && visited == Members(stack) + Members(finished)
    && Chain(E, stack)
    && Distinct(stack + finished)
    && FinishedInOrder(E, finished)
  }

  lemma {:induction false} ChainReaches(E: set<Edge>, stack: seq<NodeId>, i: nat)
    requires Chain(E, stack) && i < |stack|
    ensures stack[i] == stack[|stack| - 1] || Reaches(E, stack[i], stack[|stack| - 1])
    decreases |stack| - i
  {
    if i + 1 < |stack| {
      assert Edge(stack[i + 1 - 1], stack[i + 1]) in E;
      EdgeHops(E, stack[i], stack[i + 1]);
      ChainReaches(E, stack, i + 1);
      if stack[i + 1] != stack[|stack| - 1] {
        ReachesTransitive(E, stack[i], stack[i + 1], stack[|stack| - 1]);
      }
    }
  }

  /** An edge from the top of the stack back into the stack closes a cycle. */
  lemma BackEdgeClosesCycle(E: set<Edge>, stack: seq<NodeId>, w: NodeId)
    requires Chain(E, stack) && stack != [] && w in stack && Edge(stack[|stack| - 1], w) in E
    ensures !Acyclic(E)
  {
    var i :| 0 <= i < |stack| && stack[i] == w;
    ChainReaches(E, stack, i);
    ReachesThenEdge(E, w, stack[|stack| - 1], w);
  }

  lemma FinishedIsAcyclic(E: set<Edge>, finished: seq<NodeId>)
    requires Distinct(finished) && FinishedInOrder(E, finished)
    requires forall e :: e in E ==> e.src in finished
    ensures Acyclic(E)
  {
    var rank := (v: NodeId) => -(IndexOf(finished, v) as int);
    forall e | e in E ensures rank(e.src) < rank(e.dst) {
      var k := IndexOf(finished, e.src);
      assert Edge(finished[k], e.dst) in E;
      var j :| 0 <= j < k && finished[j] == e.dst;
      DistinctIndices(finished, j, IndexOf(finished, e.dst));
    }
    RankedIsAcyclic(E, rank);
  }

  lemma DistinctInsert(s: seq<NodeId>, t: seq<NodeId>, v: NodeId)
    requires Distinct(s + t) && v !in s + t
    ensures Distinct(s + [v] + t)
  {
    forall x ensures multiset(s + [v] + t)[x] <= 1 {
      assert multiset(s + [v] + t) == multiset(s + t) + multiset{v};
      assert multiset(s + t)[x] <= 1;
    }
  }

  lemma DistinctMove(s: seq<NodeId>, t: seq<NodeId>, v: NodeId)
    requires Distinct((s + [v]) + t)
    ensures Distinct(s + (t + [v])) && v !in s
  {
    DistinctParts(s + [v], t);
    DistinctParts(s, [v]);
    assert v in [v];
    forall x ensures multiset(s + (t + [v]))[x] <= 1 {
      assert multiset(s + (t + [v])) == multiset((s + [v]) + t);
    }
  }

  lemma PushState(E: set<Edge>, visited: set<NodeId>, recStack: set<NodeId>, stack: seq<NodeId>,
                  finished: seq<NodeId>, v: NodeId)
    requires SearchState(E, visited, recStack, stack, finished) && v !in visited
    requires stack == [] || Edge(stack[|stack| - 1], v) in E
    ensures SearchState(E, visited + {v}, recStack + {v}, stack + [v], finished)
  {
    assert Members(stack + [v]) == Members(stack) + {v};
    assert v !in Members(stack) && v !in Members(finished);
    DistinctInsert(stack, finished, v);
  }

  lemma FinishOne(E: set<Edge>, finished: seq<NodeId>, v: NodeId)
    requires FinishedInOrder(E, finished) && forall w :: Edge(v, w) in E ==> w in finished
    ensures FinishedInOrder(E, finished + [v])
  {
    forall i, w | 0 <= i < |finished + [v]| && Edge((finished + [v])[i], w) in E
      ensures w in (finished + [v])[..i]
    {
      if i < |finished| {
        assert (finished + [v])[..i] == finished[..i];
      } else {
        assert (finished + [v])[..i] == finished;
      }
    }
  }

  lemma PopState(E: set<Edge>, visited: set<NodeId>, recStack: set<NodeId>, rest: seq<NodeId>, v: NodeId,
                 finished: seq<NodeId>)
    requires SearchState(E, visited, recStack, rest + [v], finished)
    requires forall w :: Edge(v, w) in E ==> w in finished
    ensures SearchState(E, visited, recStack - {v}, rest, finished + [v])
  {
    DistinctMove(rest, finished, v);
    FinishOne(E, finished, v);
    assert Members(rest + [v]) == Members(rest) + {v};
    assert Members(finished + [v]) == Members(finished) + {v};
    forall i | 0 < i < |rest| ensures Edge(rest[i - 1], rest[i]) in E {
      assert Edge((rest + [v])[i - 1], (rest + [v])[i]) in E;
    }
  }

  // ---- The search itself ----

  class Search {
    const graph: Adjacency
    var visited: set<NodeId>
    var recStack: set<NodeId>
    /** Proof-only: the recursion stack in order, and the nodes in the order their calls returned. */
    ghost var stack: seq<NodeId>
    ghost var finished: seq<NodeId>

    ghost predicate Valid()
      reads this
    {
      SearchState(EdgesOf(graph), visited, recStack, stack, finished)
    }

    constructor (graph: Adjacency)
      ensures Valid() && this.graph == graph && visited == {} && stack == [] && finished == []
    {
      this.graph := graph;
      visited, recStack, stack, finished := {}, {}, [], [];
    }

    /** True only if the graph has a cycle; false only if everything reachable from node has finished. */
    method Dfs(node: NodeId, ghost universe: set<NodeId>) returns (cyclic: bool)
      requires Valid() && node !in visited && node in universe
      requires stack == [] || Edge(stack[|stack| - 1], node) in EdgesOf(graph)
      requires forall e :: e in EdgesOf(graph) ==> e.dst in universe
      modifies this
      ensures cyclic ==> !Acyclic(EdgesOf(graph))
      ensures !cyclic ==> Valid() && stack == old(stack) && old(finished) <= finished && node in finished
      ensures !cyclic ==> old(visited) <= visited
      decreases universe - visited
    {
      PushState(EdgesOf(graph), visited, recStack, stack, finished, node);
      visited := visited + {node};
      recStack := recStack + {node};
      stack := stack + [node];
      var ns := Neighbors(graph, node);
      ghost var mine := stack;
      for i := 0 to |ns|
        invariant Valid() && stack == mine && old(finished) <= finished
        invariant old(visited) + {node} <= visited
        invariant forall j :: 0 <= j < i ==> ns[j] in finished
      {
        var neighbor := ns[i];
        NeighborIsEdge(graph, node, neighbor);
        assert Edge(node, neighbor).dst in universe;
        if neighbor !in visited {
          var found := Dfs(neighbor, universe);
          if found { return true; }
        } else if neighbor in recStack {
          BackEdgeClosesCycle(EdgesOf(graph), stack, neighbor);
          return true;
        }
      }
      forall w | Edge(node, w) in EdgesOf(graph) ensures w in finished {
        NeighborIsEdge(graph, node, w);
      }
      PopState(EdgesOf(graph), visited, recStack, old(stack), node, finished);
      recStack := recStack - {node};
      finished := finished + [node];
      stack := old(stack);
      return false;
    }
  }

  /** Groups the active edges by source; keys lists the sources in first-seen order. */
  method BuildGraph(rows: seq<Edge>) returns (graph: Adjacency, keys: seq<NodeId>)
    ensures EdgesOf(graph) == Members(rows)
    ensures forall v :: v in keys <==> v in graph
  {
    graph, keys := map[], [];
    for i := 0 to |rows|
      invariant forall e :: e in EdgesOf(graph) <==> e in rows[..i]
      invariant forall v :: v in keys <==> v in graph
    {
      var r := rows[i];
      if r.src !in graph { keys := keys + [r.src]; }
      ghost var before := graph;
      graph := graph[r.src := Neighbors(graph, r.src) + [r.dst]];
      forall e ensures e in EdgesOf(graph) <==> e in EdgesOf(before) || e == r {
        NeighborIsEdge(before, e.src, e.dst);
        NeighborIsEdge(graph, e.src, e.dst);
        assert Edge(e.src, e.dst) == e;
      }
      assert rows[..i + 1] == rows[..i] + [r];
    }
    assert rows[..|rows|] == rows;
  }

  /** C1 raises exactly when the active edges contain a cycle. */
  method CheckNoCycle(rows: seq<Edge>) returns (raised: bool)
    ensures raised <==> !Acyclic(Members(rows))
  {
    var graph, keys := BuildGraph(rows);
    var search := new Search(graph);
    ghost var E := EdgesOf(graph);
    ghost var universe := graph.Keys + set e | e in E :: e.dst;
    for i := 0 to |keys|
      invariant search.graph == graph && search.Valid() && search.stack == []
      invariant forall v :: v in keys[..i] ==> v in search.finished
    {
      assert keys[..i + 1] == keys[..i] + [keys[i]];
      if keys[i] !in search.visited {
        var found := search.Dfs(keys[i], universe);
        if found { return true; }
      }
    }
    assert keys[..|keys|] == keys;
    assert [] + search.finished == search.finished;
    FinishedIsAcyclic(E, search.finished);
    return false;
  }

  // ---- Agreement with the sort ----

  /** The deps lists the loader builds from active edge rows: one entry per row that points at the node. */
  ghost predicate LoadedFrom(nodes: seq<NodeSnapshot>, rows: seq<Edge>)
  {
    forall n :: n in nodes ==> forall u :: u in n.deps <==> Edge(u, n.id) in rows
  }

  lemma LoadedEdges(nodes: seq<NodeSnapshot>, rows: seq<Edge>)
    requires LoadedFrom(nodes, rows)
    requires forall e :: e in rows ==> e.dst in Ids(nodes)
    ensures EdgeSet(nodes) == Members(rows)
  {
    forall e ensures e in EdgeSet(nodes) <==> e in rows {
      DepEdgesMembers(nodes, e);
      assert e == Edge(e.src, e.dst);
      if e in rows {
        var i :| 0 <= i < |nodes| && Ids(nodes)[i] == e.dst;
        assert nodes[i] in nodes && nodes[i].id == e.dst;
      }
    }
  }

  /** On a DAG with unique ids whose edge endpoints are all its nodes, the detector accepts exactly the
      graphs the sort accepts. */
  lemma DetectorAgreesWithSort(nodes: seq<NodeSnapshot>, rows: seq<Edge>)
    requires Distinct(Ids(nodes)) && LoadedFrom(nodes, rows)
    requires forall e :: e in rows ==> e.src in Ids(nodes) && e.dst in Ids(nodes)
    ensures TopologicalSort.Sortable(nodes) <==> Acyclic(Members(rows))
  {
    LoadedEdges(nodes, rows);
  }
}

/** Kahn's algorithm as the advance loop runs it (engine/core/dag_advancer.py, topological_sort). */
module TopologicalSort {
  import opened Graph
  import opened Nodes
  import opened Options

  /** What a dependency list must be for the sort to accept it. */
  ghost predicate Sortable(nodes: seq<NodeSnapshot>)
  {
    && Distinct(Ids(nodes))
    && (forall e :: e in EdgeSet(nodes) ==> e.src in Ids(nodes))
    && Acyclic(EdgeSet(nodes))
  }

  // ---- Counting specification of the two dictionaries ----

  /** Number of edges into x whose source is not yet placed, with multiplicity. */
  ghost function InDegree(L: seq<Edge>, placed: set<NodeId>, x: NodeId): nat
  {
    if L == [] then 0 else
      var e := L[|L| - 1];
      InDegree(L[..|L| - 1], placed, x) + if e.dst == x && e.src !in placed then 1 else 0
  }

  /** Targets of the edges that leave v, in reading order, with multiplicity. */
  ghost function Successors(L: seq<Edge>, v: NodeId): seq<NodeId>
  {
    if L == [] then [] else
      var e := L[|L| - 1];
      Successors(L[..|L| - 1], v) + if e.src == v then [e.dst] else []
  }

  lemma {:induction false} PlacingOne(L: seq<Edge>, placed: set<NodeId>, v: NodeId, x: NodeId)
    requires v !in placed
    ensures InDegree(L, placed, x) == InDegree(L, placed + {v}, x) + multiset(Successors(L, v))[x]
  {
    if L != [] {
      PlacingOne(L[..|L| - 1], placed, v, x);
    }
  }

  lemma {:induction false} ZeroInDegree(L: seq<Edge>, placed: set<NodeId>, x: NodeId)
    ensures InDegree(L, placed, x) == 0 <==> forall e :: e in L && e.dst == x ==> e.src in placed
  {
    if L != [] {
      var front, last := L[..|L| - 1], L[|L| - 1];
      ZeroInDegree(front, placed, x);
      assert forall e :: e in L <==> e in front || e == last;
    }
  }

  lemma {:induction false} SuccessorsAreTargets(L: seq<Edge>, v: NodeId, x: NodeId)
    requires x in Successors(L, v)
    ensures Edge(v, x) in L
  {
    var front, last := L[..|L| - 1], L[|L| - 1];
    if x in Successors(front, v) {
      SuccessorsAreTargets(front, v, x);
    }
  }

  // ---- The initial ordering of the roots ----

  /** The priority of the first node with this id; 3 when there is none. */
  function PriorityOf(nodes: seq<NodeSnapshot>, x: NodeId): int
  {
    if nodes == [] then 3
    else if nodes[0].id == x then nodes[0].priority
    else PriorityOf(nodes[1..], x)
  }

  ghost predicate SortedByPriority(nodes: seq<NodeSnapshot>, s: seq<NodeId>)
  {
    forall i, j :: 0 <= i < j < |s| ==> PriorityOf(nodes, s[i]) <= PriorityOf(nodes, s[j])
  }

  /** Stable insertion of x behind every element that is not larger. */
  function Insert(nodes: seq<NodeSnapshot>, x: NodeId, s: seq<NodeId>): seq<NodeId>
  {
    if s == [] || PriorityOf(nodes, s[|s| - 1]) <= PriorityOf(nodes, x) then s + [x]
    else Insert(nodes, x, s[..|s| - 1]) + [s[|s| - 1]]
  }

  /** Python's stable sorted(..., key=priority). */
  function SortByPriority(nodes: seq<NodeSnapshot>, s: seq<NodeId>): seq<NodeId>
  {
    if s == [] then [] else
      Insert(nodes, s[|s| - 1], SortByPriority(nodes, s[..|s| - 1]))
  }

  lemma {:induction false} InsertPermutes(nodes: seq<NodeSnapshot>, x: NodeId, s: seq<NodeId>)
    ensures multiset(Insert(nodes, x, s)) == multiset(s) + multiset{x}
  {
    if !(s == [] || PriorityOf(nodes, s[|s| - 1]) <= PriorityOf(nodes, x)) {
      InsertPermutes(nodes, x, s[..|s| - 1]);
      assert s == s[..|s| - 1] + [s[|s| - 1]];
    }
  }

  lemma {:induction false} InsertSorts(nodes: seq<NodeSnapshot>, x: NodeId, s: seq<NodeId>)
    requires SortedByPriority(nodes, s)
    ensures SortedByPriority(nodes, Insert(nodes, x, s))
  {
    if !(s == [] || PriorityOf(nodes, s[|s| - 1]) <= PriorityOf(nodes, x)) {
      var front, last := s[..|s| - 1], s[|s| - 1];
      InsertSorts(nodes, x, front);
      InsertPermutes(nodes, x, front);
      var r := Insert(nodes, x, front);
      forall i | 0 <= i < |r| ensures PriorityOf(nodes, r[i]) <= PriorityOf(nodes, last) {
        assert r[i] in multiset(r);
        if r[i] != x {
          assert r[i] in multiset(front);
          var j :| 0 <= j < |front| && front[j] == r[i];
        }
      }
    }
  }

  lemma {:induction false} SortByPriorityCorrect(nodes: seq<NodeSnapshot>, s: seq<NodeId>)
    ensures multiset(SortByPriority(nodes, s)) == multiset(s)
    ensures SortedByPriority(nodes, SortByPriority(nodes, s))
  {
    if s != [] {
      var front, last := s[..|s| - 1], s[|s| - 1];
      SortByPriorityCorrect(nodes, front);
      InsertPermutes(nodes, last, SortByPriority(nodes, front));
      InsertSorts(nodes, last, SortByPriority(nodes, front));
      assert s == front + [last];
    }
  }

  // ---- What the order means when the queue runs dry ----

  lemma SuccessorIsKnown(nodes: seq<NodeSnapshot>, v: NodeId, x: NodeId)
    requires x in Successors(DepEdges(nodes), v)
    ensures x in Ids(nodes) && Edge(v, x) in EdgeSet(nodes)
  {
    SuccessorsAreTargets(DepEdges(nodes), v, x);
    TargetIsKnown(nodes, Edge(v, x));
  }

  lemma TargetIsKnown(nodes: seq<NodeSnapshot>, e: Edge)
    requires e in EdgeSet(nodes)
    ensures e.dst in Ids(nodes)
  {
    DepEdgesMembers(nodes, e);
    var n :| n in nodes && n.id == e.dst;
    var i :| 0 <= i < |nodes| && nodes[i] == n;
    assert Ids(nodes)[i] == e.dst;
  }

  ghost predicate Stuck(nodes: seq<NodeSnapshot>, order: seq<NodeId>)
  {
    forall x :: x in Ids(nodes) && x !in order ==>
      exists u :: Edge(u, x) in EdgeSet(nodes) && u !in order
  }

  lemma FullOrderMeansSortable(nodes: seq<NodeSnapshot>, order: seq<NodeId>)
    requires Distinct(order) && TopologicalOrder(EdgeSet(nodes), order)
    requires Members(order) <= Members(Ids(nodes)) && |order| == |nodes|
    ensures Sortable(nodes) && multiset(order) == multiset(Ids(nodes))
  {
    var E := EdgeSet(nodes);
    SizeOfMembers(order);
    SizeOfMembers(Ids(nodes));
    SubsetOfSameSize(Members(order), Members(Ids(nodes)));
    forall e | e in E ensures e.dst in order && e.src in Ids(nodes) {
      TargetIsKnown(nodes, e);
      assert e.dst in Members(order);
      var i :| 0 <= i < |order| && order[i] == e.dst;
      assert Edge(e.src, order[i]) in E;
      assert e.src in Members(order);
    }
    OrderedIsAcyclic(E, order);
    DistinctMultiset(order);
    DistinctMultiset(Ids(nodes));
  }

  /** When every unplaced node waits for another unplaced source, only a full order is acceptable. */
  lemma SortableIsNeverStuck(nodes: seq<NodeSnapshot>, order: seq<NodeId>)
    requires Distinct(order) && Members(order) <= Members(Ids(nodes))
    requires Stuck(nodes, order) && Sortable(nodes)
    ensures |order| == |nodes|
  {
    NoSourceLeftMeansAllPlaced(EdgeSet(nodes), Members(Ids(nodes)), Members(order));
    assert Members(order) == Members(Ids(nodes));
    SizeOfMembers(order);
    SizeOfMembers(Ids(nodes));
  }

  /** Nodes without dependencies come before all others, in ascending priority. */
  ghost predicate RootsFirst(nodes: seq<NodeSnapshot>, order: seq<NodeId>)
  {
    forall i, j, m, n ::
      0 <= i < j < |order| && m in nodes && n in nodes && m.id == order[i] && n.id == order[j] && n.deps == []
      ==> m.deps == [] && m.priority <= n.priority
  }

  lemma RootIffZero(nodes: seq<NodeSnapshot>, n: NodeSnapshot)
    requires Distinct(Ids(nodes)) && n in nodes
    ensures n.deps == [] <==> InDegree(DepEdges(nodes), {}, n.id) == 0
  {
    ZeroInDegree(DepEdges(nodes), {}, n.id);
    if n.deps != [] {
      DepEdgesMembers(nodes, Edge(n.deps[0], n.id));
    } else {
      forall e | e in DepEdges(nodes) && e.dst == n.id ensures false {
        DepEdgesMembers(nodes, e);
        var m :| m in nodes && m.id == e.dst && e.src in m.deps;
        SameIdSameNode(nodes, m, n);
      }
    }
  }

  lemma SameIdSameNode(nodes: seq<NodeSnapshot>, m: NodeSnapshot, n: NodeSnapshot)
    requires Distinct(Ids(nodes)) && m in nodes && n in nodes && m.id == n.id
    ensures m == n
  {
    var i :| 0 <= i < |nodes| && nodes[i] == m;
    var j :| 0 <= j < |nodes| && nodes[j] == n;
    assert Ids(nodes)[i] == Ids(nodes)[j];
    DistinctIndices(Ids(nodes), i, j);
  }

  lemma {:induction false} PriorityOfMember(nodes: seq<NodeSnapshot>, n: NodeSnapshot)
    requires Distinct(Ids(nodes)) && n in nodes
    ensures PriorityOf(nodes, n.id) == n.priority
  {
    if nodes[0].id == n.id {
      SameIdSameNode(nodes, nodes[0], n);
    } else {
      DistinctSplit(Ids(nodes), 0);
      assert Ids(nodes)[1..] == Ids(nodes[1..]);
      PriorityOfMember(nodes[1..], n);
    }
  }

  lemma SortedRootsComeFirst(nodes: seq<NodeSnapshot>, start: seq<NodeId>, order: seq<NodeId>)
    requires Distinct(Ids(nodes)) && Distinct(order) && start <= order
    requires forall x :: x in start <==> x in Ids(nodes) && InDegree(DepEdges(nodes), {}, x) == 0
    requires SortedByPriority(nodes, start)
    ensures RootsFirst(nodes, order)
  {
    forall i, j, m, n |
      0 <= i < j < |order| && m in nodes && n in nodes && m.id == order[i] && n.id == order[j] && n.deps == []
      ensures m.deps == [] && m.priority <= n.priority
    {
      RootIffZero(nodes, n);
      RootIffZero(nodes, m);
      var l :| 0 <= l < |nodes| && nodes[l] == n;
      assert Ids(nodes)[l] == n.id;
      var k :| 0 <= k < |start| && start[k] == n.id;
      DistinctIndices(order, j, k);
      PriorityOfMember(nodes, m);
      PriorityOfMember(nodes, n);
    }
  }

  // ---- The algorithm ----

  /** The in-degree dictionary with every id at 0; keys lists its keys in insertion order. */
  method InitialInDegree(nodes: seq<NodeSnapshot>) returns (keys: seq<NodeId>, inDegree: map<NodeId, nat>)
    ensures Distinct(keys) && Members(keys) == Members(Ids(nodes)) == inDegree.Keys
    ensures forall x :: x in inDegree ==> inDegree[x] == 0
  {
    keys, inDegree := [], map[];
    for i := 0 to |nodes|
      invariant Distinct(keys) && Members(keys) == inDegree.Keys == Members(Ids(nodes)[..i])
      invariant forall x :: x in inDegree ==> inDegree[x] == 0
    {
      var id := nodes[i].id;
      assert Ids(nodes)[..i + 1] == Ids(nodes)[..i] + [id];
      assert Members(Ids(nodes)[..i + 1]) == Members(Ids(nodes)[..i]) + {id};
      if id !in inDegree {
        assert id !in Members(keys);
        assert Members(keys + [id]) == Members(keys) + {id};
        keys := keys + [id];
      }
      inDegree := inDegree[id := 0];
    }
    assert Ids(nodes)[..|nodes|] == Ids(nodes);
  }

  function Lookup(adj: map<NodeId, seq<NodeId>>, v: NodeId): seq<NodeId>
  {
    if v in adj then adj[v] else []
  }

  /** The two dictionaries agree with the edges read so far. */
  ghost predicate Counted(L: seq<Edge>, inDegree: map<NodeId, nat>, adj: map<NodeId, seq<NodeId>>)
  {
    && (forall x :: x in inDegree ==> inDegree[x] == InDegree(L, {}, x))
    && (forall v :: Lookup(adj, v) == Successors(L, v))
  }

  lemma CountOneMore(L: seq<Edge>, e: Edge, inDegree: map<NodeId, nat>, adj: map<NodeId, seq<NodeId>>)
    requires Counted(L, inDegree, adj) && e.dst in inDegree
    ensures Counted(L + [e], inDegree[e.dst := inDegree[e.dst] + 1], adj[e.src := Lookup(adj, e.src) + [e.dst]])
  {
    var M, inDegree' := L + [e], inDegree[e.dst := inDegree[e.dst] + 1];
    var adj' := adj[e.src := Lookup(adj, e.src) + [e.dst]];
    assert M[..|M| - 1] == L;
    forall v ensures Lookup(adj', v) == Successors(M, v) {
      assert Lookup(adj, v) == Successors(L, v);
    }
  }

  lemma PrefixOneMore(L: seq<Edge>, es: seq<Edge>, k: nat)
    requires k < |es|
    ensures L + es[..k] + [es[k]] == L + es[..k + 1]
  {}

  /** The inner loop of the dictionary construction: one node's dependencies. */
  method CountNode(node: NodeSnapshot, ghost L: seq<Edge>, inDegree: map<NodeId, nat>, adj: map<NodeId, seq<NodeId>>)
    returns (inDegree': map<NodeId, nat>, adj': map<NodeId, seq<NodeId>>)
    requires node.id in inDegree && Counted(L, inDegree, adj)
    ensures inDegree'.Keys == inDegree.Keys && Counted(L + EdgesInto(node), inDegree', adj')
  {
    inDegree', adj' := inDegree, adj;
    ghost var read := L;
    for k := 0 to |node.deps|
      invariant read == L + EdgesInto(node)[..k]
      invariant inDegree'.Keys == inDegree.Keys
      invariant Counted(read, inDegree', adj')
    {
      var dep := node.deps[k];
      CountOneMore(read, Edge(dep, node.id), inDegree', adj');
      PrefixOneMore(L, EdgesInto(node), k);
      read := read + [Edge(dep, node.id)];
      adj' := adj'[dep := Lookup(adj', dep) + [node.id]];
      inDegree' := inDegree'[node.id := inDegree'[node.id] + 1];
    }
    assert EdgesInto(node)[..|node.deps|] == EdgesInto(node);
  }

  method BuildDictionaries(nodes: seq<NodeSnapshot>)
    returns (keys: seq<NodeId>, inDegree: map<NodeId, nat>, adj: map<NodeId, seq<NodeId>>)
    ensures Distinct(keys) && Members(keys) == Members(Ids(nodes)) == inDegree.Keys
    ensures Counted(DepEdges(nodes), inDegree, adj)
  {
    keys, inDegree := InitialInDegree(nodes);
    adj := map[];
    for i := 0 to |nodes|
      invariant inDegree.Keys == Members(Ids(nodes))
      invariant Counted(DepEdges(nodes[..i]), inDegree, adj)
    {
      assert nodes[i].id == Ids(nodes)[i];
      assert nodes[..i + 1][..i] == nodes[..i];
      inDegree, adj := CountNode(nodes[i], DepEdges(nodes[..i]), inDegree, adj);
    }
    assert nodes[..|nodes|] == nodes;
  }

  /** The ids with in-degree 0, sorted by priority. */
  method InitialQueue(nodes: seq<NodeSnapshot>, keys: seq<NodeId>, inDegree: map<NodeId, nat>)
    returns (queue: seq<NodeId>)
    requires Distinct(keys) && Members(keys) == inDegree.Keys
    ensures Distinct(queue) && SortedByPriority(nodes, queue)
    ensures forall x :: x in queue <==> x in inDegree && inDegree[x] == 0
  {
    var roots := [];
    for i := 0 to |keys|
      invariant Distinct(roots) && forall x :: x in roots <==> x in keys[..i] && x in inDegree && inDegree[x] == 0
    {
      assert keys[i] in Members(keys);
      DistinctSplit(keys, i);
      if inDegree[keys[i]] == 0 {
        roots := roots + [keys[i]];
      }
    }
    assert keys[..|keys|] == keys;
    queue := SortByPriority(nodes, roots);
    SortByPriorityCorrect(nodes, roots);
    DistinctPermutation(roots, queue);
    assert forall x :: x in queue <==> x in Members(queue);
    assert forall x :: x in inDegree ==> x in Members(keys);
  }

  /** The state of the main loop: an in-degree counts the edges from unplaced sources plus those still
      to be subtracted, and exactly the ids that reached 0 have been seen (placed or queued). */
  ghost predicate Consistent(L: seq<Edge>, ids: set<NodeId>, placed: set<NodeId>, seen: seq<NodeId>,
                             inDegree: map<NodeId, nat>, pending: multiset<NodeId>)
  {
    && Distinct(seen)
    && inDegree.Keys == ids
    && (forall x :: x in ids ==> inDegree[x] == InDegree(L, placed, x) + pending[x])
    && (forall x :: x in seen <==> x in ids && inDegree[x] == 0)
  }

  lemma ReleaseOne(L: seq<Edge>, ids: set<NodeId>, placed: set<NodeId>, seen: seq<NodeId>,
                   inDegree: map<NodeId, nat>, v: NodeId, pending: multiset<NodeId>)
    requires v in ids && Consistent(L, ids, placed, seen, inDegree, multiset{v} + pending)
    ensures inDegree[v] > 0
    ensures Consistent(L, ids, placed, if inDegree[v] == 1 then seen + [v] else seen,
                       inDegree[v := inDegree[v] - 1], pending)
  {
    assert inDegree[v] == InDegree(L, placed, v) + (multiset{v} + pending)[v];
    var inDegree' := inDegree[v := inDegree[v] - 1];
    forall x | x in ids ensures inDegree'[x] == InDegree(L, placed, x) + pending[x] {
      assert inDegree[x] == InDegree(L, placed, x) + (multiset{v} + pending)[x];
    }
    assert v !in seen;
    assert inDegree'.Keys == ids;
  }

  lemma HeadOfRest(s: seq<NodeId>, k: nat)
    requires k < |s|
    ensures multiset(s[k..]) == multiset{s[k]} + multiset(s[k + 1..])
  {
    assert s[k..] == [s[k]] + s[k + 1..];
  }

  lemma SnocRegroups(s: seq<NodeId>, t: seq<NodeId>, x: NodeId)
    ensures s + t + [x] == s + (t + [x])
  {}

  /** Subtracts the edges that leave the node just placed; what is appended to the queue are the ids that reached 0. */
  method ReleaseSuccessors(ghost L: seq<Edge>, ghost ids: set<NodeId>, ghost placed: set<NodeId>,
                           ghost seen: seq<NodeId>,
                           succs: seq<NodeId>, queue: seq<NodeId>, inDegree: map<NodeId, nat>)
    returns (queue': seq<NodeId>, inDegree': map<NodeId, nat>)
    requires Consistent(L, ids, placed, seen, inDegree, multiset(succs))
    requires forall x :: x in succs ==> x in ids
    ensures queue <= queue' && Consistent(L, ids, placed, seen + queue'[|queue|..], inDegree', multiset{})
  {
    queue', inDegree' := queue, inDegree;
    ghost var added := [];
    assert succs[0..] == succs && seen + added == seen;
    for k := 0 to |succs|
      invariant queue' == queue + added
      invariant Consistent(L, ids, placed, seen + added, inDegree', multiset(succs[k..]))
    {
      var successor := succs[k];
      HeadOfRest(succs, k);
      ReleaseOne(L, ids, placed, seen + added, inDegree', successor, multiset(succs[k + 1..]));
      inDegree' := inDegree'[successor := inDegree'[successor] - 1];
      if inDegree'[successor] == 0 {
        SnocRegroups(seen, added, successor);
        SnocRegroups(queue, added, successor);
        queue' := queue' + [successor];
        added := added + [successor];
      }
    }
    assert succs[|succs|..] == [] && queue'[|queue|..] == added;
  }

  /** Taking the head of the queue into the order keeps the order topological. */
  lemma PlaceHead(nodes: seq<NodeSnapshot>, order: seq<NodeId>, queue: seq<NodeId>, inDegree: map<NodeId, nat>)
    requires queue != []
    requires Consistent(DepEdges(nodes), Members(Ids(nodes)), Members(order), order + queue, inDegree, multiset{})
    requires TopologicalOrder(EdgeSet(nodes), order)
    ensures queue[0] !in order && queue[0] in Ids(nodes)
    ensures TopologicalOrder(EdgeSet(nodes), order + [queue[0]])
  {
    var nid, all := queue[0], order + queue;
    assert all[|order|] == nid && nid in all;
    DistinctParts(order, queue);
    assert inDegree[nid] == InDegree(DepEdges(nodes), Members(order), nid) + multiset{}[nid];
    ZeroInDegree(DepEdges(nodes), Members(order), nid);
    forall u | Edge(u, nid) in EdgeSet(nodes) ensures u in order {
      assert Edge(u, nid).dst == nid;
    }
    PlaceLast(EdgeSet(nodes), order, nid);
  }

  lemma HeadOpensItsSuccessors(L: seq<Edge>, ids: set<NodeId>, placed: set<NodeId>, seen: seq<NodeId>,
                               inDegree: map<NodeId, nat>, nid: NodeId)
    requires nid !in placed
    requires Consistent(L, ids, placed, seen, inDegree, multiset{})
    ensures Consistent(L, ids, placed + {nid}, seen, inDegree, multiset(Successors(L, nid)))
  {
    forall x | x in ids
      ensures inDegree[x] == InDegree(L, placed + {nid}, x) + multiset(Successors(L, nid))[x]
    {
      assert inDegree[x] == InDegree(L, placed, x) + multiset{}[x];
      PlacingOne(L, placed, nid, x);
    }
  }

  lemma EmptyQueueIsStuck(nodes: seq<NodeSnapshot>, order: seq<NodeId>, inDegree: map<NodeId, nat>)
    requires Consistent(DepEdges(nodes), Members(Ids(nodes)), Members(order), order, inDegree, multiset{})
    ensures Distinct(order) && Stuck(nodes, order) && Members(order) <= Members(Ids(nodes))
  {
    forall x | x in Ids(nodes) && x !in order ensures exists u :: Edge(u, x) in EdgeSet(nodes) && u !in order {
      ZeroInDegree(DepEdges(nodes), Members(order), x);
      assert x in Members(Ids(nodes));
      var e :| e in DepEdges(nodes) && e.dst == x && e.src !in Members(order);
      assert Edge(e.src, x) == e;
    }
  }

  /** The invariant of the main loop. */
  ghost predicate Progress(nodes: seq<NodeSnapshot>, start: seq<NodeId>, order: seq<NodeId>, queue: seq<NodeId>,
                           inDegree: map<NodeId, nat>)
  {
    && Consistent(DepEdges(nodes), Members(Ids(nodes)), Members(order), order + queue, inDegree, multiset{})
    && TopologicalOrder(EdgeSet(nodes), order)
    && start <= order + queue
  }

  lemma PlaceHeadProgress(nodes: seq<NodeSnapshot>, start: seq<NodeId>, order: seq<NodeId>, queue: seq<NodeId>,
                          inDegree: map<NodeId, nat>)
    requires queue != [] && Progress(nodes, start, order, queue, inDegree)
    ensures queue[0] !in order && queue[0] in Ids(nodes)
    ensures TopologicalOrder(EdgeSet(nodes), order + [queue[0]])
    ensures Consistent(DepEdges(nodes), Members(Ids(nodes)), Members(order + [queue[0]]), order + queue, inDegree,
                       multiset(Successors(DepEdges(nodes), queue[0])))
    ensures forall x :: x in Successors(DepEdges(nodes), queue[0]) ==> x in Members(Ids(nodes))
  {
    PlaceHead(nodes, order, queue, inDegree);
    assert Members(order + [queue[0]]) == Members(order) + {queue[0]};
    HeadOpensItsSuccessors(DepEdges(nodes), Members(Ids(nodes)), Members(order), order + queue, inDegree, queue[0]);
    forall x | x in Successors(DepEdges(nodes), queue[0]) ensures x in Members(Ids(nodes)) {
      SuccessorIsKnown(nodes, queue[0], x);
    }
  }

  lemma Regroup(start: seq<NodeId>, order: seq<NodeId>, queue: seq<NodeId>, added: seq<NodeId>)
    requires queue != [] && start <= order + queue
    ensures (order + [queue[0]]) + (queue[1..] + added) == order + queue + added
    ensures start <= order + queue + added
  {}

  /** One turn of the main loop: place the head of the queue and release its successors. */
  method PlaceNext(ghost nodes: seq<NodeSnapshot>, ghost start: seq<NodeId>, adj: map<NodeId, seq<NodeId>>,
                   order: seq<NodeId>, queue: seq<NodeId>, inDegree: map<NodeId, nat>)
    returns (order': seq<NodeId>, queue': seq<NodeId>, inDegree': map<NodeId, nat>)
    requires queue != [] && forall v :: Lookup(adj, v) == Successors(DepEdges(nodes), v)
    requires Progress(nodes, start, order, queue, inDegree)
    ensures Progress(nodes, start, order', queue', inDegree')
    ensures order' == order + [queue[0]] && queue[0] !in order && queue[0] in Ids(nodes)
  {
    PlaceHeadProgress(nodes, start, order, queue, inDegree);
    order' := order + [queue[0]];
    var succs := Lookup(adj, queue[0]);
    queue', inDegree' := ReleaseSuccessors(DepEdges(nodes), Members(Ids(nodes)), Members(order'), order + queue,
                                           succs, queue[1..], inDegree);
    NextProgress(nodes, start, order, queue, queue', inDegree');
  }

  lemma NextProgress(nodes: seq<NodeSnapshot>, start: seq<NodeId>, order: seq<NodeId>, queue: seq<NodeId>,
                     queue': seq<NodeId>, inDegree: map<NodeId, nat>)
    requires queue != [] && queue[1..] <= queue' && start <= order + queue
    requires TopologicalOrder(EdgeSet(nodes), order + [queue[0]])
    requires Consistent(DepEdges(nodes), Members(Ids(nodes)), Members(order + [queue[0]]),
                        order + queue + queue'[|queue[1..]|..], inDegree, multiset{})
    ensures Progress(nodes, start, order + [queue[0]], queue', inDegree)
  {
    var added := queue'[|queue[1..]|..];
    assert queue' == queue[1..] + added;
    Regroup(start, order, queue, added);
  }

  lemma InitialProgress(nodes: seq<NodeSnapshot>, queue: seq<NodeId>, inDegree: map<NodeId, nat>,
                        adj: map<NodeId, seq<NodeId>>)
    requires Counted(DepEdges(nodes), inDegree, adj) && inDegree.Keys == Members(Ids(nodes)) && Distinct(queue)
    requires forall x :: x in queue <==> x in inDegree && inDegree[x] == 0
    ensures Progress(nodes, queue, [], queue, inDegree)
    ensures forall x :: x in queue <==> x in Ids(nodes) && InDegree(DepEdges(nodes), {}, x) == 0
  {
    assert [] + queue == queue && Members<NodeId>([]) == {};
    assert forall x :: x in inDegree <==> x in Members(Ids(nodes));
  }

  lemma LoopResult(nodes: seq<NodeSnapshot>, start: seq<NodeId>, order: seq<NodeId>, inDegree: map<NodeId, nat>)
    requires Progress(nodes, start, order, [], inDegree)
    requires SortedByPriority(nodes, start)
    requires forall x :: x in start <==> x in Ids(nodes) && InDegree(DepEdges(nodes), {}, x) == 0
    ensures |order| == |nodes| <==> Sortable(nodes)
    ensures |order| == |nodes| ==> multiset(order) == multiset(Ids(nodes)) && Distinct(order)
    ensures |order| == |nodes| ==> TopologicalOrder(EdgeSet(nodes), order) && RootsFirst(nodes, order)
  {
    assert order + [] == order;
    EmptyQueueIsStuck(nodes, order, inDegree);
    if |order| == |nodes| {
      FullOrderMeansSortable(nodes, order);
      SortedRootsComeFirst(nodes, start, order);
    }
    if Sortable(nodes) { SortableIsNeverStuck(nodes, order); }
  }

  /** The sort returns an order exactly when ids are unique, every dependency is a known node and the
      dependencies are acyclic; the order is a permutation of the ids, lists every dependency first,
      and starts with the dependency-free nodes in priority order. */
  method Sort(nodes: seq<NodeSnapshot>) returns (r: Option<seq<NodeId>>)
    ensures r.Some? <==> Sortable(nodes)
    ensures r.Some? ==> multiset(r.value) == multiset(Ids(nodes))
    ensures r.Some? ==> Distinct(r.value) && TopologicalOrder(EdgeSet(nodes), r.value)
    ensures r.Some? ==> RootsFirst(nodes, r.value)
  {
    var keys, inDegree, adj := BuildDictionaries(nodes);
    var queue := InitialQueue(nodes, keys, inDegree);
    InitialProgress(nodes, queue, inDegree, adj);
    ghost var start := queue;
    var order: seq<NodeId> := [];
    while queue != []
      invariant Progress(nodes, start, order, queue, inDegree)
      decreases Members(Ids(nodes)) - Members(order)
    {
      ghost var v := queue[0];
      assert Members(order + [v]) == Members(order) + {v};
      order, queue, inDegree := PlaceNext(nodes, start, adj, order, queue, inDegree);
    }
    LoopResult(nodes, start, order, inDegree);
    if |order| != |nodes| {
      return None;
    }
    return Some(order);
  }
}

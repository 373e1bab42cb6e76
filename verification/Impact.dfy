/** How far a change spreads: the bounded breadth-first search of the impact analyzer
    (engine/core/impact_analyzer.py). */
module Impact {
  import opened Graph

  const MAX_BFS_DEPTH: nat := 10

  datatype Entry = Entry(id: NodeId, distance: nat)

  /** v is n edges away from some root. */
  ghost predicate From(E: set<Edge>, roots: seq<NodeId>, v: NodeId, n: nat)
  {
    exists r :: r in roots && Hops(E, r, v, n)
  }

  ghost predicate Within(E: set<Edge>, roots: seq<NodeId>, v: NodeId)
  {
    exists n :: 0 <= n <= 10 && From(E, roots, v, n)
  }

  /** Exactly the nodes within the depth bound are listed, each with its shortest distance. */
  ghost predicate TrueDistances(E: set<Edge>, roots: seq<NodeId>, distances: map<NodeId, nat>)
  {
    && (forall v :: v in distances <==> Within(E, roots, v))
    && (forall v :: v in distances ==> Nearest(E, roots, v, distances[v]))
  }

  /** The same, counted back from v: the form the search extends one edge at a time. */
  ghost predicate Away(E: set<Edge>, roots: seq<NodeId>, v: NodeId, n: nat)
    decreases n
  {
    if n == 0 then v in roots
    else exists c :: Edge(c, v) in E && Away(E, roots, c, n - 1)
  }

  lemma {:induction false} AwayIsFrom(E: set<Edge>, roots: seq<NodeId>, v: NodeId, n: nat)
    ensures Away(E, roots, v, n) <==> From(E, roots, v, n)
    decreases n
  {
    if n == 0 {
      assert v in roots ==> Hops(E, v, v, 0);
    } else {
      if Away(E, roots, v, n) {
        var c :| Edge(c, v) in E && Away(E, roots, c, n - 1);
        AwayIsFrom(E, roots, c, n - 1);
        FromExtends(E, roots, c, v, n - 1);
      }
      if From(E, roots, v, n) {
        var r :| r in roots && Hops(E, r, v, n);
        var c := LastEdge(E, r, v, n);
        AwayIsFrom(E, roots, c, n - 1);
      }
    }
  }

  /** n is the length of a shortest walk from a root to v. */
  ghost predicate Nearest(E: set<Edge>, roots: seq<NodeId>, v: NodeId, n: nat)
  {
    From(E, roots, v, n) && forall m :: 0 <= m < n ==> !From(E, roots, v, m)
  }

  ghost predicate Adjacency(adjacency: map<NodeId, seq<NodeId>>, edges: seq<Edge>)
  {
    forall a, b :: Edge(a, b) in edges <==> a in adjacency && b in adjacency[a]
  }

  /** The queue holds every discovered node with its distance, nearest first, none further than limit. */
  ghost predicate Queued(distances: map<NodeId, nat>, queue: seq<Entry>, limit: nat)
  {
    && (forall j :: 0 <= j < |queue| ==>
          queue[j].id in distances && distances[queue[j].id] == queue[j].distance <= limit)
    && (forall v :: v in distances ==> distances[v] <= limit)
    && (forall v {:trigger Entry(v, distances[v])} :: v in distances ==> Entry(v, distances[v]) in queue)
    && (forall j, k :: 0 <= j < k < |queue| ==> queue[j].distance <= queue[k].distance)
  }

  /** Every recorded distance is the length of some walk from a root. */
  ghost predicate Witnessed(E: set<Edge>, roots: seq<NodeId>, distances: map<NodeId, nat>)
  {
    && (forall r :: r in roots ==> r in distances && distances[r] == 0)
    && (forall v :: v in distances ==> distances[v] <= MAX_BFS_DEPTH)
    && (forall v {:trigger Away(E, roots, v, distances[v])} :: v in distances ==> Away(E, roots, v, distances[v]))
  }

  /** The edges out of v, a node d away from the roots, add nothing that is not recorded at most d + 1 away. */
  ghost predicate Expanded(edges: seq<Edge>, distances: map<NodeId, nat>, v: NodeId, d: nat)
  {
    d < MAX_BFS_DEPTH ==> forall w :: Edge(v, w) in edges ==> w in distances && distances[w] <= d + 1
  }

  ghost predicate AllExpanded(edges: seq<Edge>, distances: map<NodeId, nat>)
  {
    forall v, w :: Edge(v, w) in edges && v in distances && distances[v] < MAX_BFS_DEPTH ==>
      w in distances && distances[w] <= distances[v] + 1
  }

  /** Only entries at distance d were added behind. */
  ghost predicate Appended(queue: seq<Entry>, queue': seq<Entry>, d: nat)
  {
    queue <= queue' && forall j :: |queue| <= j < |queue'| ==> queue'[j].distance == d
  }

  lemma AppendedOneMore(queue: seq<Entry>, queue': seq<Entry>, w: NodeId, d: nat)
    requires Appended(queue, queue', d)
    ensures Appended(queue, queue' + [Entry(w, d)], d)
  {}

  /** What was recorded stays, and only targets of edges were added. */
  ghost predicate Grown(edges: seq<Edge>, before: map<NodeId, nat>, after: map<NodeId, nat>)
  {
    && (forall v :: v in before ==> v in after && after[v] == before[v])
    && before.Keys <= after.Keys <= before.Keys + Targets(edges)
  }

  lemma FromExtends(E: set<Edge>, roots: seq<NodeId>, v: NodeId, w: NodeId, n: nat)
    requires From(E, roots, v, n) && Edge(v, w) in E
    ensures From(E, roots, w, n + 1)
  {
    var r :| r in roots && Hops(E, r, v, n);
    EdgeHops(E, v, w);
    HopsConcat(E, r, v, w, n, 1);
  }

  /** A search whose queue is used up has found everything within the depth bound, at most that far. */
  lemma {:induction false} NothingMissed(edges: seq<Edge>, roots: seq<NodeId>, distances: map<NodeId, nat>,
                                         v: NodeId, n: nat)
    requires AllExpanded(edges, distances)
    requires forall r :: r in roots ==> r in distances && distances[r] == 0
    requires n <= MAX_BFS_DEPTH && Away(Members(edges), roots, v, n)
    ensures v in distances && distances[v] <= n
    decreases n
  {
    if n > 0 {
      var c :| Edge(c, v) in Members(edges) && Away(Members(edges), roots, c, n - 1);
      NothingMissed(edges, roots, distances, c, n - 1);
      assert Edge(c, v) in edges;
    }
  }

  ghost predicate ExpandedUpTo(edges: seq<Edge>, distances: map<NodeId, nat>, queue: seq<Entry>, i: nat)
    requires i <= |queue|
  {
    forall j {:trigger Expanded(edges, distances, queue[j].id, queue[j].distance)} :: 0 <= j < i ==>
      Expanded(edges, distances, queue[j].id, queue[j].distance)
  }

  lemma QueuedFurther(distances: map<NodeId, nat>, queue: seq<Entry>, limit: nat, further: nat)
    requires Queued(distances, queue, limit) && limit <= further
    ensures Queued(distances, queue, further)
  {}

  lemma QueueUsedUp(edges: seq<Edge>, distances: map<NodeId, nat>, queue: seq<Entry>, limit: nat)
    requires Queued(distances, queue, limit)
    requires ExpandedUpTo(edges, distances, queue, |queue|)
    ensures AllExpanded(edges, distances)
  {
    forall v, w | Edge(v, w) in edges && v in distances && distances[v] < MAX_BFS_DEPTH
      ensures w in distances && distances[w] <= distances[v] + 1
    {
      var j :| 0 <= j < |queue| && queue[j] == Entry(v, distances[v]);
      assert Expanded(edges, distances, queue[j].id, queue[j].distance);
    }
  }

  lemma LessUnknown(known: set<NodeId>, before: set<NodeId>, after: set<NodeId>)
    requires before <= after <= known
    ensures after == before || known - after < known - before
  {
    if x :| x in after && x !in before {
      assert x in known - before && x !in known - after;
    }
  }

  /** Recorded distances never change and the queue only grows, so what was expanded stays expanded. */
  lemma OneMoreExpanded(edges: seq<Edge>, before: map<NodeId, nat>, after: map<NodeId, nat>,
                        queue: seq<Entry>, queue': seq<Entry>, i: nat, limit: nat)
    requires i < |queue| && Appended(queue, queue', limit) && Grown(edges, before, after)
    requires ExpandedUpTo(edges, before, queue, i) && Expanded(edges, after, queue[i].id, queue[i].distance)
    ensures ExpandedUpTo(edges, after, queue', i + 1)
  {
    forall j | 0 <= j < i + 1 ensures Expanded(edges, after, queue'[j].id, queue'[j].distance) {
      assert queue'[j] == queue[j];
      if j < i { assert Expanded(edges, before, queue[j].id, queue[j].distance); }
    }
  }

  method BuildAdjacency(edges: seq<Edge>) returns (adjacency: map<NodeId, seq<NodeId>>)
    ensures Adjacency(adjacency, edges)
  {
    adjacency := map[];
    for k := 0 to |edges|
      invariant Adjacency(adjacency, edges[..k])
    {
      var e := edges[k];
      var known := if e.src in adjacency then adjacency[e.src] else [];
      adjacency := adjacency[e.src := known + [e.dst]];
      assert edges[..k + 1] == edges[..k] + [e];
    }
    assert edges[..|edges|] == edges;
  }

  /** The search between two turns: queue[..i] is done, and nothing is more than one step beyond it. */
  ghost predicate Searching(edges: seq<Edge>, roots: seq<NodeId>, distances: map<NodeId, nat>, queue: seq<Entry>,
                            i: nat)
  {
    && i <= |queue|
    && distances.Keys <= Members(roots) + Targets(edges)
    && Witnessed(Members(edges), roots, distances)
    && Queued(distances, queue, if i == 0 then 1 else queue[i - 1].distance + 1)
    && ExpandedUpTo(edges, distances, queue, i)
  }

  /** A search with nothing left to do is right about every node. */
  lemma SearchIsExact(edges: seq<Edge>, roots: seq<NodeId>, distances: map<NodeId, nat>, queue: seq<Entry>)
    requires Searching(edges, roots, distances, queue, |queue|)
    ensures TrueDistances(Members(edges), roots, distances)
  {
    QueueUsedUp(edges, distances, queue, if queue == [] then 1 else queue[|queue| - 1].distance + 1);
    ClosedIsExact(edges, roots, distances);
  }

  lemma ClosedIsExact(edges: seq<Edge>, roots: seq<NodeId>, distances: map<NodeId, nat>)
    requires AllExpanded(edges, distances) && Witnessed(Members(edges), roots, distances)
    ensures TrueDistances(Members(edges), roots, distances)
  {
    var E := Members(edges);
    forall v ensures v in distances ==> Nearest(E, roots, v, distances[v]) && Within(E, roots, v) {
      if v in distances {
        assert Away(E, roots, v, distances[v]);
        AwayIsFrom(E, roots, v, distances[v]);
        forall m | 0 <= m < distances[v] ensures !From(E, roots, v, m) {
          AwayIsFrom(E, roots, v, m);
          if Away(E, roots, v, m) { NothingMissed(edges, roots, distances, v, m); }
        }
      }
    }
    forall v | Within(E, roots, v) ensures v in distances {
      var n :| 0 <= n <= MAX_BFS_DEPTH && From(E, roots, v, n);
      AwayIsFrom(E, roots, v, n);
      NothingMissed(edges, roots, distances, v, n);
    }
  }

  /** The search answers with exactly the nodes within ten edges of some root, each with its true distance,
      whether or not the graph has cycles. */
  method BfsDistances(roots: seq<NodeId>, edges: seq<Edge>) returns (distances: map<NodeId, nat>)
    ensures TrueDistances(Members(edges), roots, distances)
  {
    var adjacency := BuildAdjacency(edges);
    var queue;
    distances, queue := StartAtRoots(roots, edges);
    QueuedFurther(distances, queue, 0, 1);
    var i := 0;
    while i < |queue|
      invariant Searching(edges, roots, distances, queue, i)
      decreases Undiscovered(roots, edges, distances), |queue| - i
    {
      distances, queue := Turn(roots, edges, adjacency, distances, queue, i);
      i := i + 1;
    }
    SearchIsExact(edges, roots, distances, queue);
  }

  /** The nodes the search may still come across. */
  ghost function Undiscovered(roots: seq<NodeId>, edges: seq<Edge>, distances: map<NodeId, nat>): set<NodeId>
  {
    Members(roots) + Targets(edges) - distances.Keys
  }

  /** The body of the loop. */
  method Turn(ghost roots: seq<NodeId>, ghost edges: seq<Edge>, adjacency: map<NodeId, seq<NodeId>>,
              distances: map<NodeId, nat>, queue: seq<Entry>, i: nat)
    returns (distances': map<NodeId, nat>, queue': seq<Entry>)
    requires Adjacency(adjacency, edges)
    requires i < |queue| && Searching(edges, roots, distances, queue, i)
    ensures Searching(edges, roots, distances', queue', i + 1)
    ensures Undiscovered(roots, edges, distances') < Undiscovered(roots, edges, distances)
         || (queue' == queue && Undiscovered(roots, edges, distances') == Undiscovered(roots, edges, distances))
  {
    distances', queue' := distances, queue;
    var Entry(current, distance) := queue[i];
    QueuedFurther(distances, queue, if i == 0 then 1 else queue[i - 1].distance + 1, distance + 1);
    if distance < MAX_BFS_DEPTH {
      var neighbours := if current in adjacency then adjacency[current] else [];
      distances', queue' := Expand(roots, edges, current, neighbours, distances, queue);
      LessUnknown(Members(roots) + Targets(edges), distances.Keys, distances'.Keys);
    }
    OneMoreExpanded(edges, distances, distances', queue, queue', i, distance + 1);
  }

  method StartAtRoots(roots: seq<NodeId>, ghost edges: seq<Edge>)
    returns (distances: map<NodeId, nat>, queue: seq<Entry>)
    ensures distances.Keys == Members(roots) && Witnessed(Members(edges), roots, distances)
    ensures Queued(distances, queue, 0)
  {
    distances, queue := map[], [];
    for k := 0 to |roots|
      invariant distances.Keys == Members(roots[..k]) && forall v :: v in distances ==> distances[v] == 0
      invariant forall j :: 0 <= j < |queue| ==> queue[j].id in distances && queue[j].distance == 0
      invariant forall v :: v in distances ==> Entry(v, 0) in queue
    {
      assert roots[..k + 1] == roots[..k] + [roots[k]];
      distances := distances[roots[k] := 0];
      queue := queue + [Entry(roots[k], 0)];
    }
    assert roots[..|roots|] == roots;
  }

  /** One node's turn: its undiscovered neighbours are one step further. */
  method Expand(ghost roots: seq<NodeId>, ghost edges: seq<Edge>, current: NodeId, neighbours: seq<NodeId>,
                distances: map<NodeId, nat>, queue: seq<Entry>)
    returns (distances': map<NodeId, nat>, queue': seq<Entry>)
    requires Witnessed(Members(edges), roots, distances)
    requires current in distances && distances[current] < MAX_BFS_DEPTH
    requires Queued(distances, queue, distances[current] + 1)
    requires forall w :: w in neighbours <==> Edge(current, w) in edges
    ensures Midway(edges, roots, distances, queue, distances', queue', distances[current] + 1)
    ensures Expanded(edges, distances', current, distances[current])
  {
    var next := distances[current] + 1;
    distances', queue' := distances, queue;
    TurnStarts(edges, roots, distances, queue, next);
    for k := 0 to |neighbours|
      invariant Midway(edges, roots, distances, queue, distances', queue', next)
      invariant forall j :: 0 <= j < k ==> neighbours[j] in distances'
    {
      var w := neighbours[k];
      if w !in distances' {
        Discover(roots, edges, current, w, distances, queue, distances', queue');
        distances' := distances'[w := next];
        queue' := queue' + [Entry(w, next)];
      }
    }
    AllFound(edges, distances', queue', current, neighbours, next);
  }

  lemma TurnStarts(edges: seq<Edge>, roots: seq<NodeId>, distances: map<NodeId, nat>, queue: seq<Entry>, next: nat)
    requires Witnessed(Members(edges), roots, distances) && Queued(distances, queue, next)
    ensures Midway(edges, roots, distances, queue, distances, queue, next)
  {
  }

  lemma AllFound(edges: seq<Edge>, distances: map<NodeId, nat>, queue: seq<Entry>, current: NodeId,
                 neighbours: seq<NodeId>, next: nat)
    requires Queued(distances, queue, next) && next > 0
    requires forall w :: w in neighbours <==> Edge(current, w) in edges
    requires forall j :: 0 <= j < |neighbours| ==> neighbours[j] in distances
    ensures Expanded(edges, distances, current, next - 1)
  {
    forall w | Edge(current, w) in edges ensures w in distances && distances[w] <= next { assert w in neighbours; }
  }

  /** In the middle of a turn: what was known stays, and what was added lies next steps from the roots. */
  ghost predicate Midway(edges: seq<Edge>, roots: seq<NodeId>, distances: map<NodeId, nat>, queue: seq<Entry>,
                         distances': map<NodeId, nat>, queue': seq<Entry>, next: nat)
  {
    && Witnessed(Members(edges), roots, distances') && Queued(distances', queue', next)
    && Grown(edges, distances, distances') && Appended(queue, queue', next)
    && (distances'.Keys == distances.Keys ==> queue' == queue)
  }

  lemma Discover(roots: seq<NodeId>, edges: seq<Edge>, current: NodeId, w: NodeId, distances: map<NodeId, nat>,
                 queue: seq<Entry>,
                 distances': map<NodeId, nat>, queue': seq<Entry>)
    requires current in distances && distances[current] < MAX_BFS_DEPTH
    requires Midway(edges, roots, distances, queue, distances', queue', distances[current] + 1)
    requires Edge(current, w) in edges && w !in distances'
    ensures Midway(edges, roots, distances, queue, distances'[w := distances[current] + 1],
                   queue' + [Entry(w, distances[current] + 1)], distances[current] + 1)
  {
    WitnessOne(edges, roots, current, w, distances');
    Enqueue(distances', queue', w, distances[current] + 1);
    AppendedOneMore(queue, queue', w, distances[current] + 1);
    GrownOne(edges, distances, distances', current, w, distances[current] + 1);
  }

  lemma WitnessOne(edges: seq<Edge>, roots: seq<NodeId>, current: NodeId, w: NodeId, distances: map<NodeId, nat>)
    requires Witnessed(Members(edges), roots, distances)
    requires current in distances && distances[current] < MAX_BFS_DEPTH && Edge(current, w) in edges && w !in distances
    ensures Witnessed(Members(edges), roots, distances[w := distances[current] + 1])
  {
    assert Away(Members(edges), roots, current, distances[current]);
    assert Edge(current, w) in Members(edges);
    assert Away(Members(edges), roots, w, distances[current] + 1);
  }

  lemma GrownOne(edges: seq<Edge>, distances: map<NodeId, nat>, distances': map<NodeId, nat>, current: NodeId,
                 w: NodeId, d: nat)
    requires Grown(edges, distances, distances') && Edge(current, w) in edges && w !in distances'
    ensures Grown(edges, distances, distances'[w := d]) && distances'[w := d].Keys != distances.Keys
  {
    assert Edge(current, w).dst == w;
    assert w in distances'[w := d].Keys && w !in distances.Keys;
  }

  lemma Enqueue(distances: map<NodeId, nat>, queue: seq<Entry>, w: NodeId, next: nat)
    requires Queued(distances, queue, next) && w !in distances
    ensures Queued(distances[w := next], queue + [Entry(w, next)], next)
  {
    var queue', distances' := queue + [Entry(w, next)], distances[w := next];
    forall v | v in distances' ensures Entry(v, distances'[v]) in queue' {
      if v == w { assert queue'[|queue|] == Entry(w, next); }
    }
  }
}

/** Two-phase cascade invalidation: mark everything downstream, then invalidate in batches
    (engine/core/cascade.py). */
module Cascade {
  import opened Graph
  import opened Options
  import opened StateMachine

  datatype Row = Row(state: NodeState, pending: bool, source: Option<NodeId>, version: nat)

  type Rows = map<NodeId, Row>

  /** Targets of the active edges that leave v, in row order. */
  function Children(edges: seq<Edge>, v: NodeId): seq<NodeId>
  {
    if edges == [] then []
    else (if edges[0].src == v then [edges[0].dst] else []) + Children(edges[1..], v)
  }

  lemma {:induction false} ChildIsEdge(edges: seq<Edge>, v: NodeId, w: NodeId)
    ensures w in Children(edges, v) <==> Edge(v, w) in edges
  {
    if edges != [] {
      ChildIsEdge(edges[1..], v, w);
      assert Edge(v, w) in edges <==> edges[0] == Edge(v, w) || Edge(v, w) in edges[1..];
    }
  }

  /** What phase 1 writes into a row it reaches: an earlier mark stays as it is. */
  function Marked(r: Row, source: NodeId): Row
  {
    if r.pending then r else r.(pending := true, source := Some(source))
  }

  /** What phase 2 leaves of a row. */
  function Applied(r: Row): Row
  {
    if !r.pending then r
    else if r.state.Skipped? || !IsValid(r.state, Invalid) then r.(pending := false)
    else r.(state := Invalid, pending := false, version := r.version + 1)
  }

  /** The listed rows whose state phase 2 really writes. */
  ghost function Invalidated(rows: Rows, ids: seq<NodeId>): set<NodeId>
  {
    set id | id in ids && id in rows && Applied(rows[id]).version != rows[id].version
  }

  lemma OneMoreInvalidated(rows: Rows, ids: seq<NodeId>, id: NodeId)
    requires id !in ids
    ensures |Invalidated(rows, ids + [id])|
         == |Invalidated(rows, ids)| + if id in rows && Applied(rows[id]).version != rows[id].version then 1 else 0
  {
    if id in rows && Applied(rows[id]).version != rows[id].version {
      assert Invalidated(rows, ids + [id]) == Invalidated(rows, ids) + {id};
    } else {
      assert Invalidated(rows, ids + [id]) == Invalidated(rows, ids);
    }
  }

  function PendingIds(rows: Rows): set<NodeId>
  {
    set id | id in rows && rows[id].pending
  }

  /** Every discovered node that is not queued has all its children discovered. */
  ghost predicate Explored(edges: seq<Edge>, start: NodeId, visited: set<NodeId>, queue: seq<NodeId>)
  {
    forall v, w :: (v in visited || v == start) && v !in queue && Edge(v, w) in edges ==> w in visited
  }

  /** A walk of at least one edge from the start ends in the explored set. */
  lemma ExploredIsReachable(edges: seq<Edge>, start: NodeId, visited: set<NodeId>, v: NodeId)
    requires Explored(edges, start, visited, []) && Reaches(Members(edges), start, v)
    ensures v in visited
  {
    var E := Members(edges);
    var n :| n >= 1 && Hops(E, start, v, n);
    var c := LastEdge(E, start, v, n);
    var S := iset x | x in visited || x == start;
    forall e | e in E && e.src in S ensures e.dst in S { assert Edge(e.src, e.dst) in edges; }
    ClosedSetTrapsWalks(E, S, start, c, n - 1);
  }

  /** What the search knows at any moment: the result lists the discovered nodes once each, all of them reachable. */
  ghost predicate Frontier(edges: seq<Edge>, start: NodeId, visited: set<NodeId>, queue: seq<NodeId>,
                           result: seq<NodeId>)
  {
    && Distinct(result) && Members(result) == visited <= Targets(edges)
    && (forall v :: v in visited ==> Reaches(Members(edges), start, v))
    && (forall v :: v in queue ==> v in visited || v == start)
  }

  lemma DiscoverChild(edges: seq<Edge>, start: NodeId, current: NodeId, child: NodeId, visited: set<NodeId>,
                      queue: seq<NodeId>, result: seq<NodeId>)
    requires Frontier(edges, start, visited, queue, result)
    requires current == start || Reaches(Members(edges), start, current)
    requires Edge(current, child) in edges && child !in visited
    ensures Frontier(edges, start, visited + {child}, queue + [child], result + [child])
  {
    ReachesThenEdge(Members(edges), start, current, child);
    assert Edge(current, child).dst == child;
    assert child !in Members(result);
    assert Members(result + [child]) == Members(result) + {child};
  }

  /** Once all children of current are discovered, current itself counts as explored. */
  lemma ChildrenExplored(edges: seq<Edge>, start: NodeId, current: NodeId, visited: set<NodeId>, queue: seq<NodeId>,
                         visited': set<NodeId>, queue': seq<NodeId>)
    requires Explored(edges, start, visited, [current] + queue)
    requires visited <= visited' && queue <= queue'
    requires forall v :: v in visited' ==> v in visited || v in queue'
    requires forall w :: w in Children(edges, current) ==> w in visited'
    ensures Explored(edges, start, visited', queue')
  {
    assert forall k :: 0 <= k < |queue| ==> queue'[k] == queue[k];
    assert forall v :: v in queue ==> v in queue';
    forall v, w | (v in visited' || v == start) && v !in queue' && Edge(v, w) in edges ensures w in visited' {
      if v == current {
        ChildIsEdge(edges, current, w);
      } else {
        assert v !in [current] + queue;
      }
    }
  }

  class CascadeInvalidator {
    const edges: seq<Edge>
    var rows: Rows

    constructor (edges: seq<Edge>, rows: Rows)
      ensures this.edges == edges && this.rows == rows
    {
      this.edges := edges;
      this.rows := rows;
    }

    /** Breadth-first search: every node reachable by a non-empty path, each once, on cyclic graphs too. */
    method GetDownstreamNodes(start: NodeId) returns (result: seq<NodeId>)
      ensures Distinct(result)
      ensures forall v :: v in result <==> Reaches(Members(edges), start, v)
    {
      var visited: set<NodeId> := {};
      var queue := [start];
      result := [];
      while queue != []
        invariant Frontier(edges, start, visited, queue, result)
        invariant Explored(edges, start, visited, queue)
        decreases Targets(edges) - visited, |queue|
      {
        var current := queue[0];
        assert queue == [current] + queue[1..];
        queue := queue[1..];
        visited, queue, result := VisitChildren(start, current, visited, queue, result);
      }
      forall v ensures v in result <==> Reaches(Members(edges), start, v) {
        if Reaches(Members(edges), start, v) { ExploredIsReachable(edges, start, visited, v); }
        assert v in result <==> v in Members(result);
      }
    }

    /** The inner loop: undiscovered children are recorded and queued. */
    method VisitChildren(ghost start: NodeId, current: NodeId, visited: set<NodeId>, queue: seq<NodeId>,
                         result: seq<NodeId>)
      returns (visited': set<NodeId>, queue': seq<NodeId>, result': seq<NodeId>)
      requires Frontier(edges, start, visited, queue, result)
      requires current == start || Reaches(Members(edges), start, current)
      requires Explored(edges, start, visited, [current] + queue)
      ensures Frontier(edges, start, visited', queue', result') && visited <= visited'
      ensures visited' == visited ==> queue' == queue
      ensures Explored(edges, start, visited', queue')
    {
      visited', queue', result' := visited, queue, result;
      var children := Children(edges, current);
      for k := 0 to |children|
        invariant Frontier(edges, start, visited', queue', result')
        invariant visited <= visited' && queue <= queue'
        invariant visited' == visited ==> queue' == queue
        invariant forall v :: v in visited' ==> v in visited || v in queue'
        invariant forall j :: 0 <= j < k ==> children[j] in visited'
      {
        var child := children[k];
        if child !in visited' {
          ChildIsEdge(edges, current, child);
          DiscoverChild(edges, start, current, child, visited', queue', result');
          visited' := visited' + {child};
          result' := result' + [child];
          queue' := queue' + [child];
        }
      }
      ChildrenExplored(edges, start, current, visited, queue, visited', queue');
    }

    /** Phase 1: flags only, and only on rows that carry none yet. */
    method Phase1MarkPending(changed: NodeId) returns (impacted: seq<NodeId>)
      modifies this`rows
      ensures Distinct(impacted) && forall v :: v in impacted <==> Reaches(Members(edges), changed, v)
      ensures rows.Keys == old(rows).Keys
      ensures forall id :: id in rows ==>
        rows[id] == if Reaches(Members(edges), changed, id) then Marked(old(rows)[id], changed) else old(rows)[id]
    {
      impacted := GetDownstreamNodes(changed);
      for k := 0 to |impacted|
        invariant rows.Keys == old(rows).Keys
        invariant forall id :: id in rows ==>
          rows[id] == if id in impacted[..k] then Marked(old(rows)[id], changed) else old(rows)[id]
      {
        var id := impacted[k];
        assert impacted[..k + 1] == impacted[..k] + [id];
        if id in rows && !rows[id].pending {
          rows := rows[id := rows[id].(pending := true, source := Some(changed))];
        }
      }
      assert impacted[..|impacted|] == impacted;
    }

    /** Phase 2 on one row; the answer tells whether the state was written. */
    method Phase2ApplyInvalid(id: NodeId) returns (applied: bool)
      modifies this`rows
      ensures rows == if id in old(rows) then old(rows)[id := Applied(old(rows)[id])] else old(rows)
      ensures applied <==> id in old(rows) && Applied(old(rows)[id]).version != old(rows)[id].version
    {
      if id !in rows {
        return false;
      }
      var node := rows[id];
      if !node.pending {
        rows := rows[id := node];
        return false;
      }
      if node.state.Skipped? {
        rows := rows[id := node.(pending := false)];
        return false;
      }
      if !IsValid(node.state, Invalid) {
        rows := rows[id := node.(pending := false)];
        return false;
      }
      rows := rows[id := node.(state := Invalid, pending := false, version := node.version + 1)];
      return true;
    }

    /** SELECT ... WHERE invalidation_pending=1 LIMIT limit, in any order. */
    method SelectPending(limit: nat) returns (ids: seq<NodeId>)
      ensures Distinct(ids) && |ids| <= limit && forall id :: id in ids ==> id in PendingIds(rows)
      ensures |ids| < limit ==> Members(ids) == PendingIds(rows)
    {
      ids := [];
      var rest := PendingIds(rows);
      while rest != {} && |ids| < limit
        invariant rest <= PendingIds(rows) && Members(ids) == PendingIds(rows) - rest
        invariant Distinct(ids) && |ids| <= limit
        decreases rest
      {
        var id :| id in rest;
        assert id !in Members(ids);
        assert Members(ids + [id]) == Members(ids) + {id};
        ids, rest := ids + [id], rest - {id};
      }
      forall id | id in ids ensures id in PendingIds(rows) { assert id in Members(ids); }
    }

    /** One batch: the selected rows go through phase 2, the others stay. */
    method ProcessPendingBatch(limit: nat) returns (count: nat, ghost ids: seq<NodeId>)
      modifies this`rows
      ensures Distinct(ids) && |ids| <= limit && (|ids| < limit ==> Members(ids) == PendingIds(old(rows)))
      ensures forall id :: id in ids ==> id in PendingIds(old(rows))
      ensures rows.Keys == old(rows).Keys
      ensures forall id :: id in rows ==> rows[id] == if id in ids then Applied(old(rows)[id]) else old(rows)[id]
      ensures count == |Invalidated(old(rows), ids)|
    {
      var selected := SelectPending(limit);
      ids := selected;
      count := 0;
      assert Invalidated(rows, []) == {};
      for k := 0 to |selected|
        invariant rows.Keys == old(rows).Keys && count == |Invalidated(old(rows), selected[..k])|
        invariant forall id :: id in rows ==>
          rows[id] == if id in selected[..k] then Applied(old(rows)[id]) else old(rows)[id]
      {
        var id := selected[k];
        assert selected[..k + 1] == selected[..k] + [id];
        DistinctSplit(selected, k);
        var applied := Phase2ApplyInvalid(id);
        OneMoreInvalidated(old(rows), selected[..k], id);
        if applied { count := count + 1; }
      }
      assert selected[..|selected|] == selected;
    }

    /** Batches of any positive size, repeated until nothing is pending: terminates, and every row has gone
        through phase 2 exactly once. */
    method Drain()
      modifies this`rows
      ensures PendingIds(rows) == {}
      ensures rows.Keys == old(rows).Keys && forall id :: id in rows ==> rows[id] == Applied(old(rows)[id])
    {
      while PendingIds(rows) != {}
        invariant rows.Keys == old(rows).Keys
        invariant forall id :: id in rows ==> rows[id] == Applied(old(rows)[id]) || rows[id] == old(rows)[id]
        decreases PendingIds(rows)
      {
        ghost var before := PendingIds(rows);
        var limit: nat :| limit >= 1;
        var count;
        ghost var ids;
        count, ids := ProcessPendingBatch(limit);
        BatchProgress(ids, before, limit);
        forall id | id in PendingIds(rows) ensures id in before && id !in ids {}
        ghost var x :| x in ids;
        assert x in before && x !in PendingIds(rows);
      }
      forall id | id in rows ensures rows[id] == Applied(old(rows)[id]) {
        assert id !in PendingIds(rows);
      }
    }

    /** Mark, then drain: exactly the rows that were already marked or are reachable from the changed node, and
        are not SKIPPED, end up INVALID; every other state stays, no flag is left, and earlier marks keep their
        source. */
    method Invalidate(changed: NodeId)
      modifies this`rows
      ensures PendingIds(rows) == {} && rows.Keys == old(rows).Keys
      ensures forall id :: id in rows ==>
        && rows[id].state == StateAfter(old(rows), edges, changed, id)
        && rows[id].version == old(rows)[id].version + (if rows[id].state != old(rows)[id].state then 1 else 0)
        && (rows[id].source ==
            if !old(rows)[id].pending && Reaches(Members(edges), changed, id) then Some(changed)
            else old(rows)[id].source)
    {
      var impacted := Phase1MarkPending(changed);
      Drain();
      forall id | id in rows ensures rows[id].state == StateAfter(old(rows), edges, changed, id) {
        OnlyInvalidCannotBeInvalidated(old(rows)[id].state);
      }
    }
  }

  ghost predicate Affected(rows: Rows, edges: seq<Edge>, changed: NodeId, id: NodeId)
    requires id in rows
  {
    rows[id].pending || Reaches(Members(edges), changed, id)
  }

  ghost function StateAfter(rows: Rows, edges: seq<Edge>, changed: NodeId, id: NodeId): NodeState
    requires id in rows
  {
    if Affected(rows, edges, changed, id) && !rows[id].state.Skipped? then Invalid else rows[id].state
  }

  lemma OnlyInvalidCannotBeInvalidated(s: NodeState)
    ensures IsValid(s, Invalid) <==> s != Invalid
  {}

  lemma BatchProgress(ids: seq<NodeId>, pending: set<NodeId>, limit: nat)
    requires pending != {} && limit >= 1 && (|ids| < limit ==> Members(ids) == pending)
    ensures exists x :: x in ids
  {
    var x :| x in pending;
    assert Members<NodeId>([]) == {};
    assert |ids| == 0 ==> ids == [];
    assert ids != [];
    assert ids[0] in ids;
  }
}

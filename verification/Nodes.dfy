/** The in-memory form of one row of the nodes table, with its predecessor list. */
module Nodes {
  import opened Graph
  import opened StateMachine

  datatype NodeSnapshot = NodeSnapshot(
    id: NodeId,
    nodeType: NodeType,
    state: NodeState,
    priority: int,
    retryCount: int,
    maxRetries: int,
    autoApprove: bool,
    version: nat,
    deps: seq<NodeId>)

  function Ids(nodes: seq<NodeSnapshot>): (ids: seq<NodeId>)
    ensures |ids| == |nodes|
  {
    seq(|nodes|, i requires 0 <= i < |nodes| => nodes[i].id)
  }

  function EdgesInto(n: NodeSnapshot): (es: seq<Edge>)
    ensures |es| == |n.deps|
  {
    seq(|n.deps|, i requires 0 <= i < |n.deps| => Edge(n.deps[i], n.id))
  }

  /** The dependency edges in the order the sort reads them, duplicates included. */
  function DepEdges(nodes: seq<NodeSnapshot>): seq<Edge>
  {
    if nodes == [] then [] else
      DepEdges(nodes[..|nodes| - 1]) + EdgesInto(nodes[|nodes| - 1])
  }

  ghost function EdgeSet(nodes: seq<NodeSnapshot>): set<Edge>
  {
    set e | e in DepEdges(nodes)
  }

  lemma {:induction false} DepEdgesMembers(nodes: seq<NodeSnapshot>, e: Edge)
    ensures e in DepEdges(nodes) <==> exists n :: n in nodes && n.id == e.dst && e.src in n.deps
  {
    if nodes != [] {
      var front, last := nodes[..|nodes| - 1], nodes[|nodes| - 1];
      DepEdgesMembers(front, e);
      assert forall n :: n in nodes <==> n in front || n == last;
      assert e in EdgesInto(last) <==> last.id == e.dst && e.src in last.deps by {
        if last.id == e.dst && e.src in last.deps {
          var i :| 0 <= i < |last.deps| && last.deps[i] == e.src;
          assert EdgesInto(last)[i] == e;
        }
      }
    }
  }
}

/** The advance engine as it updates the nodes table in place (engine/core/dag_advancer.py, class DAGAdvancer),
    for a pass that no other writer interferes with. */
module DagAdvancer {
  import opened Graph
  import opened Nodes
  import opened Options
  import opened StateMachine
  import opened AdvancePass
  import opened Outcomes
  import TopologicalSort

  datatype DagStatus = Initializing | Valid | Running | Paused | Finished | Corrupted

  datatype AdvanceResult = AdvanceResult(launched: seq<NodeId>, blocked: seq<NodeId>, gatePending: seq<NodeId>,
                                         completed: bool)

  /** What a dependency graph must be for the pass to run at all. */
  ghost predicate Schedulable(t: Table)
  {
    (forall id, d :: id in t && d in t[id].deps ==> d in t) && Acyclic(TableEdges(t))
  }

  ghost predicate Lists(t: Table, nodes: seq<NodeSnapshot>)
  {
    && (forall n :: n in nodes <==> n.id in t && t[n.id] == n)
    && Distinct(Ids(nodes))
  }

  lemma ListedIds(t: Table, nodes: seq<NodeSnapshot>)
    requires Lists(t, nodes) && forall id :: id in t ==> t[id].id == id
    ensures Members(Ids(nodes)) == t.Keys
  {
    forall x ensures x in Ids(nodes) <==> x in t {
      if x in Ids(nodes) {
        var i :| 0 <= i < |nodes| && Ids(nodes)[i] == x;
        assert nodes[i] in nodes;
      }
      if x in t {
        var i :| 0 <= i < |nodes| && nodes[i] == t[x];
        assert Ids(nodes)[i] == x;
      }
    }
  }

  lemma ListedEdges(t: Table, nodes: seq<NodeSnapshot>)
    requires Lists(t, nodes) && forall id :: id in t ==> t[id].id == id
    ensures EdgeSet(nodes) == TableEdges(t)
  {
    forall e ensures e in EdgeSet(nodes) <==> e in TableEdges(t) {
      DepEdgesMembers(nodes, e);
      if e in EdgeSet(nodes) {
        var n :| n in nodes && n.id == e.dst && e.src in n.deps;
        var i :| 0 <= i < |n.deps| && n.deps[i] == e.src;
        assert Edge(t[n.id].deps[i], n.id) in TableEdges(t);
      }
      if e in TableEdges(t) {
        assert t[e.dst] in nodes && t[e.dst].id == e.dst;
      }
    }
  }

  lemma SortableIsSchedulable(t: Table, nodes: seq<NodeSnapshot>)
    requires Lists(t, nodes) && forall id :: id in t ==> t[id].id == id
    ensures TopologicalSort.Sortable(nodes) <==> Schedulable(t)
  {
    ListedIds(t, nodes);
    ListedEdges(t, nodes);
    if Schedulable(t) {
      forall e | e in EdgeSet(nodes) ensures e.src in Ids(nodes) {
        assert e.src in Members(Ids(nodes));
      }
    }
    if TopologicalSort.Sortable(nodes) {
      forall id, d | id in t && d in t[id].deps ensures d in t {
        var i :| 0 <= i < |t[id].deps| && t[id].deps[i] == d;
        assert Edge(t[id].deps[i], id) in EdgeSet(nodes);
        assert d in Members(Ids(nodes));
      }
    }
  }

  lemma SortedIsSchedule(t: Table, nodes: seq<NodeSnapshot>, order: seq<NodeId>)
    requires Lists(t, nodes) && forall id :: id in t ==> t[id].id == id
    requires multiset(order) == multiset(Ids(nodes))
    requires TopologicalOrder(EdgeSet(nodes), order)
    ensures Schedule(t, order)
  {
    DistinctPermutation(Ids(nodes), order);
    ListedIds(t, nodes);
    ListedEdges(t, nodes);
  }

  class DagAdvancer {
    /** The rows of one DAG, by id. */
    var table: Table
    var status: Option<DagStatus>
    var result: AdvanceResult

    ghost predicate Valid()
      reads this
    {
      forall id :: id in table ==> table[id].id == id
    }

    ghost function View(running: nat): Pass
      reads this
    {
      Pass(table, running, result.launched, result.blocked, result.gatePending)
    }

    constructor (table: Table, status: Option<DagStatus>)
      ensures this.table == table && this.status == status
    {
      this.table := table;
      this.status := status;
      this.result := AdvanceResult([], [], [], false);
    }

    /** Validates the transition and writes it; false stands for the raised InvalidTransitionError. */
    method TransitionNode(id: NodeId, to: NodeState) returns (ok: bool)
      requires id in table
      modifies this`table
      ensures ok <==> IsValid(old(table)[id].state, to)
      ensures table == if ok then old(table)[id := Moved(old(table)[id], [to])] else old(table)
      ensures ok ==> table[id] == old(table)[id].(state := to, version := old(table)[id].version + 1)
    {
      var node := table[id];
      if !IsValid(node.state, to) {
        return false;
      }
      table := table[id := node.(state := to, version := node.version + 1)];
      return true;
    }

    method LaunchNode(id: NodeId) returns (ok: bool)
      requires id in table
      modifies this`table, this`result
      ensures ok <==> IsValid(old(table)[id].state, InProgress)
      ensures ok ==> table == old(table)[id := Moved(old(table)[id], [InProgress])]
      ensures ok ==> result == old(result).(launched := old(result).launched + [id])
    {
      ok := TransitionNode(id, InProgress);
      if ok {
        result := result.(launched := result.launched + [id]);
      }
    }

    /** Runs a gate whose dependencies are done up to COMPLETED or AWAITING_APPROVAL. */
    method HandleGate(id: NodeId) returns (ok: bool)
      requires id in table && table[id].nodeType.Gate?
      requires table[id].state in {NotStarted, Ready, Blocked, Invalid}
      modifies this`table, this`result
      ensures ok
      ensures table == old(table)[id := Moved(old(table)[id], DecideReady(old(table)[id], 0).path)]
      ensures table[id].state == if old(table)[id].autoApprove then Completed else AwaitingApproval
      ensures result == if old(table)[id].autoApprove then old(result)
                        else old(result).(gatePending := old(result).gatePending + [id])
    {
      ok := true;
      if table[id].state in {NotStarted, Blocked, Invalid} {
        ok := TransitionNode(id, Ready);
      }
      if ok && table[id].state == Ready {
        ok := TransitionNode(id, InProgress);
      }
      if !ok || table[id].state != InProgress {
        return;
      }
      if table[id].autoApprove {
        ok := TransitionNode(id, Completed);
      } else {
        ok := TransitionNode(id, AwaitingApproval);
        if ok { result := result.(gatePending := result.gatePending + [id]); }
      }
    }

    /** One turn of the loop: no transition is ever refused, and the effect is the decision of AdvancePass. */
    method VisitNode(id: NodeId, inProgressCount: nat) returns (ok: bool, inProgressCount': nat)
      requires id in table
      modifies this`table, this`result
      ensures ok
      ensures View(inProgressCount') == Visit(old(View(inProgressCount)), id)
      ensures result.completed == old(result.completed)
    {
      ok, inProgressCount' := true, inProgressCount;
      var node := table[id];
      if PassedOver(node.state) {
        return;
      }
      var allCompleted := DepsDone(table, node);
      var anyFailed := SomeDepFailed(table, node);
      if node.state == Failed {
        if node.retryCount < node.maxRetries && allCompleted {
          ok := TransitionNode(id, Ready);
          if ok { ok := LaunchNode(id); }
        }
        return;
      }
      if anyFailed {
        if node.state != Blocked { ok := TransitionNode(id, Blocked); }
        result := result.(blocked := result.blocked + [id]);
      } else if allCompleted {
        if node.nodeType.Gate? {
          ok := HandleGate(id);
        } else {
          if node.state != Ready { ok := TransitionNode(id, Ready); }
          if ok && inProgressCount < MAX_CONCURRENT_NODES {
            ok := LaunchNode(id);
            inProgressCount' := inProgressCount + 1;
          }
        }
      } else if node.state != Blocked {
        ok := TransitionNode(id, Blocked);
        result := result.(blocked := result.blocked + [id]);
      }
    }

    /** All rows of the DAG, each once. */
    method LoadNodes() returns (nodes: seq<NodeSnapshot>)
      requires Valid()
      ensures Lists(table, nodes)
    {
      nodes := [];
      var rest := table.Keys;
      while rest != {}
        invariant rest <= table.Keys
        invariant forall n :: n in nodes <==> n.id in table && n.id !in rest && table[n.id] == n
        invariant Distinct(Ids(nodes)) && forall x :: x in Ids(nodes) ==> x !in rest
        decreases rest
      {
        var id :| id in rest;
        assert Ids(nodes + [table[id]]) == Ids(nodes) + [id];
        nodes, rest := nodes + [table[id]], rest - {id};
      }
    }

    /** One advance request. A missing or paused DAG and an empty one are left alone; a dependency on an
        unknown node or a cycle only marks the DAG corrupted; every other DAG gets one full pass. */
    method AdvanceDag() returns (ghost order: seq<NodeId>)
      requires Valid()
      modifies this
      ensures Valid()
      ensures old(status) == None || old(status) == Some(Paused) || old(table) == map[] ==>
        table == old(table) && status == old(status) && result == AdvanceResult([], [], [], false)
      ensures old(status).Some? && old(status) != Some(Paused) && old(table) != map[] ==>
        if !Schedulable(old(table)) then
          table == old(table) && status == Some(Corrupted) && result == AdvanceResult([], [], [], false)
        else
          Passed(old(table), old(status), order)
    {
      order := [];
      result := AdvanceResult([], [], [], false);
      if status == None || status == Some(Paused) {
        return;
      }
      var nodes := LoadNodes();
      assert forall id :: id in table ==> table[id] in nodes;
      if nodes == [] {
        return;
      }
      assert nodes[0] in nodes && nodes[0].id in table;
      var sorted := TopologicalSort.Sort(nodes);
      SortableIsSchedulable(table, nodes);
      if sorted == None {
        status := Some(Corrupted);
        return;
      }
      order := sorted.value;
      SortedIsSchedule(table, nodes, order);
      RunPass(sorted.value);
    }

    /** What one full pass along a schedule leaves: the table, the lists and the answer of the sweep; the DAG is
        completed exactly when every node but the gates is done. */
    ghost predicate Passed(before: Table, oldStatus: Option<DagStatus>, order: seq<NodeId>)
      reads this
    {
      && Schedule(before, order) && (forall id :: id in order ==> id in before)
      && var q := Sweep(Start(before), order);
         && table == q.table
         && result.launched == q.launched && result.blocked == q.blocked && result.gatePending == q.gatePending
         && (result.completed <==> forall id :: id in table && !table[id].nodeType.Gate? ==> IsDone(table[id].state))
         && status == if result.completed then Some(Finished) else oldStatus
    }

    /** The end of one execution: retry while retries are left, otherwise FAILED; an API limit suspends the node
        and counts no attempt. The executor itself writes COMPLETED when it succeeds. */
    method RunNodeSafeInner(id: NodeId, outcome: Outcome)
      requires id in table
      modifies this`table
      ensures table == old(table)[id := AfterOutcome(old(table)[id], outcome)]
      ensures old(table)[id].state.InProgress? ==>
        table[id].state == match outcome
          case Succeeded => Completed
          case ApiLimited => Suspended
          case Raised => if old(table)[id].retryCount + 1 < old(table)[id].maxRetries then Ready else Failed
    {
      var ok;
      match outcome {
        case Succeeded =>
          table := table[id := table[id].(state := Completed)];
        case ApiLimited =>
          table := table[id := table[id].(state := Suspended)];
        case Raised =>
          var newRetry := table[id].retryCount + 1;
          table := table[id := table[id].(retryCount := newRetry)];
          if newRetry < table[id].maxRetries {
            ok := TransitionNode(id, Ready);
            if !ok { ok := TransitionNode(id, Failed); }
          } else {
            ok := TransitionNode(id, Failed);
          }
      }
    }

    /** The loop over the schedule, and the question whether everything is done. */
    method RunPass(order: seq<NodeId>)
      requires Valid() && Schedule(table, order) && result == AdvanceResult([], [], [], false)
      modifies this
      ensures Valid() && Passed(old(table), old(status), order)
    {
      var inProgressCount: nat := |InProgressNodes(table)|;
      ghost var start := Start(table);
      forall id | id in order ensures id in table { assert id in Members(order); }
      assert order[0..] == order;
      for i := 0 to |order|
        invariant forall id :: id in order[i..] ==> id in table
        invariant Sweep(View(inProgressCount), order[i..]) == Sweep(start, order)
        invariant Valid() && !result.completed && status == old(status)
      {
        assert order[i] == order[i..][0] && order[i..][1..] == order[i + 1..];
        var ok;
        ok, inProgressCount := VisitNode(order[i], inProgressCount);
      }
      if forall id :: id in table && !table[id].nodeType.Gate? ==> IsDone(table[id].state) {
        result := result.(completed := true);
        status := Some(Finished);
      }
    }
  }
}

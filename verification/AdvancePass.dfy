/** One scheduling pass over a DAG, as a function on the table of node rows, and what it guarantees
    (engine/core/dag_advancer.py, the loop of _advance_dag). */
module AdvancePass {
  import opened Graph
  import opened Nodes
  import opened StateMachine

  const MAX_CONCURRENT_NODES: nat := 5

  type Table = map<NodeId, NodeSnapshot>

  // ---- What a node reads of its dependencies ----

  predicate DepsDone(t: Table, n: NodeSnapshot)
  {
    forall d :: d in n.deps && d in t ==> IsDone(t[d].state)
  }

  predicate HasFailed(s: NodeState)
  {
    s.Failed? || s.NeedsHuman? || s.Invalid?
  }

  predicate SomeDepFailed(t: Table, n: NodeSnapshot)
  {
    exists d :: d in n.deps && d in t && HasFailed(t[d].state)
  }

  lemma FailedDepIsNotDone(t: Table, n: NodeSnapshot)
    requires SomeDepFailed(t, n)
    ensures !DepsDone(t, n)
  {
    var d :| d in n.deps && d in t && HasFailed(t[d].state);
    assert !IsDone(t[d].state);
  }

  // ---- The decision for one node ----

  /** The states a visited node runs through, and what the pass reports about it. */
  datatype Decision = Decision(path: seq<NodeState>, launch: bool, counted: bool, blocked: bool, gatePending: bool)

  const LeaveAlone := Decision([], false, false, false, false)

  function Lead(n: NodeSnapshot): seq<NodeState>
  {
    if n.state.Ready? then [] else [Ready]
  }

  function DecideBlocked(n: NodeSnapshot, report: bool): Decision
  {
    Decision(if n.state.Blocked? then [] else [Blocked], false, false, report, false)
  }

  function DecideReady(n: NodeSnapshot, running: nat): Decision
  {
    if n.nodeType.Gate? then
      if n.autoApprove then Decision(Lead(n) + [InProgress, Completed], false, false, false, false)
      else Decision(Lead(n) + [InProgress, AwaitingApproval], false, false, false, true)
    else if running < MAX_CONCURRENT_NODES then Decision(Lead(n) + [InProgress], true, true, false, false)
    else Decision(Lead(n), false, false, false, false)
  }

  predicate PassedOver(s: NodeState)
  {
    s.InProgress? || s.Completed? || s.Skipped? || s.AwaitingApproval? || s.NeedsHuman? || s.Suspended?
  }

  function Decide(n: NodeSnapshot, depsDone: bool, depFailed: bool, running: nat): Decision
  {
    if PassedOver(n.state) then LeaveAlone
    else if n.state.Failed? then
      if n.retryCount < n.maxRetries && depsDone then Decision([Ready, InProgress], true, false, false, false)
      else LeaveAlone
    else if depFailed then DecideBlocked(n, true)
    else if depsDone then DecideReady(n, running)
    else DecideBlocked(n, !n.state.Blocked?)
  }

  // ---- The pass ----

  /** The pass in flight: rows, the concurrency counter, and what it reports. */
  datatype Pass = Pass(table: Table, running: nat, launched: seq<NodeId>, blocked: seq<NodeId>,
                       gatePending: seq<NodeId>)

  function InProgressNodes(t: Table): set<NodeId>
  {
    set id | id in t && t[id].state.InProgress?
  }

  function Start(t: Table): Pass
  {
    Pass(t, |InProgressNodes(t)|, [], [], [])
  }

  /** The row after it ran through a path of states, one version per state. */
  function Moved(n: NodeSnapshot, path: seq<NodeState>): NodeSnapshot
  {
    if path == [] then n else n.(state := path[|path| - 1], version := n.version + |path|)
  }

  function DecisionAt(p: Pass, id: NodeId): Decision
    requires id in p.table
  {
    var n := p.table[id];
    Decide(n, DepsDone(p.table, n), SomeDepFailed(p.table, n), p.running)
  }

  function Visit(p: Pass, id: NodeId): Pass
    requires id in p.table
  {
    var d := DecisionAt(p, id);
    Pass(if d.path == [] then p.table else p.table[id := Moved(p.table[id], d.path)],
         if d.counted then p.running + 1 else p.running,
         if d.launch then p.launched + [id] else p.launched,
         if d.blocked then p.blocked + [id] else p.blocked,
         if d.gatePending then p.gatePending + [id] else p.gatePending)
  }

  function Sweep(p: Pass, order: seq<NodeId>): Pass
    requires forall id :: id in order ==> id in p.table
    decreases |order|
  {
    if order == [] then p else Sweep(Visit(p, order[0]), order[1..])
  }

  // ---- One visit ----

  /** How a node may be left behind. */
  predicate SettledState(n: NodeSnapshot, depsDone: bool, running: nat)
  {
    match n.state
    case NotStarted => false
    case Invalid => false
    case Ready => !n.nodeType.Gate? && depsDone && running >= MAX_CONCURRENT_NODES
    case Blocked => !depsDone
    case Failed => n.retryCount >= n.maxRetries || !depsDone
    case _ => true
  }

  lemma DecisionSettles(n: NodeSnapshot, depsDone: bool, depFailed: bool, running: nat)
    requires depFailed ==> !depsDone
    ensures var d := Decide(n, depsDone, depFailed, running);
      && SettledState(Moved(n, d.path), depsDone, if d.counted then running + 1 else running)
      && (PassedOver(n.state) ==> d.path == [])
  {}

  lemma DecisionIsLegal(n: NodeSnapshot, depsDone: bool, depFailed: bool, running: nat)
    ensures LegalPath(n.state, Decide(n, depsDone, depFailed, running).path)
  {
    var path := Decide(n, depsDone, depFailed, running).path;
    if |path| == 3 {
      assert path == [Ready, InProgress, path[2]] && IsValid(InProgress, path[2]);
      assert LegalPath(Ready, [InProgress, path[2]]) by { assert [InProgress, path[2]][1..] == [path[2]]; }
      assert path[1..] == [InProgress, path[2]];
    }
  }

  /** Launching is the only way into IN_PROGRESS; it needs every dependency done, and it is counted
      against the cap unless it is the automatic retry of a FAILED node. */
  lemma DecisionLaunches(n: NodeSnapshot, depsDone: bool, depFailed: bool, running: nat)
    ensures var d := Decide(n, depsDone, depFailed, running);
      && (d.launch <==> Moved(n, d.path).state.InProgress? && !n.state.InProgress?)
      && (d.launch ==> depsDone && !IsDone(n.state) && (n.state.Failed? ==> n.retryCount < n.maxRetries))
      && (d.counted <==> d.launch && !n.state.Failed?)
      && (d.counted ==> running < MAX_CONCURRENT_NODES)
      && (!d.launch && n.state.InProgress? ==> d.path == [])
  {}

  /** A node that is already settled is left alone and nothing is launched for it. */
  lemma SettledIsIdle(n: NodeSnapshot, depsDone: bool, depFailed: bool, running: nat)
    requires depFailed ==> !depsDone
    requires SettledState(n, depsDone, running)
    ensures var d := Decide(n, depsDone, depFailed, running);
      d.path == [] && !d.launch && !d.counted && !d.gatePending
  {}

  // ---- The whole pass ----

  /** The row changed by a legal run of state writes and nothing else, one version per write. */
  ghost predicate RowEvolves(n: NodeSnapshot, n': NodeSnapshot)
  {
    exists path :: LegalPath(n.state, path) && n' == Moved(n, path)
  }

  /** The row is what the pass decided, reading the dependencies as they stand in t. */
  ghost predicate DecidedIn(t: Table, n: NodeSnapshot, n': NodeSnapshot)
  {
    exists depFailed: bool, running: nat ::
      (depFailed ==> !DepsDone(t, n')) && n' == Moved(n, Decide(n, DepsDone(t, n'), depFailed, running).path)
  }

  lemma DecidedEvolves(t: Table, n: NodeSnapshot, n': NodeSnapshot)
    requires DecidedIn(t, n, n')
    ensures RowEvolves(n, n') && n'.deps == n.deps
  {
    var depFailed: bool, running: nat :|
      (depFailed ==> !DepsDone(t, n')) && n' == Moved(n, Decide(n, DepsDone(t, n'), depFailed, running).path);
    DecisionIsLegal(n, DepsDone(t, n'), depFailed, running);
  }

  lemma DecidedSurvives(t: Table, u: Table, n: NodeSnapshot, n': NodeSnapshot)
    requires DecidedIn(t, n, n') && t.Keys == u.Keys
    requires forall d :: d in n.deps && d in t ==> u[d] == t[d]
    ensures DecidedIn(u, n, n')
  {
    DecidedEvolves(t, n, n');
    DepsDoneDependsOnDeps(t, u, n', n');
  }

  ghost function TableEdges(t: Table): set<Edge>
  {
    set id, i | id in t && 0 <= i < |t[id].deps| :: Edge(t[id].deps[i], id)
  }

  /** A schedule: every row once, dependencies first. */
  ghost predicate Schedule(t: Table, order: seq<NodeId>)
  {
    Distinct(order) && Members(order) == t.Keys && TopologicalOrder(TableEdges(t), order)
  }

  lemma DepsComeEarlier(t: Table, order: seq<NodeId>, k: nat)
    requires Schedule(t, order) && k < |order|
    ensures order[k] in t && forall d :: d in t[order[k]].deps ==> d in order[..k]
  {
    assert order[k] in Members(order);
    forall d | d in t[order[k]].deps ensures d in order[..k] {
      var i :| 0 <= i < |t[order[k]].deps| && t[order[k]].deps[i] == d;
      assert Edge(d, order[k]) in TableEdges(t);
    }
  }

  ghost predicate SettledIn(t: Table, id: NodeId, running: nat)
  {
    id in t && SettledState(t[id], DepsDone(t, t[id]), running)
  }

  /** After the first k nodes of the schedule: those rows are decided and settled, the rest is untouched. */
  ghost predicate Swept(t0: Table, order: seq<NodeId>, k: nat, p: Pass)
    requires k <= |order|
  {
    && p.table.Keys == t0.Keys
    && (forall i :: 0 <= i < k && order[i] in t0 && order[i] in p.table ==>
      DecidedIn(p.table, t0[order[i]], p.table[order[i]]))
    && (forall i :: k <= i < |order| && order[i] in t0 && order[i] in p.table ==> p.table[order[i]] == t0[order[i]])
    && (forall i :: 0 <= i < k ==> SettledIn(p.table, order[i], p.running))
  }

  lemma DepsDoneDependsOnDeps(t: Table, u: Table, n: NodeSnapshot, n': NodeSnapshot)
    requires n.deps == n'.deps && t.Keys == u.Keys
    requires forall d :: d in n.deps && d in t ==> u[d] == t[d]
    ensures DepsDone(t, n) == DepsDone(u, n')
  {}

  lemma SettledSurvives(t0: Table, order: seq<NodeId>, j: nat, k: nat, p: Pass, q: Pass)
    requires Schedule(t0, order) && j < k < |order| && Swept(t0, order, k, p) && q == Visit(p, order[k])
    ensures SettledIn(q.table, order[j], q.running)
    ensures order[j] in t0 && DecidedIn(q.table, t0[order[j]], q.table[order[j]])
  {
    assert SettledIn(p.table, order[j], p.running);
    DepsComeEarlier(t0, order, j);
    DistinctSplit(order, k);
    assert order[j] in order[..k];
    var n := p.table[order[j]];
    DecidedEvolves(p.table, t0[order[j]], n);
    forall d | d in n.deps && d in p.table ensures q.table[d] == p.table[d] {
      assert d in order[..j];
      assert order[..j] <= order[..k];
    }
    DepsDoneDependsOnDeps(p.table, q.table, n, q.table[order[j]]);
    DecidedSurvives(p.table, q.table, t0[order[j]], n);
  }

  lemma DecidedNow(p: Pass, id: NodeId)
    requires id in p.table && id !in p.table[id].deps
    ensures SettledIn(Visit(p, id).table, id, Visit(p, id).running)
    ensures DecidedIn(Visit(p, id).table, p.table[id], Visit(p, id).table[id])
  {
    var q, n, d := Visit(p, id), p.table[id], DecisionAt(p, id);
    if SomeDepFailed(p.table, n) { FailedDepIsNotDone(p.table, n); }
    DecisionSettles(n, DepsDone(p.table, n), SomeDepFailed(p.table, n), p.running);
    assert q.table[id] == Moved(n, d.path);
    DepsDoneDependsOnDeps(p.table, q.table, n, q.table[id]);
    assert q.table[id] == Moved(n, Decide(n, DepsDone(q.table, q.table[id]), SomeDepFailed(p.table, n),
                                          p.running).path);
  }

  lemma SweptStep(t0: Table, order: seq<NodeId>, k: nat, p: Pass)
    requires Schedule(t0, order) && k < |order| && Swept(t0, order, k, p)
    ensures order[k] in p.table && Swept(t0, order, k + 1, Visit(p, order[k]))
  {
    var id := order[k];
    DepsComeEarlier(t0, order, k);
    DistinctSplit(order, k);
    var q := Visit(p, id);
    DecidedNow(p, id);
    forall i | 0 <= i < k + 1
      ensures SettledIn(q.table, order[i], q.running)
      ensures order[i] in t0 && order[i] in q.table ==> DecidedIn(q.table, t0[order[i]], q.table[order[i]])
    {
      if i < k {
        SettledSurvives(t0, order, i, k, p, q);
        assert order[i] in order[..k];
      }
    }
    forall i | k + 1 <= i < |order| && order[i] in t0 ensures q.table[order[i]] == t0[order[i]] {
      assert order[i] == order[k + 1..][i - k - 1] && order[i] in order[k + 1..];
    }
  }

  // ---- Concurrency accounting ----

  function FreshLaunches(t0: Table, launched: seq<NodeId>): nat
  {
    if launched == [] then 0 else
      var id := launched[|launched| - 1];
      FreshLaunches(t0, launched[..|launched| - 1]) + if id in t0 && t0[id].state.Failed? then 0 else 1
  }

  function Max(a: nat, b: nat): nat { if a > b then a else b }

  /** The counter is the initially running nodes plus the launches that are not retries of FAILED nodes;
      the nodes in progress are exactly the initially running ones and the launched ones. */
  ghost predicate Accounted(t0: Table, p: Pass)
  {
    && Distinct(p.launched)
    && InProgressNodes(p.table) == InProgressNodes(t0) + Members(p.launched)
    && InProgressNodes(t0) !! Members(p.launched)
    && p.running == |InProgressNodes(t0)| + FreshLaunches(t0, p.launched)
    && p.running <= Max(MAX_CONCURRENT_NODES, |InProgressNodes(t0)|)
  }

  /** What may be launched: nothing finished, only with every dependency done, and FAILED only with retries left. */
  ghost predicate LaunchedSafely(t0: Table, p: Pass)
  {
    forall id :: id in p.launched ==>
      && id in t0 && id in p.table
      && DepsDone(p.table, p.table[id]) && !IsDone(t0[id].state)
      && (t0[id].state.Failed? ==> t0[id].retryCount < t0[id].maxRetries)
  }

  lemma AppendLaunch(t0: Table, launched: seq<NodeId>, id: NodeId)
    requires Distinct(launched) && id !in launched && id in t0
    ensures Distinct(launched + [id]) && Members(launched + [id]) == Members(launched) + {id}
    ensures FreshLaunches(t0, launched + [id]) == FreshLaunches(t0, launched) + if t0[id].state.Failed? then 0 else 1
  {
    assert (launched + [id])[..|launched|] == launched;
  }

  lemma InProgressAfterUpdate(t: Table, id: NodeId, n: NodeSnapshot)
    requires id in t
    ensures InProgressNodes(t[id := n]) ==
            if n.state.InProgress? then InProgressNodes(t) + {id} else InProgressNodes(t) - {id}
  {}

  lemma AccountedLaunch(t0: Table, p: Pass, id: NodeId, n': NodeSnapshot, counted: bool)
    requires Accounted(t0, p) && id in p.table && id in t0 && p.table[id] == t0[id]
    requires !t0[id].state.InProgress? && n'.state.InProgress?
    requires counted <==> !t0[id].state.Failed?
    requires counted ==> p.running < MAX_CONCURRENT_NODES
    ensures Accounted(t0, p.(table := p.table[id := n'], launched := p.launched + [id],
                             running := if counted then p.running + 1 else p.running))
  {
    InProgressAfterUpdate(p.table, id, n');
    assert id !in InProgressNodes(p.table);
    OneMoreRunning(InProgressNodes(t0), Members(p.launched), id);
    assert id !in p.launched by { assert id !in Members(p.launched); }
    AppendLaunch(t0, p.launched, id);
  }

  lemma OneMoreRunning(before: set<NodeId>, launched: set<NodeId>, id: NodeId)
    requires before !! launched && id !in before + launched
    ensures before + launched + {id} == before + (launched + {id}) && before !! launched + {id}
    ensures id !in launched
  {}

  lemma AccountedStep(t0: Table, p: Pass, id: NodeId)
    requires Accounted(t0, p) && id in p.table && id in t0 && p.table[id] == t0[id]
    ensures Accounted(t0, Visit(p, id))
  {
    var n, d := p.table[id], DecisionAt(p, id);
    DecisionLaunches(n, DepsDone(p.table, n), SomeDepFailed(p.table, n), p.running);
    if d.launch {
      AccountedLaunch(t0, p, id, Moved(n, d.path), d.counted);
    } else if d.path != [] {
      InProgressAfterUpdate(p.table, id, Moved(n, d.path));
      assert !Moved(n, d.path).state.InProgress? && !n.state.InProgress?;
    }
  }

  /** What an earlier visit launched keeps its dependencies done through the next visit. */
  lemma LaunchedEarlier(t0: Table, order: seq<NodeId>, k: nat, p: Pass, j: nat)
    requires Schedule(t0, order) && j < k < |order| && Swept(t0, order, k, p)
    requires LaunchedSafely(t0, p) && order[j] in p.launched
    ensures order[k] in p.table && order[j] in t0
    ensures var q := Visit(p, order[k]); order[j] in q.table && DepsDone(q.table, q.table[order[j]])
  {
    var x := order[j];
    DepsComeEarlier(t0, order, k);
    DepsComeEarlier(t0, order, j);
    DistinctSplit(order, k);
    DecidedEvolves(p.table, t0[x], p.table[x]);
    assert order[..j] <= order[..k];
    var q := Visit(p, order[k]);
    DepsDoneDependsOnDeps(p.table, q.table, p.table[x], q.table[x]);
  }

  /** What the visit itself launches is the visited node, with its dependencies done. */
  lemma LaunchedNow(t0: Table, order: seq<NodeId>, k: nat, p: Pass, x: NodeId)
    requires Schedule(t0, order) && k < |order| && Swept(t0, order, k, p)
    requires order[k] in p.table && x in Visit(p, order[k]).launched && x !in p.launched
    ensures x == order[k] && x in t0
    ensures var q := Visit(p, x); x in q.table && DepsDone(q.table, q.table[x]) && !IsDone(t0[x].state)
    ensures t0[x].state.Failed? ==> t0[x].retryCount < t0[x].maxRetries
  {
    var q, n := Visit(p, order[k]), p.table[order[k]];
    DepsComeEarlier(t0, order, k);
    DistinctSplit(order, k);
    DecisionLaunches(n, DepsDone(p.table, n), SomeDepFailed(p.table, n), p.running);
    DepsDoneDependsOnDeps(p.table, q.table, n, q.table[order[k]]);
  }

  lemma LaunchedSafelyStep(t0: Table, order: seq<NodeId>, k: nat, p: Pass)
    requires Schedule(t0, order) && k < |order| && Swept(t0, order, k, p)
    requires LaunchedSafely(t0, p) && forall id :: id in p.launched ==> id in order[..k]
    ensures order[k] in p.table && LaunchedSafely(t0, Visit(p, order[k]))
    ensures forall id :: id in Visit(p, order[k]).launched ==> id in order[..k + 1]
  {
    DepsComeEarlier(t0, order, k);
    var q := Visit(p, order[k]);
    forall x | x in q.launched
      ensures x in t0 && x in q.table && DepsDone(q.table, q.table[x]) && !IsDone(t0[x].state)
      ensures t0[x].state.Failed? ==> t0[x].retryCount < t0[x].maxRetries
      ensures x in order[..k + 1]
    {
      if x in p.launched {
        var j :| 0 <= j < k && order[j] == x;
        LaunchedEarlier(t0, order, k, p, j);
        assert order[..k + 1][j] == x;
      } else {
        LaunchedNow(t0, order, k, p, x);
        assert order[..k + 1][k] == x;
      }
    }
  }

  lemma {:induction false} SweepFrom(t0: Table, order: seq<NodeId>, k: nat, p: Pass)
    requires Schedule(t0, order) && k <= |order| && Swept(t0, order, k, p)
    requires Accounted(t0, p) && LaunchedSafely(t0, p) && forall id :: id in p.launched ==> id in order[..k]
    ensures forall id :: id in order[k..] ==> id in p.table
    ensures var q := Sweep(p, order[k..]);
      Swept(t0, order, |order|, q) && Accounted(t0, q) && LaunchedSafely(t0, q)
    decreases |order| - k
  {
    forall id | id in order[k..] ensures id in p.table {
      assert id in Members(order);
    }
    if k < |order| {
      SweptStep(t0, order, k, p);
      AccountedStep(t0, p, order[k]);
      LaunchedSafelyStep(t0, order, k, p);
      SweepFrom(t0, order, k + 1, Visit(p, order[k]));
      assert order[k..][1..] == order[k + 1..];
    }
  }

  // ---- Main results ----

  /** The table a finished pass leaves: every row settled under the number of nodes really in progress. */
  ghost predicate AllSettled(t: Table)
  {
    forall id :: id in t ==> SettledIn(t, id, |InProgressNodes(t)|)
  }

  lemma {:induction false} FreshLaunchesBound(t0: Table, launched: seq<NodeId>)
    ensures FreshLaunches(t0, launched) <= |launched|
  {
    if launched != [] { FreshLaunchesBound(t0, launched[..|launched| - 1]); }
  }

  /** One pass over any DAG from any states: it settles every row, changes rows only along the transition
      table, launches only nodes whose dependencies are done, and keeps the cap of 5 for everything but
      automatic retries. */
  lemma PassGuarantees(t: Table, order: seq<NodeId>)
    requires Schedule(t, order)
    ensures forall id :: id in order ==> id in Start(t).table
    ensures var q := Sweep(Start(t), order);
      && q.table.Keys == t.Keys
      && AllSettled(q.table)
      && (forall id :: id in t ==> DecidedIn(q.table, t[id], q.table[id]) && RowEvolves(t[id], q.table[id]))
      && LaunchedSafely(t, q)
      && InProgressNodes(q.table) == InProgressNodes(t) + Members(q.launched)
      && InProgressNodes(t) !! Members(q.launched) && Distinct(q.launched)
      && |InProgressNodes(t)| + FreshLaunches(t, q.launched) <= Max(MAX_CONCURRENT_NODES, |InProgressNodes(t)|)
  {
    assert Members<NodeId>([]) == {};
    SweepFrom(t, order, 0, Start(t));
    assert order[0..] == order;
    var q := Sweep(Start(t), order);
    FreshLaunchesBound(t, q.launched);
    SizeOfMembers(q.launched);
    assert |InProgressNodes(q.table)| >= q.running;
    forall id | id in t
      ensures DecidedIn(q.table, t[id], q.table[id]) && RowEvolves(t[id], q.table[id])
      ensures SettledIn(q.table, id, |InProgressNodes(q.table)|)
    {
      assert id in Members(order);
      var i :| 0 <= i < |order| && order[i] == id;
      assert SettledIn(q.table, order[i], q.running);
      DecidedEvolves(q.table, t[id], q.table[id]);
    }
  }

  lemma {:induction false} SettledSweepIsIdle(p: Pass, order: seq<NodeId>)
    requires forall id :: id in order ==> SettledIn(p.table, id, p.running)
    ensures forall id :: id in order ==> id in p.table
    ensures var q := Sweep(p, order);
      q.table == p.table && q.launched == p.launched && q.gatePending == p.gatePending && q.running == p.running
    decreases |order|
  {
    if order != [] {
      assert order[0] in order;
      var n := p.table[order[0]];
      if SomeDepFailed(p.table, n) { FailedDepIsNotDone(p.table, n); }
      SettledIsIdle(n, DepsDone(p.table, n), SomeDepFailed(p.table, n), p.running);
      SettledSweepIsIdle(Visit(p, order[0]), order[1..]);
    }
  }

  /** A second pass with nothing in between changes no row, not even a version, and launches nothing,
      whatever schedule it happens to use. */
  lemma PassIsAFixpoint(t: Table, order: seq<NodeId>, order': seq<NodeId>)
    requires Schedule(t, order)
    requires Members(order') <= t.Keys
    ensures forall id :: id in order ==> id in t
    ensures var u := Sweep(Start(t), order).table;
      && (forall id :: id in order' ==> id in u)
      && Sweep(Start(u), order').table == u
      && Sweep(Start(u), order').launched == []
      && Sweep(Start(u), order').gatePending == []
  {
    PassGuarantees(t, order);
    var u := Sweep(Start(t), order).table;
    forall id | id in order' ensures SettledIn(u, id, |InProgressNodes(u)|) {
      assert id in Members(order');
    }
    SettledSweepIsIdle(Start(u), order');
  }

  /** The states that explain why a settled DAG is not finished. */
  predicate WaitsForSomething(n: NodeSnapshot)
  {
    n.state.InProgress? || n.state.AwaitingApproval? || n.state.NeedsHuman? || n.state.Suspended? ||
    (n.state.Failed? && n.retryCount >= n.maxRetries)
  }

  lemma SettledAndUnblockedIsDone(n: NodeSnapshot)
    requires SettledState(n, true, 0) && !WaitsForSomething(n)
    ensures IsDone(n.state)
  {}

  /** The first k nodes of the order are done. */
  ghost predicate DoneUpTo(t: Table, order: seq<NodeId>, k: nat)
    requires k <= |order|
  {
    forall j :: 0 <= j < k ==> order[j] in t && IsDone(t[order[j]].state)
  }

  lemma NextNodeIsDone(t: Table, order: seq<NodeId>, k: nat)
    requires Schedule(t, order) && AllSettled(t) && k < |order| && DoneUpTo(t, order, k)
    requires InProgressNodes(t) == {} && forall id :: id in t ==> !WaitsForSomething(t[id])
    ensures order[k] in t && IsDone(t[order[k]].state)
  {
    DepsComeEarlier(t, order, k);
    assert SettledIn(t, order[k], |InProgressNodes(t)|);
    forall d | d in t[order[k]].deps && d in t ensures IsDone(t[d].state) {
      var j :| 0 <= j < k && order[j] == d;
    }
    SettledAndUnblockedIsDone(t[order[k]]);
  }

  lemma {:induction false} FirstNodesAreDone(t: Table, order: seq<NodeId>, k: nat)
    requires forall j :: 0 <= j < |order| && DoneUpTo(t, order, j) ==> order[j] in t && IsDone(t[order[j]].state)
    requires k <= |order|
    ensures DoneUpTo(t, order, k)
  {
    if k > 0 {
      FirstNodesAreDone(t, order, k - 1);
      assert DoneUpTo(t, order, k - 1);
    }
  }

  /** No silent stall: after a pass over a DAG in which nothing runs, waits for a person or has given up,
      every node is COMPLETED or SKIPPED. */
  lemma NoSilentStall(t: Table, order: seq<NodeId>)
    requires Schedule(t, order)
    ensures forall id :: id in order ==> id in t
    ensures var u := Sweep(Start(t), order).table;
      (exists id :: id in u && WaitsForSomething(u[id])) || (forall id :: id in u ==> IsDone(u[id].state))
  {
    PassGuarantees(t, order);
    var u := Sweep(Start(t), order).table;
    if forall id :: id in u ==> !WaitsForSomething(u[id]) {
      assert InProgressNodes(u) == {};
      ScheduleSurvives(t, u, order);
      forall j | 0 <= j < |order| && DoneUpTo(u, order, j) ensures order[j] in u && IsDone(u[order[j]].state) {
        NextNodeIsDone(u, order, j);
      }
      FirstNodesAreDone(u, order, |order|);
      forall id | id in u ensures IsDone(u[id].state) {
        assert id in Members(order);
        var j :| 0 <= j < |order| && order[j] == id;
      }
    }
  }

  lemma ScheduleSurvives(t: Table, u: Table, order: seq<NodeId>)
    requires Schedule(t, order) && u.Keys == t.Keys
    requires forall id :: id in t ==> RowEvolves(t[id], u[id])
    ensures Schedule(u, order) && TableEdges(u) == TableEdges(t)
  {
    forall id | id in t ensures u[id].deps == t[id].deps {
      assert RowEvolves(t[id], u[id]);
    }
    forall e ensures e in TableEdges(u) <==> e in TableEdges(t) {
      if e in TableEdges(u) {
        var i :| 0 <= i < |u[e.dst].deps| && u[e.dst].deps[i] == e.src;
        assert Edge(t[e.dst].deps[i], e.dst) in TableEdges(t);
      }
      if e in TableEdges(t) {
        var i :| 0 <= i < |t[e.dst].deps| && t[e.dst].deps[i] == e.src;
        assert Edge(u[e.dst].deps[i], e.dst) in TableEdges(u);
      }
    }
  }
}

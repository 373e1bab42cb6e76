/** What a pass reports, and what becomes of gates in it (engine/core/dag_advancer.py:181-295 and 397-416). */
module PassReports {
  import opened Graph
  import opened Nodes
  import opened StateMachine
  import opened AdvancePass

  // ---- The lists of the answer ----

  /** Some dependency is FAILED, NEEDS_HUMAN or INVALID. */
  predicate Hindered(t: Table, n: NodeSnapshot)
  {
    exists d :: d in n.deps && d in t && (t[d].state.Failed? || t[d].state.NeedsHuman? || t[d].state.Invalid?)
  }

  /** A row that was n is rightly in or not in the two lists. */
  predicate Reported(n: NodeSnapshot, t: Table, id: NodeId, blocked: seq<NodeId>, gatePending: seq<NodeId>)
  {
    && id in t
    && (id in gatePending <==> t[id].nodeType.Gate? && t[id].state.AwaitingApproval? && !n.state.AwaitingApproval?)
    && (id in blocked <==> t[id].state.Blocked? && (Hindered(t, t[id]) || !n.state.Blocked?))
  }

  ghost predicate ReportedUpTo(t0: Table, order: seq<NodeId>, k: nat, p: Pass)
    requires k <= |order|
  {
    && (forall i :: 0 <= i < k ==>
          order[i] in t0 && Reported(t0[order[i]], p.table, order[i], p.blocked, p.gatePending))
    && (forall x :: x in p.blocked || x in p.gatePending ==> x in order[..k])
    && Distinct(p.blocked) && Distinct(p.gatePending)
  }

  lemma HinderedDependsOnDeps(t: Table, u: Table, n: NodeSnapshot, n': NodeSnapshot)
    requires n.deps == n'.deps && t.Keys == u.Keys
    requires forall d :: d in n.deps && d in t ==> u[d] == t[d]
    ensures Hindered(t, n) == Hindered(u, n')
  {}

  /** The decision for one row: it starts to wait for approval exactly as a gate that is reported pending, and
      is left BLOCKED and reported exactly if a dependency hinders it or it was not BLOCKED before. */
  lemma DecisionReports(n: NodeSnapshot, depsDone: bool, depFailed: bool, running: nat)
    requires depFailed ==> !depsDone
    ensures var d, n' := Decide(n, depsDone, depFailed, running),
                         Moved(n, Decide(n, depsDone, depFailed, running).path);
      && n'.deps == n.deps && n'.nodeType == n.nodeType
      && (d.gatePending <==> n.nodeType.Gate? && n'.state.AwaitingApproval? && !n.state.AwaitingApproval?)
      && (d.blocked <==> n'.state.Blocked? && (depFailed || !n.state.Blocked?))
  {}

  lemma VisitReports(p: Pass, id: NodeId)
    requires id in p.table && id !in p.table[id].deps && id !in p.blocked && id !in p.gatePending
    ensures var q := Visit(p, id);
      && Reported(p.table[id], q.table, id, q.blocked, q.gatePending)
      && q.table[id].deps == p.table[id].deps
  {
    var q, n := Visit(p, id), p.table[id];
    if SomeDepFailed(p.table, n) { FailedDepIsNotDone(p.table, n); }
    DecisionReports(n, DepsDone(p.table, n), SomeDepFailed(p.table, n), p.running);
    HinderedDependsOnDeps(p.table, q.table, n, q.table[id]);
  }

  lemma ReportSurvives(t0: Table, order: seq<NodeId>, i: nat, k: nat, p: Pass)
    requires Schedule(t0, order) && i < k < |order| && Swept(t0, order, k, p) && order[k] in p.table
    requires order[i] in t0 && Reported(t0[order[i]], p.table, order[i], p.blocked, p.gatePending)
    ensures var q := Visit(p, order[k]); Reported(t0[order[i]], q.table, order[i], q.blocked, q.gatePending)
  {
    var q, n := Visit(p, order[k]), p.table[order[i]];
    DepsComeEarlier(t0, order, i);
    DistinctSplit(order, k);
    DecidedEvolves(p.table, t0[order[i]], n);
    assert order[i] in order[..k];
    forall d | d in n.deps && d in p.table ensures q.table[d] == p.table[d] {
      assert d in order[..i];
      assert order[..i] <= order[..k];
    }
    HinderedDependsOnDeps(p.table, q.table, n, q.table[order[i]]);
  }

  lemma ListsGrow(p: Pass, id: NodeId, front: seq<NodeId>)
    requires id in p.table && id !in front && Distinct(p.blocked) && Distinct(p.gatePending)
    requires forall x :: x in p.blocked || x in p.gatePending ==> x in front
    ensures var q := Visit(p, id);
      && Distinct(q.blocked) && Distinct(q.gatePending)
      && forall x :: x in q.blocked || x in q.gatePending ==> x in front + [id]
  {}

  lemma ReportedNext(t0: Table, order: seq<NodeId>, k: nat, p: Pass)
    requires Schedule(t0, order) && k < |order| && Swept(t0, order, k, p) && ReportedUpTo(t0, order, k, p)
    ensures order[k] in t0 && order[k] in p.table && order[k] !in order[..k]
    ensures var q := Visit(p, order[k]); Reported(t0[order[k]], q.table, order[k], q.blocked, q.gatePending)
  {
    DepsComeEarlier(t0, order, k);
    DistinctSplit(order, k);
    assert p.table[order[k]] == t0[order[k]];
    VisitReports(p, order[k]);
  }

  lemma ListsStep(order: seq<NodeId>, k: nat, p: Pass)
    requires k < |order| && order[k] in p.table && order[k] !in order[..k]
    requires Distinct(p.blocked) && Distinct(p.gatePending)
    requires forall x :: x in p.blocked || x in p.gatePending ==> x in order[..k]
    ensures var q := Visit(p, order[k]);
      && Distinct(q.blocked) && Distinct(q.gatePending)
      && forall x :: x in q.blocked || x in q.gatePending ==> x in order[..k + 1]
  {
    ListsGrow(p, order[k], order[..k]);
    assert order[..k + 1] == order[..k] + [order[k]];
  }

  lemma ReportedRow(t0: Table, order: seq<NodeId>, k: nat, p: Pass, i: nat)
    requires Schedule(t0, order) && i <= k < |order| && Swept(t0, order, k, p) && ReportedUpTo(t0, order, k, p)
    ensures order[k] in p.table && order[i] in t0
    ensures var q := Visit(p, order[k]); Reported(t0[order[i]], q.table, order[i], q.blocked, q.gatePending)
  {
    ReportedNext(t0, order, k, p);
    if i < k { ReportSurvives(t0, order, i, k, p); }
  }

  lemma ReportedStep(t0: Table, order: seq<NodeId>, k: nat, p: Pass)
    requires Schedule(t0, order) && k < |order| && Swept(t0, order, k, p) && ReportedUpTo(t0, order, k, p)
    ensures order[k] in p.table && ReportedUpTo(t0, order, k + 1, Visit(p, order[k]))
  {
    ReportedNext(t0, order, k, p);
    ListsStep(order, k, p);
    var q := Visit(p, order[k]);
    forall i: nat | i < k + 1
      ensures order[i] in t0 && Reported(t0[order[i]], q.table, order[i], q.blocked, q.gatePending)
    {
      ReportedRow(t0, order, k, p, i);
    }
  }

  lemma {:induction false} ReportedFrom(t0: Table, order: seq<NodeId>, k: nat, p: Pass)
    requires Schedule(t0, order) && k <= |order| && Swept(t0, order, k, p) && ReportedUpTo(t0, order, k, p)
    ensures forall id :: id in order[k..] ==> id in p.table
    ensures ReportedUpTo(t0, order, |order|, Sweep(p, order[k..]))
    decreases |order| - k
  {
    forall id | id in order[k..] ensures id in p.table { assert id in Members(order); }
    if k < |order| {
      SweptStep(t0, order, k, p);
      ReportedStep(t0, order, k, p);
      ReportedFrom(t0, order, k + 1, Visit(p, order[k]));
      assert order[k..][1..] == order[k + 1..];
    }
  }

  /** The lists of the answer, against the tables before and after: gatePending names, once each, exactly the
      gates this pass has left waiting for approval; blocked, once each, exactly the nodes left BLOCKED that were
      not BLOCKED before or have a dependency that failed, needs a human or is invalid. */
  lemma PassReportsExactly(t: Table, order: seq<NodeId>)
    requires Schedule(t, order)
    ensures forall id :: id in order ==> id in t
    ensures var q := Sweep(Start(t), order);
      && Distinct(q.blocked) && Distinct(q.gatePending)
      && (forall id :: id in q.blocked || id in q.gatePending ==> id in t)
      && (forall id :: id in t ==> Reported(t[id], q.table, id, q.blocked, q.gatePending))
  {
    PassGuarantees(t, order);
    ReportedFrom(t, order, 0, Start(t));
    assert order[0..] == order;
    forall id | id in t ensures id in order { assert id in Members(order); }
    forall id | id in order ensures id in t { assert id in Members(order); }
  }

  // ---- Gates ----

  /** What a pass may make of a row n, given whether its dependencies are done at the end. A gate whose
      dependencies are done is COMPLETED with automatic approval and waits for approval without, if the pass does
      not leave it alone; no other node is completed or waits; and a gate is run only if it is FAILED with retries
      left, which the pass treats like any FAILED node. */
  predicate GateRule(n: NodeSnapshot, n': NodeSnapshot, depsDone: bool)
  {
    && n'.nodeType == n.nodeType && n'.autoApprove == n.autoApprove
    && n'.retryCount == n.retryCount && n'.maxRetries == n.maxRetries
    && (n'.state.Completed? && !n.state.Completed? ==> n.nodeType.Gate? && n.autoApprove && depsDone)
    && (n'.state.AwaitingApproval? && !n.state.AwaitingApproval? ==> n.nodeType.Gate? && !n.autoApprove && depsDone)
    && (n.nodeType.Gate? && depsDone && n.state in {NotStarted, Ready, Blocked, Invalid} ==>
          n'.state == if n.autoApprove then Completed else AwaitingApproval)
    && (n.nodeType.Gate? && n'.state.InProgress? && !n.state.InProgress? ==> RetriesLeft(n))
    && (n'.state.Failed? ==> n' == n)
  }

  predicate RetriesLeft(n: NodeSnapshot)
  {
    n.state.Failed? && n.retryCount < n.maxRetries
  }

  lemma DecisionOnGate(n: NodeSnapshot, depsDone: bool, depFailed: bool, running: nat)
    requires depFailed ==> !depsDone
    ensures GateRule(n, Moved(n, Decide(n, depsDone, depFailed, running).path), depsDone)
  {}

  lemma GateAfterPass(t: Table, order: seq<NodeId>, id: NodeId)
    requires Schedule(t, order) && id in t
    ensures forall x :: x in order ==> x in t
    ensures var u := Sweep(Start(t), order).table; id in u && GateRule(t[id], u[id], DepsDone(u, u[id]))
  {
    PassGuarantees(t, order);
    forall x | x in order ensures x in t { assert x in Members(order); }
    var n, u := t[id], Sweep(Start(t), order).table;
    var depFailed: bool, running: nat :|
      (depFailed ==> !DepsDone(u, u[id])) && u[id] == Moved(n, Decide(n, DepsDone(u, u[id]), depFailed, running).path);
    DecisionOnGate(n, DepsDone(u, u[id]), depFailed, running);
  }
}

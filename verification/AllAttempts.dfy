/** How much executor work a run can hold: exactly the attempts its nodes have left
    (engine/core/dag_advancer.py:240-395). */
module AllAttempts {
  import opened Graph
  import opened Nodes
  import opened StateMachine
  import opened AdvancePass
  import opened Outcomes
  import opened EngineRun
  import opened Interventions
  import opened PassReports
  import opened PhaseOrder
  import opened LateFailures

  /** The nodes executors work for, each once: all but the gates. */
  ghost predicate Workers(t: Table, ids: seq<NodeId>)
  {
    Distinct(ids) && forall id :: id in ids <==> id in t && !t[id].nodeType.Gate?
  }

  // ---- No run holds more ----

  /** No executor works for a gate, and none will. */
  ghost predicate GatesIdle(s: Engine)
  {
    forall id :: id in s.table && s.table[id].nodeType.Gate? ==> id !in s.tasks && !RetriesLeft(s.table[id])
  }

  lemma EventKeepsGatesIdle(s: Engine, e: Event)
    requires GatesIdle(s) && Enabled(s, e)
    ensures GatesIdle(Next(s, e))
  {
    var s' := Next(s, e);
    KeysUnchanged(s, e);
    if e.Advance? {
      forall id | id in s'.table && s'.table[id].nodeType.Gate?
        ensures id !in s'.tasks && !RetriesLeft(s'.table[id])
      {
        GateAfterPass(s.table, e.order, id);
        NewTaskRuns(s, e.order, id);
      }
    }
  }

  lemma NewTaskRuns(s: Engine, order: seq<NodeId>, id: NodeId)
    requires Schedule(s.table, order) && id !in s.tasks
    ensures var s' := Next(s, Advance(order));
      id in s'.tasks ==>
        id in s.table && id in s'.table && s'.table[id].state.InProgress? && !s.table[id].state.InProgress?
  {
    ScheduleInTable(s.table, order);
    PassGuarantees(s.table, order);
    var q := Sweep(Start(s.table), order);
    assert id in q.launched ==> id in Members(q.launched) && id in InProgressNodes(q.table);
  }

  lemma WorkersRemain(s: Engine, e: Event, ids: seq<NodeId>)
    requires Enabled(s, e) && Workers(s.table, ids)
    ensures Workers(Next(s, e).table, ids)
  {
    KeysUnchanged(s, e);
    if e.Advance? {
      forall id | id in s.table ensures Next(s, e).table[id].nodeType == s.table[id].nodeType {
        GateAfterPass(s.table, e.order, id);
      }
    }
  }

  lemma {:induction false} NoMoreThanRemains(s: Engine, es: seq<Event>, ids: seq<NodeId>)
    requires TasksAccounted(s) && GatesIdle(s) && Workers(s.table, ids) && IsRun(s, es)
    ensures OutcomeCount(es) <= TotalRemaining(s.table, ids)
    decreases |es|
  {
    if es != [] {
      EventUsesBudget(s, es[0], ids);
      TasksAfterEvent(s, es[0]);
      EventKeepsGatesIdle(s, es[0]);
      WorkersRemain(s, es[0], ids);
      NoMoreThanRemains(Next(s, es[0]), es[1..], ids);
    }
  }

  // ---- Some run holds as much ----

  lemma {:induction false} TotalUnchanged(t: Table, u: Table, ids: seq<NodeId>)
    requires forall id :: id in ids ==> id in t && id in u && Remaining(u[id]) == Remaining(t[id])
    ensures TotalRemaining(u, ids) == TotalRemaining(t, ids)
  {
    if ids != [] {
      assert ids[0] in ids && forall id :: id in ids[1..] ==> id in ids;
      TotalUnchanged(t, u, ids[1..]);
    }
  }

  lemma {:induction false} TotalOneLess(t: Table, ids: seq<NodeId>, x: NodeId, n: NodeSnapshot)
    requires Distinct(ids) && x in ids && forall id :: id in ids ==> id in t
    requires Remaining(n) == Remaining(t[x]) - 1
    ensures TotalRemaining(t[x := n], ids) == TotalRemaining(t, ids) - 1
  {
    DistinctTail(ids);
    assert ids == [ids[0]] + ids[1..];
    if ids[0] == x {
      TotalUnchanged(t, t[x := n], ids[1..]);
    } else {
      TotalOneLess(t, ids[1..], x, n);
    }
  }

  /** The outcome that makes the most of a running node: fail while attempts are left, then succeed. */
  function LongestOutcome(n: NodeSnapshot): Outcome
  {
    if n.retryCount + 1 < n.maxRetries then Raised else Succeeded
  }

  lemma OutcomeUsesExactlyOne(n: NodeSnapshot)
    requires n.state.InProgress?
    ensures var n' := AfterOutcome(n, LongestOutcome(n));
      && Remaining(n') == Remaining(n) - 1
      && (n'.state.Ready? || n'.state.Completed?) && n'.nodeType == n.nodeType
  {}

  lemma DecisionSpendsNothing(n: NodeSnapshot, depsDone: bool, depFailed: bool, running: nat)
    requires GoingWell(n) && !n.nodeType.Gate?
    ensures Remaining(Moved(n, Decide(n, depsDone, depFailed, running).path)) == Remaining(n)
  {}

  lemma PassSpendsExactlyNothing(s: Engine, order: seq<NodeId>, ids: seq<NodeId>)
    requires Schedule(s.table, order) && AllWell(s.table) && Workers(s.table, ids)
    ensures forall id :: id in ids ==> id in Next(s, Advance(order)).table
    ensures TotalRemaining(Next(s, Advance(order)).table, ids) == TotalRemaining(s.table, ids)
  {
    var u := Next(s, Advance(order)).table;
    KeysUnchanged(s, Advance(order));
    forall id | id in ids ensures id in u && Remaining(u[id]) == Remaining(s.table[id]) {
      PassOnRow(s, order, id);
      var depFailed: bool, running: nat :|
        && (depFailed ==> !DepsDone(u, u[id]))
        && u[id] == Moved(s.table[id], Decide(s.table[id], DepsDone(u, u[id]), depFailed, running).path);
      DecisionSpendsNothing(s.table[id], DepsDone(u, u[id]), depFailed, running);
    }
    TotalUnchanged(s.table, u, ids);
  }

  lemma ReturnKeepsCooperative(t0: Table, s: Engine, id: NodeId)
    requires Cooperative(t0, s, multiset{}) && id in s.table && s.table[id].state.InProgress?
    ensures Enabled(s, Return(id, LongestOutcome(s.table[id])))
    ensures Cooperative(t0, Next(s, Return(id, LongestOutcome(s.table[id]))), multiset{})
  {
    var n, o := s.table[id], LongestOutcome(s.table[id]);
    OutcomeUsesExactlyOne(n);
    StaffedAfterReturn(s.table, s.tasks, multiset{}, id, AfterOutcome(n, o));
    ActKeepsOrder(t0, s, Plain(Return(id, o)));
    assert AllWell(s.table[id := AfterOutcome(n, o)]);
  }

  lemma {:induction false} NothingRemains(t: Table, ids: seq<NodeId>)
    requires forall id :: id in ids ==> id in t && IsDone(t[id].state)
    ensures TotalRemaining(t, ids) == 0
  {
    if ids != [] {
      assert ids[0] in ids && forall id :: id in ids[1..] ==> id in ids;
      NothingRemains(t, ids[1..]);
    }
  }

  lemma OneMoreOutcome(e: Event, es: seq<Event>)
    ensures OutcomeCount([e] + es) == (if e.Return? then 1 else 0) + OutcomeCount(es)
  {
    assert ([e] + es)[1..] == es;
  }

  /** One step of the longest run after a pass: an outcome that uses exactly one attempt, or an approval. */
  lemma LongestStep(t0: Table, s: Engine, id: NodeId, ids: seq<NodeId>) returns (e: Event)
    requires Cooperative(t0, s, multiset{}) && Workers(s.table, ids) && GatesIdle(s)
    requires id in s.table && (s.table[id].state.InProgress? || s.table[id].state.AwaitingApproval?)
    ensures Enabled(s, e) && Cooperative(t0, Next(s, e), multiset{})
    ensures Workers(Next(s, e).table, ids) && GatesIdle(Next(s, e))
    ensures TotalRemaining(Next(s, e).table, ids) + (if e.Return? then 1 else 0) == TotalRemaining(s.table, ids)
    ensures e.Return? || NotDone(Next(s, e).table) < NotDone(s.table)
  {
    if s.table[id].state.InProgress? {
      e := Return(id, LongestOutcome(s.table[id]));
      ReturnKeepsCooperative(t0, s, id);
      assert multiset{}[id] < s.tasks[id];
      OutcomeUsesExactlyOne(s.table[id]);
      TotalOneLess(s.table, ids, id, AfterOutcome(s.table[id], LongestOutcome(s.table[id])));
    } else {
      assert GoingWell(s.table[id]);
      e := Approve(id);
      ApprovalKeepsCooperative(t0, s, multiset{}, id);
      TotalUnchanged(s.table, Next(s, e).table, ids);
    }
    WorkersRemain(s, e, ids);
    EventKeepsGatesIdle(s, e);
  }

  /** A table in which somebody waits or everything is done, as every pass leaves one. */
  ghost predicate NotStalled(t: Table)
  {
    (exists x :: x in t && WaitsForSomething(t[x])) || (forall x :: x in t ==> IsDone(t[x].state))
  }

  lemma WhoWaits(t: Table) returns (id: NodeId)
    requires AllWell(t) && NotDone(t) != {} && NotStalled(t)
    ensures id in t && (t[id].state.InProgress? || t[id].state.AwaitingApproval?)
  {
    var y :| y in NotDone(t);
    id :| id in t && WaitsForSomething(t[id]);
    NothingGivesUp(t[id]);
  }

  lemma AllDoneNothingRemains(t: Table, ids: seq<NodeId>)
    requires NotDone(t) == {} && Workers(t, ids)
    ensures TotalRemaining(t, ids) == 0
  {
    forall x | x in ids ensures x in t && IsDone(t[x].state) { assert x !in NotDone(t); }
    NothingRemains(t, ids);
  }

  lemma PassNotStalled(s: Engine, order: seq<NodeId>)
    requires Schedule(s.table, order)
    ensures NotStalled(Next(s, Advance(order)).table)
  {
    ScheduleInTable(s.table, order);
    NoSilentStall(s.table, order);
  }

  lemma AfterPass(t0: Table, s: Engine, order: seq<NodeId>, ids: seq<NodeId>)
    requires Cooperative(t0, s, multiset{}) && Schedule(s.table, order) && Workers(s.table, ids) && GatesIdle(s)
    ensures var s1 := Next(s, Advance(order));
      && Cooperative(t0, s1, multiset{}) && Workers(s1.table, ids) && GatesIdle(s1)
      && NotDone(s1.table) <= NotDone(s.table)
      && TotalRemaining(s1.table, ids) == TotalRemaining(s.table, ids)
      && NotStalled(s1.table)
  {
    PassKeepsCooperative(t0, s, multiset{}, order);
    PassSpendsExactlyNothing(s, order, ids);
    WorkersRemain(s, Advance(order), ids);
    EventKeepsGatesIdle(s, Advance(order));
    PassNotStalled(s, order);
  }

  /** Where nothing has failed, some run uses up every attempt of every node and ends with everything done: let
      each node fail while attempts are left and then succeed. */
  lemma {:induction false} UseAllAttempts(t0: Table, s: Engine, order: seq<NodeId>, ids: seq<NodeId>)
    returns (es: seq<Event>)
    requires Schedule(t0, order) && Cooperative(t0, s, multiset{}) && Workers(s.table, ids) && GatesIdle(s)
    ensures IsRun(s, es) && OutcomeCount(es) == TotalRemaining(s.table, ids) && NotDone(After(s, es).table) == {}
    decreases TotalRemaining(s.table, ids), NotDone(s.table)
  {
    SameScheduleForAll(t0, s.table, order);
    var s1 := Next(s, Advance(order));
    AfterPass(t0, s, order, ids);
    if NotDone(s1.table) == {} {
      AllDoneNothingRemains(s1.table, ids);
      es := [];
    } else {
      var id := WhoWaits(s1.table);
      var e := LongestStep(t0, s1, id, ids);
      es := UseAllAttempts(t0, Next(s1, e), order, ids);
      RunCons(s1, e, es);
      OneMoreOutcome(e, es);
      es := [e] + es;
    }
    RunCons(s, Advance(order), es);
    OneMoreOutcome(Advance(order), es);
    es := [Advance(order)] + es;
  }

  // ---- The bound is the maximum ----

  ghost predicate HoldsOutcomes(s: Engine, k: nat)
  {
    exists es: seq<Event> :: IsRun(s, es) && OutcomeCount(es) == k
  }

  /** Where nothing has failed, the most outcomes a run can hold are exactly the attempts left to the nodes that
      executors work for. */
  lemma MostOutcomes(s: Engine, order: seq<NodeId>, ids: seq<NodeId>)
    requires TasksAccounted(s) && GatesIdle(s) && Cooperative(s.table, s, multiset{})
    requires Schedule(s.table, order) && Workers(s.table, ids)
    ensures HoldsOutcomes(s, TotalRemaining(s.table, ids))
    ensures forall k: nat :: HoldsOutcomes(s, k) ==> k <= TotalRemaining(s.table, ids)
  {
    var es := UseAllAttempts(s.table, s, order, ids);
    forall k: nat | HoldsOutcomes(s, k) ensures k <= TotalRemaining(s.table, ids) {
      var es: seq<Event> :| IsRun(s, es) && OutcomeCount(es) == k;
      NoMoreThanRemains(s, es, ids);
    }
  }

  lemma {:induction false} FreshAttempts(t: Table, ids: seq<NodeId>)
    requires forall id :: id in ids ==> id in t && t[id].state.NotStarted?
    ensures TotalRemaining(t, ids) == TotalAttempts(t, ids)
  {
    if ids != [] {
      assert ids[0] in ids && forall id :: id in ids[1..] ==> id in ids;
      FreshAttempts(t, ids[1..]);
    }
  }

  /** For nodes none of which has started that is the sum of max(1, max_retries - retry_count), so the bound on
      runs is attained: no smaller one holds for every run. */
  lemma FiniteBoundIsAttained(t: Table, order: seq<NodeId>, ids: seq<NodeId>) returns (es: seq<Event>)
    requires Schedule(t, order) && Distinct(ids) && forall id :: id in ids <==> id in t
    requires forall id :: id in t ==> !t[id].nodeType.Gate? && t[id].state.NotStarted?
    ensures IsRun(Engine(t, multiset{}), es) && OutcomeCount(es) == TotalAttempts(t, ids)
  {
    FreshAttempts(t, ids);
    es := UseAllAttempts(t, Engine(t, multiset{}), order, ids);
  }
}

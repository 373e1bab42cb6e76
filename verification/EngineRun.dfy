/** Runs of the engine: any sequence of passes, executor outcomes and gate approvals
    (engine/core/dag_advancer.py; the approval is api/server.py's gate handler). */
module EngineRun {
  import opened Graph
  import opened Nodes
  import opened StateMachine
  import opened AdvancePass
  import opened Outcomes

  /** The rows and the executor tasks in flight. */
  datatype Engine = Engine(table: Table, tasks: multiset<NodeId>)

  datatype Event =
    | Advance(order: seq<NodeId>)
    | Return(id: NodeId, outcome: Outcome)
    | Approve(id: NodeId)

  ghost predicate Enabled(s: Engine, e: Event)
  {
    match e
    case Advance(order) => Schedule(s.table, order)
    case Return(id, _) => id in s.tasks && id in s.table
    case Approve(id) => id in s.table && s.table[id].state.AwaitingApproval?
  }

  lemma ScheduleInTable(t: Table, order: seq<NodeId>)
    requires Schedule(t, order)
    ensures forall id :: id in order ==> id in t
  {
    forall id | id in order ensures id in t { assert id in Members(order); }
  }

  ghost function Next(s: Engine, e: Event): Engine
    requires Enabled(s, e)
  {
    match e
    case Advance(order) =>
      ScheduleInTable(s.table, order);
      var q := Sweep(Start(s.table), order);
      Engine(q.table, s.tasks + multiset(q.launched))
    case Return(id, o) => Engine(s.table[id := AfterOutcome(s.table[id], o)], s.tasks - multiset{id})
    case Approve(id) => s.(table := s.table[id := Moved(s.table[id], [Completed])])
  }

  ghost predicate IsRun(s: Engine, es: seq<Event>)
    decreases |es|
  {
    es == [] || (Enabled(s, es[0]) && IsRun(Next(s, es[0]), es[1..]))
  }

  ghost function After(s: Engine, es: seq<Event>): Engine
    requires IsRun(s, es)
    decreases |es|
  {
    if es == [] then s else After(Next(s, es[0]), es[1..])
  }

  lemma RunCons(s: Engine, e: Event, es: seq<Event>)
    requires Enabled(s, e) && IsRun(Next(s, e), es)
    ensures IsRun(s, [e] + es) && After(s, [e] + es) == After(Next(s, e), es)
  {
    assert ([e] + es)[1..] == es;
  }

  function OutcomeCount(es: seq<Event>): nat
  {
    if es == [] then 0 else (if es[0].Return? then 1 else 0) + OutcomeCount(es[1..])
  }

  // ---- One executor per node ----

  /** Every task in flight belongs to a node in progress, and no node has two. */
  ghost predicate TasksAccounted(s: Engine)
  {
    forall id :: s.tasks[id] <= 1 && (id in s.tasks ==> id in s.table && s.table[id].state.InProgress?)
  }

  lemma TasksAfterPass(s: Engine, order: seq<NodeId>)
    requires TasksAccounted(s) && Schedule(s.table, order)
    ensures TasksAccounted(Next(s, Advance(order)))
  {
    ScheduleInTable(s.table, order);
    PassGuarantees(s.table, order);
    var q := Sweep(Start(s.table), order);
    forall id ensures (s.tasks + multiset(q.launched))[id] <= 1
      && (id in s.tasks + multiset(q.launched) ==> id in q.table && q.table[id].state.InProgress?)
    {
      assert multiset(q.launched)[id] <= 1;
      assert id in multiset(q.launched) <==> id in Members(q.launched);
      if id in s.tasks { assert id in InProgressNodes(s.table); }
      if id in s.tasks || id in q.launched { assert id in InProgressNodes(q.table); }
    }
  }

  lemma TasksAfterEvent(s: Engine, e: Event)
    requires TasksAccounted(s) && Enabled(s, e)
    ensures TasksAccounted(Next(s, e))
  {
    match e
    case Advance(order) => TasksAfterPass(s, order);
    case Return(id, o) =>
      assert s.tasks[id] == 1;
    case Approve(id) =>
      assert id !in s.tasks;
  }

  /** In every run from a state without stray tasks, no node ever has two executors, and an executor only
      ever works for a node that is IN_PROGRESS. */
  lemma {:induction false} OneExecutorPerNode(s: Engine, es: seq<Event>)
    requires TasksAccounted(s) && IsRun(s, es)
    ensures TasksAccounted(After(s, es))
    decreases |es|
  {
    if es != [] {
      TasksAfterEvent(s, es[0]);
      OneExecutorPerNode(Next(s, es[0]), es[1..]);
    }
  }

  // ---- Finiteness ----

  function TotalRemaining(t: Table, ids: seq<NodeId>): nat
    requires forall id :: id in ids ==> id in t
  {
    if ids == [] then 0 else Remaining(t[ids[0]]) + TotalRemaining(t, ids[1..])
  }

  function TotalAttempts(t: Table, ids: seq<NodeId>): nat
    requires forall id :: id in ids ==> id in t
  {
    if ids == [] then 0 else Attempts(t[ids[0]]) + TotalAttempts(t, ids[1..])
  }

  lemma {:induction false} TotalRemainingMonotone(t: Table, u: Table, ids: seq<NodeId>)
    requires forall id :: id in ids ==> id in t && id in u && Remaining(u[id]) <= Remaining(t[id])
    ensures TotalRemaining(u, ids) <= TotalRemaining(t, ids)
  {
    if ids != [] {
      assert ids[0] in ids && forall id :: id in ids[1..] ==> id in ids;
      TotalRemainingMonotone(t, u, ids[1..]);
    }
  }

  lemma {:induction false} TotalRemainingDrops(t: Table, u: Table, ids: seq<NodeId>, x: NodeId)
    requires forall id :: id in ids ==> id in t && id in u && Remaining(u[id]) <= Remaining(t[id])
    requires x in ids && Remaining(u[x]) < Remaining(t[x])
    ensures TotalRemaining(u, ids) < TotalRemaining(t, ids)
  {
    assert ids[0] in ids && forall id :: id in ids[1..] ==> id in ids;
    if ids[0] == x {
      TotalRemainingMonotone(t, u, ids[1..]);
    } else {
      TotalRemainingDrops(t, u, ids[1..], x);
    }
  }

  lemma {:induction false} RemainingWithinAttempts(t: Table, ids: seq<NodeId>)
    requires forall id :: id in ids ==> id in t
    ensures TotalRemaining(t, ids) <= TotalAttempts(t, ids)
  {
    if ids != [] {
      assert ids[0] in ids && forall id :: id in ids[1..] ==> id in ids;
      RemainingWithinAttempts(t, ids[1..]);
    }
  }

  lemma PassOnRow(s: Engine, order: seq<NodeId>, id: NodeId)
    requires Schedule(s.table, order) && id in s.table
    ensures var u := Next(s, Advance(order)).table;
      u.Keys == s.table.Keys && DecidedIn(u, s.table[id], u[id]) && Remaining(u[id]) <= Remaining(s.table[id])
  {
    ScheduleInTable(s.table, order);
    PassGuarantees(s.table, order);
    var u := Next(s, Advance(order)).table;
    PassAddsNone(u, s.table[id], u[id]);
  }

  lemma EventOnRow(s: Engine, e: Event, id: NodeId)
    requires TasksAccounted(s) && Enabled(s, e) && id in s.table
    ensures var u := Next(s, e).table;
      u.Keys == s.table.Keys && Remaining(u[id]) <= Remaining(s.table[id])
      && (e.Return? && e.id == id ==> Remaining(u[id]) < Remaining(s.table[id]))
  {
    match e
    case Advance(order) => PassOnRow(s, order, id);
    case Return(x, o) => OutcomeUsesOneUp(s.table[x], o);
    case Approve(x) =>
  }

  lemma KeysUnchanged(s: Engine, e: Event)
    requires Enabled(s, e)
    ensures Next(s, e).table.Keys == s.table.Keys
  {
    if e.Advance? {
      ScheduleInTable(s.table, e.order);
      PassGuarantees(s.table, e.order);
    }
  }

  lemma EventUsesBudget(s: Engine, e: Event, ids: seq<NodeId>)
    requires TasksAccounted(s) && Enabled(s, e)
    requires forall id :: id in ids ==> id in s.table
    ensures forall id :: id in ids ==> id in Next(s, e).table
    ensures TotalRemaining(Next(s, e).table, ids) + (if e.Return? && e.id in ids then 1 else 0)
         <= TotalRemaining(s.table, ids)
  {
    var u := Next(s, e).table;
    KeysUnchanged(s, e);
    forall id | id in ids ensures id in u && Remaining(u[id]) <= Remaining(s.table[id]) {
      EventOnRow(s, e, id);
    }
    if e.Return? && e.id in ids {
      EventOnRow(s, e, e.id);
      TotalRemainingDrops(s.table, u, ids, e.id);
    } else {
      TotalRemainingMonotone(s.table, u, ids);
    }
  }

  lemma {:induction false} OutcomesWithinRemaining(s: Engine, es: seq<Event>, ids: seq<NodeId>)
    requires TasksAccounted(s) && IsRun(s, es) && forall id :: id in ids <==> id in s.table
    ensures OutcomeCount(es) <= TotalRemaining(s.table, ids)
    decreases |es|
  {
    if es != [] {
      EventUsesBudget(s, es[0], ids);
      TasksAfterEvent(s, es[0]);
      KeysUnchanged(s, es[0]);
      OutcomesWithinRemaining(Next(s, es[0]), es[1..], ids);
    }
  }

  /** Every run is finite in executor work: it contains at most the sum over the nodes of
      max(1, max_retries - retry_count) executor outcomes. */
  lemma RunsAreFinite(s: Engine, es: seq<Event>, ids: seq<NodeId>)
    requires TasksAccounted(s) && IsRun(s, es)
    requires Distinct(ids) && forall id :: id in ids <==> id in s.table
    ensures OutcomeCount(es) <= TotalAttempts(s.table, ids)
  {
    OutcomesWithinRemaining(s, es, ids);
    RemainingWithinAttempts(s.table, ids);
  }

  /** Two advance requests in a row do the work of one, so the passes of a run can only matter
      right after an outcome or an approval. */
  lemma RepeatedAdvanceIsIdle(s: Engine, order: seq<NodeId>, order': seq<NodeId>)
    requires Schedule(s.table, order) && Schedule(Next(s, Advance(order)).table, order')
    ensures Next(Next(s, Advance(order)), Advance(order')) == Next(s, Advance(order))
  {
    ScheduleInTable(s.table, order);
    KeysUnchanged(s, Advance(order));
    PassIsAFixpoint(s.table, order, order');
  }

  predicate Exhausted(n: NodeSnapshot)
  {
    n.state.Failed? && n.retryCount >= n.maxRetries
  }

  lemma ExhaustedRowIsFixed(s: Engine, e: Event, id: NodeId)
    requires TasksAccounted(s) && Enabled(s, e) && id in s.table && Exhausted(s.table[id])
    ensures id in Next(s, e).table && Next(s, e).table[id] == s.table[id]
  {
    match e
    case Advance(order) =>
      PassOnRow(s, order, id);
    case Return(x, o) =>
    case Approve(x) =>
  }

  /** A node whose retries are used up is never launched again: its row never changes in any run. */
  lemma {:induction false} ExhaustedStaysFailed(s: Engine, es: seq<Event>, id: NodeId)
    requires TasksAccounted(s) && IsRun(s, es) && id in s.table && Exhausted(s.table[id])
    ensures id in After(s, es).table && After(s, es).table[id] == s.table[id] && id !in After(s, es).tasks
    decreases |es|
  {
    if es != [] {
      TasksAfterEvent(s, es[0]);
      ExhaustedRowIsFixed(s, es[0], id);
      ExhaustedStaysFailed(Next(s, es[0]), es[1..], id);
    }
  }
}

/** Runs in which others step in: the suspend and resume calls and the retries of api/server.py and the resets of
    engine/lifecycle/watchdog.py, beside the passes, outcomes and approvals of EngineRun. A node taken out of
    IN_PROGRESS that way can have an executor still at work. */
module Interventions {
  import opened Graph
  import opened Nodes
  import opened StateMachine
  import opened AdvancePass
  import opened Outcomes
  import opened EngineRun

  /** An executor whose row was changed behind its back writes the attempts it counted itself, and its transition
      is judged by the row it finds, or by IN_PROGRESS if the row's version has not moved. Retry is
      c9_manual_retry, RetryQa the retry of a QA node that keeps the artifact of its TASK; Reset and GiveUp are
      the watchdog's, whatever its reasons. */
  datatype Act =
    | Plain(e: Event)
    | StrayReturn(id: NodeId, outcome: Outcome, attempts: int, current: bool)
    | Suspend(id: NodeId)
    | Resume(id: NodeId)
    | Retry(id: NodeId)
    | RetryQa(id: NodeId, qa: NodeId)
    | Reset(id: NodeId, attempts: int)
    | GiveUp(id: NodeId)

  ghost predicate CanAct(s: Engine, a: Act)
  {
    match a
    case Plain(e) => Enabled(s, e)
    case StrayReturn(id, _, _, _) => id in s.tasks && id in s.table
    case Suspend(id) => id in s.table && s.table[id].state.InProgress?
    case Resume(id) => id in s.table && s.table[id].state.Suspended?
    case Retry(id) => id in s.table && Retriable(s.table[id].state)
    case RetryQa(id, qa) => id in s.table && qa in s.table && QaRetriable(s.table[id], s.table[qa])
    case Reset(id, _) => id in s.table && !IsDone(s.table[id].state)
    case GiveUp(id) => id in s.table && s.table[id].state.InProgress?
  }

  /** Left out: COMPLETED and INVALID, whose retry is an invalidation, and SKIPPED, whose retry undoes a decision
      of the intake. */
  predicate Retriable(n: NodeState)
  {
    IsValid(n, Ready) && !n.Skipped? && !n.Invalid?
  }

  predicate QaRetriable(task: NodeSnapshot, qa: NodeSnapshot)
  {
    && task.nodeType.Task? && (task.state.Suspended? || task.state.Completed?)
    && qa.nodeType.Qa? && (qa.state.Failed? || qa.state.Blocked? || qa.state.NotStarted? || qa.state.Suspended?)
  }

  function AfterStray(n: NodeSnapshot, o: Outcome, attempts: int, current: bool): NodeSnapshot
  {
    if !o.Raised? then AfterOutcome(n, o)
    else
      var r, judged := n.(retryCount := attempts + 1), if current then InProgress else n.state;
      var to := if r.retryCount < r.maxRetries then Ready else Failed;
      if IsValid(judged, to) then Moved(r, [to]) else r
  }

  ghost function NextAct(s: Engine, a: Act): Engine
    requires CanAct(s, a)
  {
    match a
    case Plain(e) => Next(s, e)
    case StrayReturn(id, o, attempts, current) =>
      Engine(s.table[id := AfterStray(s.table[id], o, attempts, current)], s.tasks - multiset{id})
    case Suspend(id) => s.(table := s.table[id := Moved(s.table[id], [Suspended])])
    case Resume(id) => s.(table := s.table[id := Moved(s.table[id], [Ready])])
    case Retry(id) => s.(table := s.table[id := Moved(s.table[id], [Ready]).(retryCount := 0)])
    case RetryQa(id, qa) =>
      var n := s.table[id];
      var task := if n.state.Completed? then n else n.(state := Completed, retryCount := 0);
      s.(table := s.table[id := task][qa := s.table[qa].(state := NotStarted, retryCount := 0)])
    case Reset(id, attempts) => s.(table := s.table[id := Moved(s.table[id], [NotStarted]).(retryCount := attempts)])
    case GiveUp(id) => s.(table := s.table[id := Moved(s.table[id], [Failed])])
  }

  ghost predicate IsActRun(s: Engine, acts: seq<Act>)
    decreases |acts|
  {
    acts == [] || (CanAct(s, acts[0]) && IsActRun(NextAct(s, acts[0]), acts[1..]))
  }

  ghost function AfterActs(s: Engine, acts: seq<Act>): Engine
    requires IsActRun(s, acts)
    decreases |acts|
  {
    if acts == [] then s else AfterActs(NextAct(s, acts[0]), acts[1..])
  }

  /** An executor that fails on a node which is done already. */
  ghost predicate LateFailure(s: Engine, a: Act)
  {
    match a
    case Plain(Return(id, o)) => !o.Succeeded? && id in s.table && IsDone(s.table[id].state)
    case StrayReturn(id, o, _, _) => !o.Succeeded? && id in s.table && IsDone(s.table[id].state)
    case _ => false
  }

  ghost predicate NoLateFailure(s: Engine, acts: seq<Act>)
    requires IsActRun(s, acts)
    decreases |acts|
  {
    acts == [] || (!LateFailure(s, acts[0]) && NoLateFailure(NextAct(s, acts[0]), acts[1..]))
  }

  lemma ActCons(s: Engine, a: Act, acts: seq<Act>)
    requires CanAct(s, a) && IsActRun(NextAct(s, a), acts)
    ensures IsActRun(s, [a] + acts) && AfterActs(s, [a] + acts) == AfterActs(NextAct(s, a), acts)
    ensures NoLateFailure(s, [a] + acts) <==> !LateFailure(s, a) && NoLateFailure(NextAct(s, a), acts)
  {
    assert ([a] + acts)[1..] == acts;
  }

  lemma HeadInFront(acts: seq<Act>, more: seq<Act>)
    requires acts != []
    ensures acts + more == [acts[0]] + (acts[1..] + more)
  {}

  lemma {:induction false} ActsConcat(s: Engine, acts: seq<Act>, more: seq<Act>)
    requires IsActRun(s, acts) && IsActRun(AfterActs(s, acts), more)
    ensures IsActRun(s, acts + more) && AfterActs(s, acts + more) == AfterActs(AfterActs(s, acts), more)
    decreases |acts|
  {
    if acts == [] {
      assert acts + more == more;
    } else {
      var rest := acts[1..] + more;
      ActsConcat(NextAct(s, acts[0]), acts[1..], more);
      HeadInFront(acts, more);
      ActCons(s, acts[0], rest);
    }
  }

  /** Without anybody stepping in, every run of EngineRun is one of these, and nothing fails late. */
  lemma {:induction false} PlainRun(s: Engine, es: seq<Event>) returns (acts: seq<Act>)
    requires TasksAccounted(s) && IsRun(s, es)
    ensures IsActRun(s, acts) && AfterActs(s, acts) == After(s, es) && NoLateFailure(s, acts)
    decreases |es|
  {
    if es == [] {
      acts := [];
    } else {
      TasksAfterEvent(s, es[0]);
      var rest := PlainRun(Next(s, es[0]), es[1..]);
      ActCons(s, Plain(es[0]), rest);
      acts := [Plain(es[0])] + rest;
    }
  }

  // ---- What every such run keeps ----

  predicate SameShape(m: NodeSnapshot, n: NodeSnapshot)
  {
    n.id == m.id && n.nodeType == m.nodeType && n.deps == m.deps && n.autoApprove == m.autoApprove
  }

  /** Relative to the initial table t0: the same rows, and SKIPPED exactly where it was. */
  ghost predicate Shaped(t0: Table, t: Table)
  {
    && t.Keys == t0.Keys
    && (forall id :: id in t ==> SameShape(t0[id], t[id]))
    && (forall id :: id in t ==> (t[id].state.Skipped? <==> t0[id].state.Skipped?))
  }

  /** States a node enters only while its dependencies are done. */
  predicate Underway(s: NodeState)
  {
    s.InProgress? || s.Completed? || s.AwaitingApproval? || s.Suspended? || s.Failed?
  }

  /** ... and nothing underway before its dependencies. */
  ghost predicate Orderly(t0: Table, t: Table)
  {
    Shaped(t0, t) && forall id :: id in t && Underway(t[id].state) ==> DepsDone(t, t[id])
  }

  /** No executor works for a SKIPPED node ... */
  ghost predicate Unskipped(s: Engine)
  {
    forall id :: id in s.tasks ==> id in s.table && !s.table[id].state.Skipped?
  }

  /** ... and none before the dependencies of its node are done. */
  ghost predicate InFlight(s: Engine)
  {
    Unskipped(s) && forall id :: id in s.tasks ==> id in s.table && DepsDone(s.table, s.table[id])
  }

  lemma DecisionKeepsOrder(n: NodeSnapshot, depsDone: bool, depFailed: bool, running: nat)
    ensures var n' := Moved(n, Decide(n, depsDone, depFailed, running).path);
      && SameShape(n, n')
      && (n'.state.Skipped? <==> n.state.Skipped?)
      && (IsDone(n.state) ==> n' == n)
      && (Underway(n'.state) ==> depsDone || n' == n)
  {}

  lemma ActKeepsKeys(s: Engine, a: Act)
    requires CanAct(s, a)
    ensures NextAct(s, a).table.Keys == s.table.Keys
  {
    if a.Plain? { KeysUnchanged(s, a.e); }
  }

  lemma PassKeepsRow(s: Engine, order: seq<NodeId>, id: NodeId)
    requires Schedule(s.table, order) && id in s.table
    ensures id in Next(s, Advance(order)).table
    ensures var n, u := s.table[id], Next(s, Advance(order)).table;
      && SameShape(n, u[id]) && (u[id].state.Skipped? <==> n.state.Skipped?)
      && (IsDone(n.state) ==> u[id] == n)
      && (Underway(u[id].state) ==> DepsDone(u, u[id]) || Underway(n.state))
  {
    var n, u := s.table[id], Next(s, Advance(order)).table;
    PassOnRow(s, order, id);
    var depFailed: bool, running: nat :|
      (depFailed ==> !DepsDone(u, u[id])) && u[id] == Moved(n, Decide(n, DepsDone(u, u[id]), depFailed, running).path);
    DecisionKeepsOrder(n, DepsDone(u, u[id]), depFailed, running);
  }

  /** What one act other than a pass may do to a row. */
  ghost predicate KeepsRow(n: NodeSnapshot, n': NodeSnapshot, working: bool, lateFailure: bool)
  {
    && SameShape(n, n') && (n'.state.Skipped? <==> n.state.Skipped?)
    && (IsDone(n.state) && !lateFailure ==> IsDone(n'.state))
    && (Underway(n'.state) ==> Underway(n.state) || working)
  }

  lemma OutcomeKeepsRow(n: NodeSnapshot, o: Outcome, attempts: int, current: bool)
    requires !n.state.Skipped?
    ensures KeepsRow(n, AfterOutcome(n, o), true, !o.Succeeded? && IsDone(n.state))
    ensures KeepsRow(n, AfterStray(n, o, attempts, current), true, !o.Succeeded? && IsDone(n.state))
  {}

  lemma StepInKeepsRow(s: Engine, a: Act, id: NodeId)
    requires CanAct(s, a) && id in s.table
    requires a.Suspend? || a.Resume? || a.Retry? || a.RetryQa? || a.Reset? || a.GiveUp? || (a.Plain? && a.e.Approve?)
    ensures KeepsRow(s.table[id], NextAct(s, a).table[id], false, false)
  {}

  /** One act on one row: what it is, that it is SKIPPED, and, but for late failures, that it is done, stay as
      they were; and it goes underway only with its dependencies done or an executor at work. */
  lemma ActKeepsRow(s: Engine, a: Act, id: NodeId)
    requires Unskipped(s) && CanAct(s, a) && id in s.table
    ensures id in NextAct(s, a).table
    ensures var n, u := s.table[id], NextAct(s, a).table;
      && SameShape(n, u[id]) && (u[id].state.Skipped? <==> n.state.Skipped?)
      && (IsDone(n.state) && !LateFailure(s, a) ==> IsDone(u[id].state))
      && (Underway(u[id].state) ==> DepsDone(u, u[id]) || Underway(n.state) || id in s.tasks)
  {
    match a
    case Plain(Advance(order)) => PassKeepsRow(s, order, id);
    case Plain(Return(x, o)) => OutcomeKeepsRow(s.table[x], o, 0, true);
    case StrayReturn(x, o, attempts, current) => OutcomeKeepsRow(s.table[x], o, attempts, current);
    case _ => StepInKeepsRow(s, a, id);
  }

  lemma LaunchedByPass(s: Engine, order: seq<NodeId>, id: NodeId)
    requires Schedule(s.table, order) && id in Next(s, Advance(order)).tasks && id !in s.tasks
    ensures var u := Next(s, Advance(order)).table; id in u && u[id].state.InProgress? && DepsDone(u, u[id])
  {
    ScheduleInTable(s.table, order);
    PassGuarantees(s.table, order);
    var q := Sweep(Start(s.table), order);
    assert id in multiset(q.launched);
    assert id in Members(q.launched) && id in InProgressNodes(q.table);
  }

  lemma ActKeepsShape(t0: Table, s: Engine, a: Act)
    requires CanAct(s, a) && Shaped(t0, s.table) && Unskipped(s)
    ensures Shaped(t0, NextAct(s, a).table) && Unskipped(NextAct(s, a))
  {
    var s' := NextAct(s, a);
    ActKeepsKeys(s, a);
    forall id | id in s'.table
      ensures SameShape(t0[id], s'.table[id]) && (s'.table[id].state.Skipped? <==> t0[id].state.Skipped?)
    {
      ActKeepsRow(s, a, id);
    }
    forall id | id in s'.tasks ensures id in s'.table && !s'.table[id].state.Skipped? {
      if id in s.tasks { ActKeepsRow(s, a, id); } else { LaunchedByPass(s, a.e.order, id); }
    }
  }

  lemma DepsStayDone(s: Engine, a: Act, id: NodeId)
    requires Unskipped(s) && CanAct(s, a) && !LateFailure(s, a) && id in s.table && DepsDone(s.table, s.table[id])
    ensures id in NextAct(s, a).table && DepsDone(NextAct(s, a).table, NextAct(s, a).table[id])
  {
    var u := NextAct(s, a).table;
    ActKeepsKeys(s, a);
    ActKeepsRow(s, a, id);
    forall d | d in u[id].deps && d in u ensures IsDone(u[d].state) {
      ActKeepsRow(s, a, d);
    }
  }

  lemma ActKeepsOrder(t0: Table, s: Engine, a: Act)
    requires CanAct(s, a) && Orderly(t0, s.table) && InFlight(s) && !LateFailure(s, a)
    ensures Orderly(t0, NextAct(s, a).table) && InFlight(NextAct(s, a))
  {
    var s' := NextAct(s, a);
    var u := s'.table;
    ActKeepsShape(t0, s, a);
    forall id | id in u && Underway(u[id].state) ensures DepsDone(u, u[id]) {
      ActKeepsRow(s, a, id);
      if Underway(s.table[id].state) || id in s.tasks { DepsStayDone(s, a, id); }
    }
    forall id | id in s'.tasks ensures id in u && DepsDone(u, u[id]) {
      if id in s.tasks { DepsStayDone(s, a, id); } else { LaunchedByPass(s, a.e.order, id); }
    }
  }

  /** In every run without late failures, whoever steps in, the rows stay orderly. */
  lemma {:induction false} RunsAreOrderly(t0: Table, s: Engine, acts: seq<Act>)
    requires Orderly(t0, s.table) && InFlight(s) && IsActRun(s, acts) && NoLateFailure(s, acts)
    ensures Orderly(t0, AfterActs(s, acts).table) && InFlight(AfterActs(s, acts))
    decreases |acts|
  {
    if acts != [] {
      ActKeepsOrder(t0, s, acts[0]);
      RunsAreOrderly(t0, NextAct(s, acts[0]), acts[1..]);
    }
  }

  /** In every run at all the rows keep their shape. */
  lemma {:induction false} RunsAreShaped(t0: Table, s: Engine, acts: seq<Act>)
    requires Shaped(t0, s.table) && Unskipped(s) && IsActRun(s, acts)
    ensures Shaped(t0, AfterActs(s, acts).table)
    decreases |acts|
  {
    if acts != [] {
      ActKeepsShape(t0, s, acts[0]);
      RunsAreShaped(t0, NextAct(s, acts[0]), acts[1..]);
    }
  }

  lemma AccountedIsInFlight(t0: Table, s: Engine)
    requires Orderly(t0, s.table) && TasksAccounted(s)
    ensures InFlight(s)
  {}
}

/** Executors that fail after another one has completed their node (engine/core/dag_advancer.py:326-336 after
    api/server.py:3006-3054): with them no DAG with two phases of work keeps its phases in order. */
module LateFailures {
  import opened Graph
  import opened StateMachine
  import opened Nodes
  import opened AdvancePass
  import opened Outcomes
  import opened EngineRun
  import opened Interventions
  import opened Intake
  import opened CompiledGraph
  import opened PhaseOrder

  // ---- A run in which every executor succeeds ----

  predicate GoingWell(n: NodeSnapshot)
  {
    match n.state
    case NotStarted | Ready | Blocked | InProgress | Completed | Skipped => true
    case AwaitingApproval => n.nodeType.Gate?
    case _ => false
  }

  ghost predicate AllWell(t: Table)
  {
    forall id :: id in t ==> GoingWell(t[id])
  }

  /** Beside the stray executors every node in progress has one of its own. */
  ghost predicate Staffed(t: Table, tasks: multiset<NodeId>, stray: multiset<NodeId>)
  {
    forall id :: stray[id] <= tasks[id] && (id in t && t[id].state.InProgress? ==> stray[id] < tasks[id])
  }

  ghost predicate Cooperative(t0: Table, s: Engine, stray: multiset<NodeId>)
  {
    Orderly(t0, s.table) && InFlight(s) && AllWell(s.table) && Staffed(s.table, s.tasks, stray)
  }

  lemma StaffedAfterChange(t: Table, tasks: multiset<NodeId>, stray: multiset<NodeId>, id: NodeId, n: NodeSnapshot)
    requires Staffed(t, tasks, stray) && !n.state.InProgress?
    ensures Staffed(t[id := n], tasks, stray)
  {}

  lemma StaffedAfterReturn(t: Table, tasks: multiset<NodeId>, stray: multiset<NodeId>, id: NodeId, n: NodeSnapshot)
    requires Staffed(t, tasks, stray) && id in t && t[id].state.InProgress? && !n.state.InProgress?
    ensures id in tasks && Staffed(t[id := n], tasks - multiset{id}, stray)
  {
    assert stray[id] < tasks[id];
    forall x ensures stray[x] <= (tasks - multiset{id})[x] { assert stray[x] <= tasks[x]; }
  }

  ghost function NotDone(t: Table): set<NodeId>
  {
    set id | id in t && !IsDone(t[id].state)
  }

  lemma DecisionGoesWell(n: NodeSnapshot, depsDone: bool, depFailed: bool, running: nat)
    requires GoingWell(n)
    ensures var n' := Moved(n, Decide(n, depsDone, depFailed, running).path);
      GoingWell(n') && (n'.state.Completed? && !n.nodeType.Gate? ==> n.state.Completed?)
  {}

  lemma PassOnGoodRow(s: Engine, order: seq<NodeId>, id: NodeId)
    requires Schedule(s.table, order) && id in s.table && GoingWell(s.table[id])
    ensures id in Next(s, Advance(order)).table
    ensures var n, n' := s.table[id], Next(s, Advance(order)).table[id];
      GoingWell(n') && (n'.state.Completed? && !n.nodeType.Gate? ==> n.state.Completed?)
  {
    var n, u := s.table[id], Next(s, Advance(order)).table;
    PassOnRow(s, order, id);
    var depFailed: bool, running: nat :|
      (depFailed ==> !DepsDone(u, u[id])) && u[id] == Moved(n, Decide(n, DepsDone(u, u[id]), depFailed, running).path);
    DecisionGoesWell(n, DepsDone(u, u[id]), depFailed, running);
  }

  lemma PassLaunches(s: Engine, order: seq<NodeId>, id: NodeId)
    requires Schedule(s.table, order)
    ensures var s' := Next(s, Advance(order));
      && s.tasks[id] <= s'.tasks[id]
      && (id in s'.table && s'.table[id].state.InProgress? ==>
          (id in s.table && s.table[id].state.InProgress?) || s.tasks[id] < s'.tasks[id])
  {
    ScheduleInTable(s.table, order);
    PassGuarantees(s.table, order);
    var q := Sweep(Start(s.table), order);
    if id in q.table && q.table[id].state.InProgress? {
      assert id in InProgressNodes(q.table);
      assert id in InProgressNodes(s.table) || id in Members(q.launched);
      assert id in multiset(q.launched) <==> id in q.launched;
    }
  }

  lemma PassKeepsCooperative(t0: Table, s: Engine, stray: multiset<NodeId>, order: seq<NodeId>)
    requires Cooperative(t0, s, stray) && Schedule(s.table, order)
    ensures Cooperative(t0, Next(s, Advance(order)), stray)
    ensures NotDone(Next(s, Advance(order)).table) <= NotDone(s.table)
  {
    var s' := Next(s, Advance(order));
    ActKeepsOrder(t0, s, Plain(Advance(order)));
    KeysUnchanged(s, Advance(order));
    forall id
      ensures stray[id] <= s'.tasks[id]
      ensures id in s'.table && s'.table[id].state.InProgress? ==> stray[id] < s'.tasks[id]
    {
      PassLaunches(s, order, id);
    }
    forall id | id in s'.table ensures GoingWell(s'.table[id]) && (id in NotDone(s'.table) ==> id in NotDone(s.table)) {
      PassOnGoodRow(s, order, id);
      PassKeepsRow(s, order, id);
    }
  }

  lemma SuccessKeepsCooperative(t0: Table, s: Engine, stray: multiset<NodeId>, id: NodeId)
    requires Cooperative(t0, s, stray) && id in s.table && s.table[id].state.InProgress?
    ensures Enabled(s, Return(id, Succeeded)) && Cooperative(t0, Next(s, Return(id, Succeeded)), stray)
    ensures NotDone(Next(s, Return(id, Succeeded)).table) < NotDone(s.table)
  {
    StaffedAfterReturn(s.table, s.tasks, stray, id, AfterOutcome(s.table[id], Succeeded));
    ActKeepsOrder(t0, s, Plain(Return(id, Succeeded)));
    OneMoreDone(s.table, id, AfterOutcome(s.table[id], Succeeded));
  }

  lemma OneMoreDone(t: Table, id: NodeId, n: NodeSnapshot)
    requires id in t && !IsDone(t[id].state) && n.state.Completed? && AllWell(t)
    ensures NotDone(t[id := n]) < NotDone(t) && AllWell(t[id := n])
  {
    assert id in NotDone(t) && id !in NotDone(t[id := n]);
  }

  lemma ApprovalKeepsCooperative(t0: Table, s: Engine, stray: multiset<NodeId>, id: NodeId)
    requires Cooperative(t0, s, stray) && id in s.table && s.table[id].state.AwaitingApproval?
    ensures Enabled(s, Approve(id)) && Cooperative(t0, Next(s, Approve(id)), stray)
    ensures NotDone(Next(s, Approve(id)).table) < NotDone(s.table)
  {
    var n := Moved(s.table[id], [Completed]);
    StaffedAfterChange(s.table, s.tasks, stray, id, n);
    ActKeepsOrder(t0, s, Plain(Approve(id)));
    OneMoreDone(s.table, id, n);
  }

  lemma NothingGivesUp(n: NodeSnapshot)
    requires GoingWell(n) && WaitsForSomething(n)
    ensures n.state.InProgress? || n.state.AwaitingApproval?
  {}

  /** A node that is neither a gate nor done yet. */
  ghost predicate Pending(t: Table, id: NodeId)
  {
    id in t && !IsDone(t[id].state) && !t[id].nodeType.Gate?
  }

  lemma SomebodyWaits(t: Table, target: NodeId) returns (id: NodeId)
    requires AllWell(t) && Pending(t, target)
    requires (exists x :: x in t && WaitsForSomething(t[x])) || (forall x :: x in t ==> IsDone(t[x].state))
    ensures id in t && (t[id].state.InProgress? || t[id].state.AwaitingApproval?)
  {
    assert !IsDone(t[target].state);
    id :| id in t && WaitsForSomething(t[id]);
    NothingGivesUp(t[id]);
  }

  /** After a pass something runs or waits for approval until everything is done. */
  lemma SomethingToDo(t0: Table, s: Engine, stray: multiset<NodeId>, order: seq<NodeId>, target: NodeId)
    returns (id: NodeId)
    requires Cooperative(t0, s, stray) && Schedule(s.table, order)
    requires Pending(Next(s, Advance(order)).table, target)
    ensures var u := Next(s, Advance(order)).table;
      id in u && (u[id].state.InProgress? || u[id].state.AwaitingApproval?)
  {
    PassKeepsCooperative(t0, s, stray, order);
    ScheduleInTable(s.table, order);
    NoSilentStall(s.table, order);
    var u := Sweep(Start(s.table), order).table;
    id := SomebodyWaits(u, target);
  }

  lemma PassKeepsPending(t0: Table, s: Engine, stray: multiset<NodeId>, order: seq<NodeId>, id: NodeId)
    requires Cooperative(t0, s, stray) && Schedule(s.table, order) && Pending(s.table, id)
    ensures Pending(Next(s, Advance(order)).table, id)
  {
    PassOnGoodRow(s, order, id);
    PassKeepsRow(s, order, id);
  }

  /** One step towards the end that leaves a node alone which is not running. */
  lemma Cooperate(t0: Table, s: Engine, stray: multiset<NodeId>, id: NodeId, target: NodeId) returns (e: Event)
    requires Cooperative(t0, s, stray) && Pending(s.table, target) && !s.table[target].state.InProgress?
    requires id in s.table && (s.table[id].state.InProgress? || s.table[id].state.AwaitingApproval?)
    ensures Enabled(s, e) && Cooperative(t0, Next(s, e), stray) && Pending(Next(s, e).table, target)
    ensures NotDone(Next(s, e).table) < NotDone(s.table)
  {
    if s.table[id].state.InProgress? {
      e := Return(id, Succeeded);
      SuccessKeepsCooperative(t0, s, stray, id);
    } else {
      assert GoingWell(s.table[id]);
      e := Approve(id);
      ApprovalKeepsCooperative(t0, s, stray, id);
    }
  }

  /** Pass, let a running executor succeed or approve a waiting gate, and repeat: this launches any node in turn. */
  lemma {:induction false} RunUntilStarted(t0: Table, s: Engine, stray: multiset<NodeId>, target: NodeId,
                                           order: seq<NodeId>)
    returns (acts: seq<Act>)
    requires Schedule(t0, order) && Cooperative(t0, s, stray) && Pending(s.table, target)
    ensures IsActRun(s, acts) && Cooperative(t0, AfterActs(s, acts), stray)
    ensures target in AfterActs(s, acts).table && AfterActs(s, acts).table[target].state.InProgress?
    decreases NotDone(s.table)
  {
    SameScheduleForAll(t0, s.table, order);
    var s1 := Next(s, Advance(order));
    PassKeepsCooperative(t0, s, stray, order);
    PassKeepsPending(t0, s, stray, order, target);
    if s1.table[target].state.InProgress? {
      acts := [];
    } else {
      var id := SomethingToDo(t0, s, stray, order, target);
      var e := Cooperate(t0, s1, stray, id, target);
      acts := RunUntilStarted(t0, Next(s1, e), stray, target, order);
      ActCons(s1, Plain(e), acts);
      acts := [Plain(e)] + acts;
    }
    ActCons(s, Plain(Advance(order)), acts);
    acts := [Plain(Advance(order))] + acts;
  }

  // ---- The late failure ----

  lemma StaffedAfterSuspension(t: Table, tasks: multiset<NodeId>, id: NodeId, n: NodeSnapshot)
    requires Staffed(t, tasks, multiset{}) && id in t && t[id].state.InProgress? && !n.state.InProgress?
    ensures Staffed(t[id := n], tasks, multiset{id})
  {
    assert multiset{}[id] < tasks[id];
  }

  lemma SuspendedAndResumed(s: Engine, id: NodeId) returns (acts: seq<Act>, n: NodeSnapshot)
    requires id in s.table && s.table[id].state.InProgress?
    ensures n.state.Ready? && IsActRun(s, acts) && NoLateFailure(s, acts)
    ensures AfterActs(s, acts) == Engine(s.table[id := n], s.tasks)
  {
    var s1 := NextAct(s, Suspend(id));
    n := Moved(s1.table[id], [Ready]);
    ActCons(s1, Resume(id), []);
    ActCons(s, Suspend(id), [Resume(id)] + []);
    acts := [Suspend(id)] + ([Resume(id)] + []);
  }

  /** Suspending and resuming a running node leaves its executor at work beside the next one. */
  lemma SuspendAndResume(t0: Table, s: Engine, id: NodeId) returns (acts: seq<Act>)
    requires Cooperative(t0, s, multiset{}) && id in s.table && s.table[id].state.InProgress?
    ensures IsActRun(s, acts) && Cooperative(t0, AfterActs(s, acts), multiset{id})
    ensures id in AfterActs(s, acts).table && AfterActs(s, acts).table[id].state.Ready?
  {
    var n;
    acts, n := SuspendedAndResumed(s, id);
    RunsAreOrderly(t0, s, acts);
    StaffedAfterSuspension(s.table, s.tasks, id, n);
    assert AllWell(s.table[id := n]);
  }

  lemma FreshIsCooperative(c: Plan, t0: Table)
    requires c.Valid() && Loaded(c, t0)
    ensures Cooperative(t0, Engine(t0, multiset{}), multiset{})
  {
    FreshIsOrderly(c, t0);
    forall id | id in t0 ensures GoingWell(t0[id]) && !t0[id].state.InProgress? {
      FreshRow(c, t0, id);
    }
  }

  /** A suspended node of an earlier phase breaks the order behind a TASK that has started. */
  lemma SuspensionUndoes(c: Plan, t: Table, early: nat, late: nat, n: NodeSnapshot)
    requires early < |c.specs| && late < |c.specs| && c.specs[early].phase < c.specs[late].phase
    requires TaskStarted(t, late) && n.state.Suspended?
    ensures !PhasesInOrder(c, t[TaskId(early) := n])
  {
    var u := t[TaskId(early) := n];
    assert TaskStarted(u, late) && !SpecDone(u, early);
  }

  lemma LimitUndoes(c: Plan, s: Engine, early: nat, late: nat) returns (acts: seq<Act>)
    requires early < |c.specs| && late < |c.specs| && c.specs[early].phase < c.specs[late].phase
    requires TaskId(early) in s.table && TaskId(early) in s.tasks && TaskStarted(s.table, late)
    ensures IsActRun(s, acts) && !PhasesInOrder(c, AfterActs(s, acts).table)
  {
    var limit := Plain(Return(TaskId(early), ApiLimited));
    SuspensionUndoes(c, s.table, early, late, AfterOutcome(s.table[TaskId(early)], ApiLimited));
    ActCons(s, limit, []);
    acts := [limit] + [];
  }

  /** Run until an early TASK starts, and suspend and resume it. */
  lemma ReachStray(c: Plan, t0: Table, early: nat, order: seq<NodeId>) returns (acts: seq<Act>)
    requires c.Valid() && Loaded(c, t0) && Schedule(t0, order) && early < |c.specs| && c.specs[early].applicable
    ensures IsActRun(Engine(t0, multiset{}), acts)
    ensures var s := AfterActs(Engine(t0, multiset{}), acts);
      && Cooperative(t0, s, multiset{TaskId(early)})
      && TaskId(early) in s.table && s.table[TaskId(early)].state.Ready?
  {
    var s0 := Engine(t0, multiset{});
    FreshIsCooperative(c, t0);
    FreshIsPending(c, t0, early);
    var start := RunUntilStarted(t0, s0, multiset{}, TaskId(early), order);
    var again := SuspendAndResume(t0, AfterActs(s0, start), TaskId(early));
    ActsConcat(s0, start, again);
    acts := start + again;
  }

  /** Run on until a late TASK starts, and let the first executor of the early one hit the API limit. */
  lemma StrayBreaksTheOrder(c: Plan, t0: Table, s: Engine, early: nat, late: nat, order: seq<NodeId>)
    returns (acts: seq<Act>)
    requires Schedule(t0, order) && early < |c.specs| && late < |c.specs| && c.specs[early].phase < c.specs[late].phase
    requires Cooperative(t0, s, multiset{TaskId(early)}) && Pending(s.table, TaskId(late))
    ensures IsActRun(s, acts) && !PhasesInOrder(c, AfterActs(s, acts).table)
  {
    var on := RunUntilStarted(t0, s, multiset{TaskId(early)}, TaskId(late), order);
    var s1 := AfterActs(s, on);
    assert multiset{TaskId(early)}[TaskId(early)] <= s1.tasks[TaskId(early)];
    var limit := LimitUndoes(c, s1, early, late);
    ActsConcat(s, on, limit);
    acts := on + limit;
  }

  lemma LateFailureBreaksTheOrder(c: Plan, t0: Table, early: nat, late: nat, order: seq<NodeId>)
    returns (acts: seq<Act>)
    requires c.Valid() && Loaded(c, t0) && Schedule(t0, order) && !HollowPhase(c.specs)
    requires early < |c.specs| && late < |c.specs| && c.specs[early].phase < c.specs[late].phase
    requires c.specs[early].applicable && c.specs[late].applicable
    ensures IsActRun(Engine(t0, multiset{}), acts) && !PhasesInOrder(c, AfterActs(Engine(t0, multiset{}), acts).table)
  {
    var s0 := Engine(t0, multiset{});
    var first := ReachStray(c, t0, early, order);
    var s1 := AfterActs(s0, first);
    NotYetStarted(c, t0, s1.table, early, late);
    var second := StrayBreaksTheOrder(c, t0, s1, early, late, order);
    ActsConcat(s0, first, second);
    acts := first + second;
  }

  lemma FreshIsPending(c: Plan, t0: Table, i: nat)
    requires c.Valid() && Loaded(c, t0) && i < |c.specs| && c.specs[i].applicable
    ensures Pending(t0, TaskId(i))
  {
    FreshIsOrderly(c, t0);
    SpecRows(c, t0, t0, i);
    FreshRow(c, t0, TaskId(i));
  }

  /** While the early TASK is not done, the late one has not started. */
  lemma NotYetStarted(c: Plan, t0: Table, t: Table, early: nat, late: nat)
    requires c.Valid() && Loaded(c, t0) && Orderly(t0, t) && !HollowPhase(c.specs)
    requires early < |c.specs| && late < |c.specs| && c.specs[early].phase < c.specs[late].phase
    requires TaskId(early) in t && !IsDone(t[TaskId(early)].state) && c.specs[late].applicable
    ensures Pending(t, TaskId(late))
  {
    SpecRows(c, t0, t, late);
    OrderlyWithoutHollowPhase(c, t0, t);
    assert TaskStarted(t, late) ==> SpecDone(t, early);
  }

  // ---- The exact condition ----

  /** Every run at all, late failures included, keeps the phase order. */
  ghost predicate AnyRunInOrder(c: Plan, t0: Table)
  {
    forall acts: seq<Act> :: IsActRun(Engine(t0, multiset{}), acts) ==>
      PhasesInOrder(c, AfterActs(Engine(t0, multiset{}), acts).table)
  }

  ghost predicate WorkInTwoPhases(specs: seq<Spec>)
  {
    exists p: Phase, q: Phase :: p < q && HasWork(specs, p) && HasWork(specs, q)
  }

  lemma OnePhaseIsInOrder(c: Plan, t0: Table, t: Table)
    requires c.Valid() && Loaded(c, t0) && Shaped(t0, t) && !WorkInTwoPhases(c.specs)
    ensures PhasesInOrder(c, t)
  {
    forall i, j | 0 <= i < |c.specs| && 0 <= j < |c.specs| && c.specs[i].phase < c.specs[j].phase && TaskStarted(t, j)
      ensures SpecDone(t, i)
    {
      SpecRows(c, t0, t, i);
      SpecRows(c, t0, t, j);
      assert HasWork(c.specs, c.specs[j].phase);
      assert !HasWork(c.specs, c.specs[i].phase);
    }
  }

  /** Once an executor may fail after its node is completed, the order is kept in every run only by DAGs that
      have nothing to order: those with work in at most one phase. */
  lemma LateFailuresExactly(c: Plan, t0: Table)
    requires c.Valid() && c.OrderlyDeps() && Loaded(c, t0)
    ensures AnyRunInOrder(c, t0) <==> !WorkInTwoPhases(c.specs)
  {
    var s := Engine(t0, multiset{});
    if !WorkInTwoPhases(c.specs) {
      forall acts: seq<Act> | IsActRun(s, acts) ensures PhasesInOrder(c, AfterActs(s, acts).table) {
        FreshIsOrderly(c, t0);
        RunsAreShaped(t0, s, acts);
        OnePhaseIsInOrder(c, t0, AfterActs(s, acts).table);
      }
    } else if HollowPhase(c.specs) {
      PhaseOrderExactly(c, t0);
    } else {
      var p: Phase, q: Phase :| p < q && HasWork(c.specs, p) && HasWork(c.specs, q);
      var early :| 0 <= early < |c.specs| && c.specs[early].phase == p && c.specs[early].applicable;
      var late :| 0 <= late < |c.specs| && c.specs[late].phase == q && c.specs[late].applicable;
      var order := LoadedHasSchedule(c, t0);
      var acts := LateFailureBreaksTheOrder(c, t0, early, late, order);
    }
  }
}

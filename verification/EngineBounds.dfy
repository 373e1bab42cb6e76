/** Bounds over whole runs: the cap on concurrent nodes, and approval of gates
    (engine/core/dag_advancer.py:219-416). */
module EngineBounds {
  import opened Graph
  import opened Nodes
  import opened StateMachine
  import opened AdvancePass
  import opened Outcomes
  import opened EngineRun
  import opened Interventions
  import opened PassReports

  // ---- The cap ----

  /** No node has failed that the next pass would retry on its own. */
  ghost predicate NothingToRetry(t: Table)
  {
    forall id :: id in t ==> !RetriesLeft(t[id])
  }

  /** A failed executor returns its node to READY or uses up its retries, so a run never gets a node to retry. */
  lemma EventLeavesNothingToRetry(s: Engine, e: Event)
    requires TasksAccounted(s) && Enabled(s, e) && NothingToRetry(s.table)
    ensures NothingToRetry(Next(s, e).table)
  {
    match e
    case Advance(order) =>
      KeysUnchanged(s, e);
      forall id | id in Next(s, e).table ensures !RetriesLeft(Next(s, e).table[id]) {
        GateAfterPass(s.table, order, id);
      }
    case Return(x, o) => OutcomeOfRunningNode(s.table[x], o);
    case Approve(x) =>
  }

  lemma {:induction false} EveryLaunchIsCounted(t: Table, launched: seq<NodeId>)
    requires forall id :: id in launched ==> id in t && !t[id].state.Failed?
    ensures FreshLaunches(t, launched) == |launched|
  {
    if launched != [] { EveryLaunchIsCounted(t, launched[..|launched| - 1]); }
  }

  /** In a pass with nothing to retry the cap holds for all launches together. */
  lemma PassKeepsCap(t: Table, order: seq<NodeId>)
    requires Schedule(t, order) && NothingToRetry(t)
    ensures forall id :: id in order ==> id in t
    ensures var q := Sweep(Start(t), order);
      && FreshLaunches(t, q.launched) == |q.launched|
      && |InProgressNodes(q.table)| == |InProgressNodes(t)| + |q.launched| <= Max(5, |InProgressNodes(t)|)
  {
    PassGuarantees(t, order);
    var q := Sweep(Start(t), order);
    forall id | id in q.launched ensures id in t && !t[id].state.Failed? {}
    EveryLaunchIsCounted(t, q.launched);
    SizeOfMembers(q.launched);
  }

  lemma EventKeepsCap(s: Engine, e: Event, cap: nat)
    requires TasksAccounted(s) && Enabled(s, e) && NothingToRetry(s.table)
    requires |InProgressNodes(s.table)| <= cap && cap >= 5
    ensures |InProgressNodes(Next(s, e).table)| <= cap
  {
    match e
    case Advance(order) => PassKeepsCap(s.table, order);
    case Return(_, _) => SubsetIsSmaller(InProgressNodes(Next(s, e).table), InProgressNodes(s.table));
    case Approve(_) => SubsetIsSmaller(InProgressNodes(Next(s, e).table), InProgressNodes(s.table));
  }

  lemma {:induction false} CapFrom(s: Engine, es: seq<Event>, cap: nat)
    requires TasksAccounted(s) && NothingToRetry(s.table) && IsRun(s, es)
    requires |InProgressNodes(s.table)| <= cap && cap >= 5
    ensures NothingToRetry(After(s, es).table) && |InProgressNodes(After(s, es).table)| <= cap
    decreases |es|
  {
    if es != [] {
      TasksAfterEvent(s, es[0]);
      EventLeavesNothingToRetry(s, es[0]);
      EventKeepsCap(s, es[0], cap);
      CapFrom(Next(s, es[0]), es[1..], cap);
    }
  }

  /** From a state without a node to retry, no run ever comes to one; so at every moment of every run at most five
      nodes are in progress, or as many as there were at the start. */
  lemma CapInEveryRun(s: Engine, es: seq<Event>)
    requires TasksAccounted(s) && NothingToRetry(s.table) && IsRun(s, es)
    ensures NothingToRetry(After(s, es).table)
    ensures |InProgressNodes(After(s, es).table)| <= Max(5, |InProgressNodes(s.table)|)
  {
    CapFrom(s, es, Max(5, |InProgressNodes(s.table)|));
  }

  lemma DecidedRow(t: Table, order: seq<NodeId>, id: NodeId) returns (depFailed: bool, running: nat)
    requires Schedule(t, order) && id in t
    ensures forall x :: x in order ==> x in t
    ensures id in Sweep(Start(t), order).table
    ensures var u := Sweep(Start(t), order).table;
      && u.Keys == t.Keys && u[id].deps == t[id].deps && (depFailed ==> !DepsDone(u, u[id]))
      && u[id] == Moved(t[id], Decide(t[id], DepsDone(u, u[id]), depFailed, running).path)
  {
    PassGuarantees(t, order);
    var u := Sweep(Start(t), order).table;
    DecidedEvolves(u, t[id], u[id]);
    depFailed, running :|
      && (depFailed ==> !DepsDone(u, u[id]))
      && u[id] == Moved(t[id], Decide(t[id], DepsDone(u, u[id]), depFailed, running).path);
  }

  lemma FailedIsRelaunched(t: Table, order: seq<NodeId>, id: NodeId)
    requires Schedule(t, order) && id in t && RetriesLeft(t[id])
    ensures forall x :: x in order ==> x in t
    ensures var u := Sweep(Start(t), order).table;
      u.Keys == t.Keys && u[id].deps == t[id].deps && (DepsDone(u, u[id]) ==> u[id].state.InProgress?)
  {
    var depFailed, running := DecidedRow(t, order, id);
  }

  lemma SameKeys(t: Table, order: seq<NodeId>)
    requires Schedule(t, order)
    ensures forall x :: x in order ==> x in t
    ensures Sweep(Start(t), order).table.Keys == t.Keys
  {
    PassGuarantees(t, order);
  }

  /** Without that proviso there is no cap: a pass puts all failed nodes with retries left and nothing to wait for
      in progress at once, however many they are. */
  lemma RetriesPassTheCap(t: Table, order: seq<NodeId>)
    requires Schedule(t, order) && forall id :: id in t ==> RetriesLeft(t[id]) && t[id].deps == []
    ensures forall id :: id in order ==> id in t
    ensures InProgressNodes(t) == {} && InProgressNodes(Sweep(Start(t), order).table) == t.Keys
  {
    forall x | x in order ensures x in t { assert x in Members(order); }
    SameKeys(t, order);
    forall id | id in t ensures id in InProgressNodes(Sweep(Start(t), order).table) {
      FailedIsRelaunched(t, order, id);
    }
  }

  // ---- Approval ----

  /** A gate that only a person can open: no automatic approval, not COMPLETED, nobody at work for it, and not
      FAILED with retries left. */
  ghost predicate Closed(s: Engine, id: NodeId)
  {
    && id in s.table && s.table[id].nodeType.Gate? && !s.table[id].autoApprove
    && !s.table[id].state.Completed? && id !in s.tasks && !RetriesLeft(s.table[id])
  }

  lemma EventKeepsClosed(s: Engine, e: Event, id: NodeId)
    requires Closed(s, id) && Enabled(s, e) && e != Approve(id)
    ensures Closed(Next(s, e), id)
  {
    KeysUnchanged(s, e);
    match e
    case Advance(order) =>
      GateAfterPass(s.table, order, id);
      PassGuarantees(s.table, order);
      var q := Sweep(Start(s.table), order);
      assert id in q.launched ==> id in Members(q.launched) && id in InProgressNodes(q.table);
    case Return(_, _) =>
    case Approve(_) =>
  }

  /** In every run, a gate without automatic approval is completed only after somebody has approved it. */
  lemma {:induction false} GateNeedsApproval(s: Engine, es: seq<Event>, id: NodeId)
    requires Closed(s, id) && IsRun(s, es)
    ensures id in After(s, es).table
    ensures After(s, es).table[id].state.Completed? ==> Approve(id) in es
    decreases |es|
  {
    if es != [] && es[0] != Approve(id) {
      EventKeepsClosed(s, es[0], id);
      GateNeedsApproval(Next(s, es[0]), es[1..], id);
    } else if es != [] {
      KeysKept(s, es);
    }
  }

  lemma {:induction false} KeysKept(s: Engine, es: seq<Event>)
    requires IsRun(s, es)
    ensures After(s, es).table.Keys == s.table.Keys
    decreases |es|
  {
    if es != [] {
      KeysUnchanged(s, es[0]);
      KeysKept(Next(s, es[0]), es[1..]);
    }
  }

  /** The one exception: a gate that is FAILED with retries left is handed to an executor like any failed node,
      and the executor's success completes it without approval. */
  lemma FailedGateNeedsNobody(s: Engine, order: seq<NodeId>, id: NodeId) returns (es: seq<Event>)
    requires Schedule(s.table, order) && id in s.table && s.table[id].nodeType.Gate? && !s.table[id].autoApprove
    requires RetriesLeft(s.table[id]) && DepsDone(s.table, s.table[id])
    ensures IsRun(s, es) && Approve(id) !in es
    ensures id in After(s, es).table && After(s, es).table[id].state.Completed?
  {
    var s1 := Next(s, Advance(order));
    FailedDepsStayDone(s, order, id);
    LaunchedTask(s, order, id);
    RunCons(s1, Return(id, Succeeded), []);
    RunCons(s, Advance(order), [Return(id, Succeeded)] + []);
    es := [Advance(order)] + ([Return(id, Succeeded)] + []);
  }

  lemma FailedDepsStayDone(s: Engine, order: seq<NodeId>, id: NodeId)
    requires Schedule(s.table, order) && id in s.table && RetriesLeft(s.table[id]) && DepsDone(s.table, s.table[id])
    ensures var u := Next(s, Advance(order)).table; id in u && u[id].state.InProgress?
  {
    var u := Next(s, Advance(order)).table;
    ScheduleInTable(s.table, order);
    FailedIsRelaunched(s.table, order, id);
    forall d | d in u[id].deps && d in u ensures IsDone(u[d].state) {
      DoneStaysDone(s.table, order, d);
    }
  }

  lemma LaunchedTask(s: Engine, order: seq<NodeId>, id: NodeId)
    requires Schedule(s.table, order) && id in s.table && !s.table[id].state.InProgress?
    requires id in Next(s, Advance(order)).table && Next(s, Advance(order)).table[id].state.InProgress?
    ensures id in Next(s, Advance(order)).tasks
  {
    ScheduleInTable(s.table, order);
    PassGuarantees(s.table, order);
    var q := Sweep(Start(s.table), order);
    assert id in InProgressNodes(q.table) && id !in InProgressNodes(s.table);
    assert id in Members(q.launched);
  }

  lemma DoneStaysDone(t: Table, order: seq<NodeId>, id: NodeId)
    requires Schedule(t, order) && id in t && IsDone(t[id].state)
    ensures forall x :: x in order ==> x in t
    ensures id in Sweep(Start(t), order).table && IsDone(Sweep(Start(t), order).table[id].state)
  {
    var depFailed, running := DecidedRow(t, order, id);
  }

  // ---- What stepping in achieves ----

  /** A node that is to run: with its dependencies done the pass launches it, or leaves it READY because five nodes
      are in progress; without, it waits. */
  ghost predicate TakenUp(t: Table, id: NodeId)
  {
    && id in t
    && (if DepsDone(t, t[id]) then t[id].state.InProgress? || (t[id].state.Ready? && |InProgressNodes(t)| >= 5)
        else t[id].state.Blocked?)
  }

  lemma DecisionTakesUp(n: NodeSnapshot, depsDone: bool, depFailed: bool, running: nat)
    requires !n.nodeType.Gate? && (n.state.NotStarted? || n.state.Ready?) && (depFailed ==> !depsDone)
    ensures var n' := Moved(n, Decide(n, depsDone, depFailed, running).path);
      n'.retryCount == n.retryCount && if depsDone then n'.state.InProgress? || n'.state.Ready? else n'.state.Blocked?
  {}

  lemma PassTakesUp(t: Table, order: seq<NodeId>, id: NodeId)
    requires Schedule(t, order) && id in t && !t[id].nodeType.Gate? && (t[id].state.NotStarted? || t[id].state.Ready?)
    ensures forall x :: x in order ==> x in t
    ensures TakenUp(Sweep(Start(t), order).table, id)
    ensures id in Sweep(Start(t), order).table && Sweep(Start(t), order).table[id].retryCount == t[id].retryCount
  {
    var depFailed, running := DecidedRow(t, order, id);
    var u := Sweep(Start(t), order).table;
    DecisionTakesUp(t[id], DepsDone(u, u[id]), depFailed, running);
    PassSettles(t, order, id);
  }

  lemma PassSettles(t: Table, order: seq<NodeId>, id: NodeId)
    requires Schedule(t, order) && id in t
    ensures forall x :: x in order ==> x in t
    ensures var u := Sweep(Start(t), order).table; SettledIn(u, id, |InProgressNodes(u)|)
  {
    PassGuarantees(t, order);
  }

  /** The node an act sets going again, with the attempts counted so far. */
  predicate SetsGoing(a: Act, id: NodeId, counted: int, before: int)
  {
    match a
    case Resume(x) => x == id && counted == before
    case Retry(x) => x == id && counted == 0
    case Reset(x, attempts) => x == id && counted == attempts
    case RetryQa(_, qa) => qa == id && counted == 0
    case _ => false
  }

  /** Resuming, retrying or resetting a TASK or QA node, and retrying the QA node of a TASK, make the next pass take
      it up; a retry gives it all its attempts back, a resumption leaves them as they were. */
  lemma SteppingInSetsGoing(s: Engine, a: Act, id: NodeId, counted: int, order: seq<NodeId>)
    requires CanAct(s, a) && id in s.table && !s.table[id].nodeType.Gate?
    requires SetsGoing(a, id, counted, s.table[id].retryCount)
    requires Schedule(NextAct(s, a).table, order)
    ensures var u := Next(NextAct(s, a), Advance(order)).table;
      TakenUp(u, id) && u[id].retryCount == counted
  {
    PassTakesUp(NextAct(s, a).table, order, id);
  }

  /** A node the watchdog gives up on is FAILED, and the next pass runs it again if attempts are left and its
      dependencies done; the QA-only retry keeps its TASK completed. */
  lemma GivenUpIsFailed(s: Engine, id: NodeId)
    requires CanAct(s, GiveUp(id))
    ensures NextAct(s, GiveUp(id)).table[id].state.Failed?
    ensures RetriesLeft(NextAct(s, GiveUp(id)).table[id]) <==> s.table[id].retryCount < s.table[id].maxRetries
  {}

  /** An executor whose row was changed meanwhile still completes or suspends it, whatever state it finds; its other
      failures take the row only to READY or FAILED, along the table from the state found, or from IN_PROGRESS if the
      version has not moved. */
  lemma StrayOutcome(n: NodeSnapshot, o: Outcome, attempts: int, current: bool)
    ensures var n' := AfterStray(n, o, attempts, current);
      && (o.Succeeded? ==> n' == n.(state := Completed))
      && (o.ApiLimited? ==> n' == n.(state := Suspended))
      && (o.Raised? ==> n'.retryCount == attempts + 1)
      && (o.Raised? && n'.state != n.state ==>
            && n'.version == n.version + 1
            && IsValid(if current then InProgress else n.state, n'.state)
            && n'.state == if attempts + 1 < n.maxRetries then Ready else Failed)
  {}

  lemma QaRetryKeepsTask(s: Engine, id: NodeId, qa: NodeId)
    requires CanAct(s, RetryQa(id, qa))
    ensures var u := NextAct(s, RetryQa(id, qa)).table; id in u && u[id].state.Completed?
  {}
}

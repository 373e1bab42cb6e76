/** Runs of a compiled DAG and the order of its phases
    (engine/intake/processor.py:661-846 run by engine/core/dag_advancer.py:181-295). */
module PhaseOrder {
  import opened Graph
  import opened StateMachine
  import opened Nodes
  import opened AdvancePass
  import opened Outcomes
  import opened EngineRun
  import opened Interventions
  import opened Intake
  import opened CompiledGraph

  predicate LoadedRow(id: NodeId, row: NodeRow, n: NodeSnapshot)
  {
    n.id == id && n.nodeType == row.nodeType && n.state == row.state && n.autoApprove == row.autoApprove
  }

  /** The rows the engine loads for a freshly compiled plan; retry settings are up to the schema. */
  ghost predicate Loaded(c: Plan, t: Table)
  {
    && t.Keys == c.rows.Keys
    && (forall id :: id in t ==> LoadedRow(id, c.rows[id], t[id]))
    && (forall id, d {:trigger Edge(d, id)} :: id in t ==> (d in t[id].deps <==> Edge(d, id) in c.edges))
  }

  // ---- The freshly loaded rows ----

  lemma FreshIsOrderly(c: Plan, t0: Table)
    requires c.Valid() && Loaded(c, t0)
    ensures Orderly(t0, t0)
  {
    forall id | id in t0 ensures !Underway(t0[id].state) {
      FreshRow(c, t0, id);
    }
  }

  lemma FreshRow(c: Plan, t0: Table, id: NodeId)
    requires c.Valid() && Loaded(c, t0) && id in t0
    ensures t0[id].state.NotStarted? || t0[id].state.Skipped?
  {
    NodeKinds(c, id);
    assert LoadedRow(id, c.rows[id], t0[id]);
  }

  // ---- Safety ----

  /** A phase all of whose nodes are SKIPPED, between an earlier phase with work and a later one with work. */
  ghost predicate HollowPhase(specs: seq<Spec>)
  {
    exists p: Phase, q: Phase, r: Phase :: p < q < r
      && HasWork(specs, p) && HasNodes(specs, q) && !HasWork(specs, q) && HasWork(specs, r)
  }

  predicate HasWork(specs: seq<Spec>, p: Phase)
  {
    exists i :: 0 <= i < |specs| && specs[i].phase == p && specs[i].applicable
  }

  /** Both nodes of a spec are COMPLETED or SKIPPED. */
  ghost predicate SpecDone(t: Table, i: nat)
  {
    TaskId(i) in t && QaId(i) in t && IsDone(t[TaskId(i)].state) && IsDone(t[QaId(i)].state)
  }

  predicate TaskStarted(t: Table, j: nat)
  {
    TaskId(j) in t && (t[TaskId(j)].state.InProgress? || t[TaskId(j)].state.Completed?)
  }

  /** No TASK runs or has completed before every TASK and QA node of all earlier phases is done. */
  ghost predicate PhasesInOrder(c: Plan, t: Table)
  {
    forall i, j :: 0 <= i < |c.specs| && 0 <= j < |c.specs| ==>
      c.specs[i].phase < c.specs[j].phase && TaskStarted(t, j) ==> SpecDone(t, i)
  }

  lemma SpecRows(c: Plan, t0: Table, t: Table, i: nat)
    requires c.Valid() && Loaded(c, t0) && Shaped(t0, t) && i < |c.specs|
    ensures TaskId(i) in t && QaId(i) in t
    ensures t[TaskId(i)].nodeType == Task && t[QaId(i)].nodeType == Qa
    ensures t[TaskId(i)].state.Skipped? <==> !c.specs[i].applicable
    ensures t[QaId(i)].state.Skipped? <==> !c.specs[i].applicable
  {
    EveryTaskHasItsQaPair(c, i);
  }

  lemma GateRowOf(c: Plan, t0: Table, t: Table, p: Phase)
    requires c.Valid() && Loaded(c, t0) && Orderly(t0, t) && HasGate(c.specs, p)
    ensures GateId(|c.specs|, p) in t && t[GateId(|c.specs|, p)].nodeType == Gate
    ensures !t[GateId(|c.specs|, p)].state.Skipped?
  {
    assert p in PhasesWithGate(c.specs);
  }

  /** A QA node that is done has a TASK that is done. */
  lemma QaDoneMeansSpecDone(c: Plan, t0: Table, t: Table, i: nat)
    requires c.Valid() && Loaded(c, t0) && Orderly(t0, t) && i < |c.specs|
    requires QaId(i) in t && IsDone(t[QaId(i)].state)
    ensures SpecDone(t, i)
  {
    SpecRows(c, t0, t, i);
    if t[QaId(i)].state.Completed? {
      IntoQa(c, TaskId(i), i);
      assert DepsDone(t, t[QaId(i)]);
      assert TaskId(i) in t[QaId(i)].deps;
    }
  }

  /** When a gate is done, so is every node of its phase. */
  lemma GateDoneMeansPhaseDone(c: Plan, t0: Table, t: Table, p: Phase, i: nat)
    requires c.Valid() && Loaded(c, t0) && Orderly(t0, t) && HasGate(c.specs, p)
    requires GateId(|c.specs|, p) in t && IsDone(t[GateId(|c.specs|, p)].state)
    requires i < |c.specs| && c.specs[i].phase == p
    ensures SpecDone(t, i)
  {
    GateRowOf(c, t0, t, p);
    var g := GateId(|c.specs|, p);
    assert t[g].state.Completed? && DepsDone(t, t[g]);
    IntoGate(c, QaId(i), p);
    assert QaId(i) % 2 == 1 && QaId(i) / 2 == i;
    SpecRows(c, t0, t, i);
    assert QaId(i) in t[g].deps;
    QaDoneMeansSpecDone(c, t0, t, i);
  }

  /** A TASK whose dependencies are done has the gate in front of its phase done. */
  lemma TaskNeedsItsGate(c: Plan, t0: Table, t: Table, j: nat, p: Phase)
    requires c.Valid() && Loaded(c, t0) && Orderly(t0, t) && j < |c.specs|
    requires Consecutive(c.specs, p, c.specs[j].phase)
    requires TaskId(j) in t && DepsDone(t, t[TaskId(j)])
    ensures HasGate(c.specs, p) && GateId(|c.specs|, p) in t && IsDone(t[GateId(|c.specs|, p)].state)
  {
    GateRowOf(c, t0, t, p);
    IntoTask(c, GateId(|c.specs|, p), j);
    assert GateId(|c.specs|, p) in t[TaskId(j)].deps;
  }

  lemma {:induction false} Predecessor(specs: seq<Spec>, r: Phase, q: Phase) returns (p: Phase)
    requires r < q && HasNodes(specs, r) && HasNodes(specs, q)
    ensures Consecutive(specs, p, q) && r <= p
    decreases q - r
  {
    if Consecutive(specs, r, q) {
      p := r;
    } else {
      var r': Phase :| r < r' < q && HasNodes(specs, r');
      p := Predecessor(specs, r', q);
    }
  }

  /** Behind a TASK with done dependencies everything earlier is done, unless a hollow phase interrupts the chain. */
  lemma {:induction false} EarlierPhasesDone(c: Plan, t0: Table, t: Table, j: nat, i: nat)
    requires c.Valid() && Loaded(c, t0) && Orderly(t0, t) && !HollowPhase(c.specs)
    requires i < |c.specs| && j < |c.specs| && c.specs[i].phase < c.specs[j].phase && c.specs[j].applicable
    requires TaskId(j) in t && DepsDone(t, t[TaskId(j)])
    ensures SpecDone(t, i)
    decreases c.specs[j].phase
  {
    var q := c.specs[j].phase;
    var p := Predecessor(c.specs, c.specs[i].phase, q);
    TaskNeedsItsGate(c, t0, t, j, p);
    if c.specs[i].phase == p {
      GateDoneMeansPhaseDone(c, t0, t, p, i);
    } else if HasWork(c.specs, p) {
      var k :| 0 <= k < |c.specs| && c.specs[k].phase == p && c.specs[k].applicable;
      GateDoneMeansPhaseDone(c, t0, t, p, k);
      SpecRows(c, t0, t, k);
      assert t[TaskId(k)].state.Completed?;
      EarlierPhasesDone(c, t0, t, k, i);
    } else {
      assert HasWork(c.specs, q);
      assert !HasWork(c.specs, c.specs[i].phase);
      SpecRows(c, t0, t, i);
    }
  }

  lemma OrderlyWithoutHollowPhase(c: Plan, t0: Table, t: Table)
    requires c.Valid() && Loaded(c, t0) && Orderly(t0, t) && !HollowPhase(c.specs)
    ensures PhasesInOrder(c, t)
  {
    forall i, j | 0 <= i < |c.specs| && 0 <= j < |c.specs| && c.specs[i].phase < c.specs[j].phase && TaskStarted(t, j)
      ensures SpecDone(t, i)
    {
      SpecRows(c, t0, t, j);
      EarlierPhasesDone(c, t0, t, j, i);
    }
  }

  // ---- The other direction: a hollow phase lets a run break the order ----

  /** The spec whose TASK can start too early, and an earlier spec that is not finished. */
  ghost predicate Overtaking(c: Plan, early: nat, late: nat, g: Phase)
  {
    && early < |c.specs| && late < |c.specs|
    && c.specs[early].applicable && c.specs[late].applicable && c.specs[early].phase < c.specs[late].phase
    && Consecutive(c.specs, g, c.specs[late].phase) && !HasWork(c.specs, g)
    && (forall i: nat :: Edge(i, late) in DepGraph(c.specs, c.deps) ==> !c.specs[i].applicable)
  }

  lemma {:induction false} NextWork(specs: seq<Spec>, q: Phase, r: Phase) returns (r': Phase)
    requires q < r && HasWork(specs, r) && !HasWork(specs, q)
    ensures q < r' && HasWork(specs, r') && forall p: Phase :: q <= p < r' ==> !HasWork(specs, p)
    decreases r
  {
    if p: Phase :| q < p < r && HasWork(specs, p) {
      r' := NextWork(specs, q, p);
    } else {
      r' := r;
    }
  }

  /** Some TASK of a phase with work waits, inside the phase, for SKIPPED specs only. */
  lemma FirstWork(c: Plan, r: Phase) returns (late: nat)
    requires c.OrderlyDeps() && HasWork(c.specs, r)
    ensures late < |c.specs| && c.specs[late].phase == r && c.specs[late].applicable
    ensures forall i: nat :: Edge(i, late) in DepGraph(c.specs, c.deps) ==> !c.specs[i].applicable
  {
    var G := DepGraph(c.specs, c.deps);
    var v :| 0 <= v < |c.specs| && c.specs[v].phase == r && c.specs[v].applicable;
    var S := set i: nat | i < |c.specs| && c.specs[i].phase == r && c.specs[i].applicable;
    late := EverySetHasASource(G, S, v);
    forall i: nat | Edge(i, late) in G ensures !c.specs[i].applicable {
      assert c.specs[Edge(i, late).src].phase == c.specs[Edge(i, late).dst].phase;
      assert i !in S;
    }
  }

  lemma HollowPhaseLetsOvertake(c: Plan) returns (early: nat, late: nat, g: Phase)
    requires c.OrderlyDeps() && HollowPhase(c.specs)
    ensures Overtaking(c, early, late, g)
  {
    var p: Phase, q: Phase, r0: Phase :| p < q < r0
      && HasWork(c.specs, p) && HasNodes(c.specs, q) && !HasWork(c.specs, q) && HasWork(c.specs, r0);
    var r := NextWork(c.specs, q, r0);
    early :| 0 <= early < |c.specs| && c.specs[early].phase == p && c.specs[early].applicable;
    late := FirstWork(c, r);
    assert HasNodes(c.specs, r);
    g := Predecessor(c.specs, q, r);
  }

  /** States of a run in which no executor has ever succeeded. */
  predicate NeverSucceeded(n: NodeSnapshot)
  {
    if n.nodeType.Gate? then n.state.NotStarted? || n.state.Blocked? || n.state.AwaitingApproval? || n.state.Completed?
    else
      || n.state.NotStarted? || n.state.Ready? || n.state.Blocked?
      || n.state.InProgress? || n.state.Suspended? || n.state.Skipped?
  }

  /** The adversary's invariant: nothing succeeded, every running node has its task, and the overtaking
      TASK has not been launched and given up on. */
  ghost predicate Waiting(c: Plan, t0: Table, s: Engine, late: nat)
  {
    && Orderly(t0, s.table) && TasksAccounted(s)
    && (forall id :: id in s.table ==> NeverSucceeded(s.table[id]))
    && (forall id :: id in s.table && s.table[id].state.InProgress? ==> id in s.tasks)
    && TaskId(late) in s.table && !s.table[TaskId(late)].state.Suspended?
  }

  lemma DecisionNeverSucceeds(n: NodeSnapshot, depsDone: bool, depFailed: bool, running: nat)
    requires NeverSucceeded(n)
    ensures var n' := Moved(n, Decide(n, depsDone, depFailed, running).path);
      NeverSucceeded(n') && (n'.state.Suspended? ==> n.state.Suspended?)
  {}

  lemma PassKeepsWaiting(c: Plan, t0: Table, s: Engine, late: nat, order: seq<NodeId>)
    requires Waiting(c, t0, s, late) && Schedule(s.table, order)
    ensures Waiting(c, t0, Next(s, Advance(order)), late)
  {
    var u := Next(s, Advance(order)).table;
    AccountedIsInFlight(t0, s);
    ActKeepsOrder(t0, s, Plain(Advance(order)));
    TasksAfterPass(s, order);
    ScheduleInTable(s.table, order);
    PassGuarantees(s.table, order);
    var q := Sweep(Start(s.table), order);
    forall id | id in u
      ensures NeverSucceeded(u[id]) && (u[id].state.Suspended? ==> s.table[id].state.Suspended?)
      ensures u[id].state.InProgress? ==> id in Next(s, Advance(order)).tasks
    {
      PassOnRow(s, order, id);
      var n := s.table[id];
      var depFailed: bool, running: nat :|
        && (depFailed ==> !DepsDone(u, u[id]))
        && u[id] == Moved(n, Decide(n, DepsDone(u, u[id]), depFailed, running).path);
      DecisionNeverSucceeds(n, DepsDone(u, u[id]), depFailed, running);
      if u[id].state.InProgress? {
        assert id in InProgressNodes(q.table);
        assert id in InProgressNodes(s.table) || id in Members(q.launched);
        assert id in multiset(q.launched) <==> id in q.launched;
      }
    }
  }

  lemma LimitKeepsWaiting(c: Plan, t0: Table, s: Engine, late: nat, id: NodeId)
    requires Waiting(c, t0, s, late) && id in s.tasks && id in s.table && id != TaskId(late)
    requires !s.table[id].nodeType.Gate?
    ensures Waiting(c, t0, Next(s, Return(id, ApiLimited)), late)
  {
    var s' := Next(s, Return(id, ApiLimited));
    AccountedIsInFlight(t0, s);
    ActKeepsOrder(t0, s, Plain(Return(id, ApiLimited)));
    TasksAfterEvent(s, Return(id, ApiLimited));
    forall x | x in s'.table ensures NeverSucceeded(s'.table[x]) && (s'.table[x].state.InProgress? ==> x in s'.tasks) {
      assert NeverSucceeded(s.table[x]);
      if x != id { assert s'.table[x] == s.table[x] && s'.tasks[x] == s.tasks[x]; }
    }
  }

  lemma ApprovalKeepsWaiting(c: Plan, t0: Table, s: Engine, late: nat, id: NodeId)
    requires Waiting(c, t0, s, late) && Enabled(s, Approve(id))
    ensures Waiting(c, t0, Next(s, Approve(id)), late)
  {
    var s' := Next(s, Approve(id));
    AccountedIsInFlight(t0, s);
    ActKeepsOrder(t0, s, Plain(Approve(id)));
    TasksAfterEvent(s, Approve(id));
    forall x | x in s'.table ensures NeverSucceeded(s'.table[x]) && (s'.table[x].state.InProgress? ==> x in s'.tasks) {
      assert NeverSucceeded(s.table[x]);
      if x != id { assert s'.table[x] == s.table[x]; }
    }
  }

  lemma SkippedDepsAreDone(c: Plan, t0: Table, t: Table, g: Phase)
    requires c.Valid() && Loaded(c, t0) && Orderly(t0, t) && HasGate(c.specs, g) && !HasWork(c.specs, g)
    ensures GateId(|c.specs|, g) in t && DepsDone(t, t[GateId(|c.specs|, g)])
  {
    GateRowOf(c, t0, t, g);
    var gate := GateId(|c.specs|, g);
    forall d | d in t[gate].deps && d in t ensures IsDone(t[d].state) {
      IntoGate(c, d, g);
      assert Edge(d, gate) in c.edges;
      assert d == QaId(d / 2);
      SpecRows(c, t0, t, d / 2);
    }
  }

  lemma LateDepsAreDone(c: Plan, t0: Table, t: Table, early: nat, late: nat, g: Phase)
    requires c.Valid() && Loaded(c, t0) && Orderly(t0, t) && Overtaking(c, early, late, g)
    requires GateId(|c.specs|, g) in t && IsDone(t[GateId(|c.specs|, g)].state)
    ensures TaskId(late) in t && DepsDone(t, t[TaskId(late)])
  {
    SpecRows(c, t0, t, late);
    forall d | d in t[TaskId(late)].deps && d in t ensures IsDone(t[d].state) {
      IntoTask(c, d, late);
      assert Edge(d, TaskId(late)) in c.edges;
      if d % 2 == 1 && Edge(d / 2, late) in DepGraph(c.specs, c.deps) {
        assert Edge(d / 2, late).src < |c.specs|;
        assert d == QaId(d / 2);
        SpecRows(c, t0, t, d / 2);
      } else {
        var p: Phase :| Consecutive(c.specs, p, c.specs[late].phase) && d == GateId(|c.specs|, p);
        assert p == g;
      }
    }
  }

  /** After a pass in which nothing runs and no gate waits for approval, the overtaking TASK has been launched. */
  lemma SomethingMoves(c: Plan, t0: Table, s: Engine, early: nat, late: nat, g: Phase)
    requires c.Valid() && Loaded(c, t0) && Overtaking(c, early, late, g)
    requires Waiting(c, t0, s, late) && AllSettled(s.table)
    ensures s.table[TaskId(late)].state.InProgress? || s.tasks != multiset{}
         || exists id :: id in s.table && s.table[id].state.AwaitingApproval?
  {
    var t, gate := s.table, GateId(|c.specs|, g);
    GateRowOf(c, t0, t, g);
    SpecRows(c, t0, t, late);
    assert SettledIn(t, gate, |InProgressNodes(t)|) && SettledIn(t, TaskId(late), |InProgressNodes(t)|);
    assert NeverSucceeded(t[gate]) && NeverSucceeded(t[TaskId(late)]);
    if s.tasks == multiset{} && forall id :: id in t ==> !t[id].state.AwaitingApproval? {
      assert InProgressNodes(t) == {};
      SkippedDepsAreDone(c, t0, t, g);
      LateDepsAreDone(c, t0, t, early, late, g);
    }
  }

  // ---- The adversary's run ----

  lemma SameScheduleForAll(t0: Table, t: Table, order: seq<NodeId>)
    requires Schedule(t0, order) && Orderly(t0, t)
    ensures Schedule(t, order)
  {
    forall e ensures e in TableEdges(t) <==> e in TableEdges(t0) {
      if e in TableEdges(t) {
        var i :| 0 <= i < |t[e.dst].deps| && t[e.dst].deps[i] == e.src;
        assert Edge(t0[e.dst].deps[i], e.dst) in TableEdges(t0);
      }
      if e in TableEdges(t0) {
        var i :| 0 <= i < |t0[e.dst].deps| && t0[e.dst].deps[i] == e.src;
        assert Edge(t[e.dst].deps[i], e.dst) in TableEdges(t);
      }
    }
  }

  ghost function OpenGates(t: Table): set<NodeId>
  {
    set id | id in t && t[id].nodeType.Gate? && !t[id].state.Completed?
  }

  ghost function Budget(t: Table, order: seq<NodeId>): nat
  {
    if forall id :: id in order ==> id in t then TotalRemaining(t, order) else 0
  }

  lemma ScheduleListsRows(t: Table, order: seq<NodeId>)
    requires Schedule(t, order)
    ensures forall x :: x in order <==> x in t
  {
    forall x ensures x in order <==> x in t { assert x in Members(order) <==> x in t.Keys; }
  }

  lemma PassSettlesAll(s: Engine, order: seq<NodeId>)
    requires Schedule(s.table, order)
    ensures AllSettled(Next(s, Advance(order)).table)
  {
    ScheduleInTable(s.table, order);
    PassGuarantees(s.table, order);
  }

  lemma PassSpendsNothing(s: Engine, order: seq<NodeId>)
    requires TasksAccounted(s) && Schedule(s.table, order)
    ensures Budget(Next(s, Advance(order)).table, order) <= Budget(s.table, order)
  {
    ScheduleListsRows(s.table, order);
    EventUsesBudget(s, Advance(order), order);
  }

  lemma PassOpensNoGate(s: Engine, order: seq<NodeId>)
    requires TasksAccounted(s) && Schedule(s.table, order)
    ensures OpenGates(Next(s, Advance(order)).table) <= OpenGates(s.table)
  {
    var u := Next(s, Advance(order)).table;
    KeysUnchanged(s, Advance(order));
    forall id | id in OpenGates(u) ensures id in OpenGates(s.table) {
      PassKeepsRow(s, order, id);
    }
  }

  lemma LimitSpends(c: Plan, t0: Table, s: Engine, late: nat, id: NodeId, order: seq<NodeId>)
    requires Waiting(c, t0, s, late) && id in s.tasks && Schedule(s.table, order)
    ensures id in s.table && !s.table[id].nodeType.Gate?
    ensures Budget(Next(s, Return(id, ApiLimited)).table, order) < Budget(s.table, order)
  {
    assert NeverSucceeded(s.table[id]);
    ScheduleListsRows(s.table, order);
    EventUsesBudget(s, Return(id, ApiLimited), order);
  }

  lemma ApprovalClosesGate(c: Plan, t0: Table, s: Engine, late: nat, id: NodeId, order: seq<NodeId>)
    requires Waiting(c, t0, s, late) && Enabled(s, Approve(id)) && Schedule(s.table, order)
    ensures Budget(Next(s, Approve(id)).table, order) <= Budget(s.table, order)
    ensures OpenGates(Next(s, Approve(id)).table) < OpenGates(s.table)
  {
    assert NeverSucceeded(s.table[id]);
    ScheduleListsRows(s.table, order);
    EventUsesBudget(s, Approve(id), order);
    assert id in OpenGates(s.table) && id !in OpenGates(Next(s, Approve(id)).table);
  }

  /** From any waiting state some run launches the overtaking TASK while nothing has succeeded: pass, then
      suspend a running node or approve a waiting gate, and repeat. */
  lemma {:induction false} AdversaryWins(c: Plan, t0: Table, s: Engine, early: nat, late: nat, g: Phase,
                                         order: seq<NodeId>)
    returns (es: seq<Event>)
    requires c.Valid() && Loaded(c, t0) && Overtaking(c, early, late, g)
    requires Schedule(t0, order) && Waiting(c, t0, s, late)
    ensures IsRun(s, es) && Waiting(c, t0, After(s, es), late)
    ensures After(s, es).table[TaskId(late)].state.InProgress?
    decreases Budget(s.table, order), OpenGates(s.table)
  {
    SameScheduleForAll(t0, s.table, order);
    var pass := Advance(order);
    var s1 := Next(s, pass);
    PassKeepsWaiting(c, t0, s, late, order);
    PassSettlesAll(s, order);
    PassSpendsNothing(s, order);
    PassOpensNoGate(s, order);
    SomethingMoves(c, t0, s1, early, late, g);
    if s1.table[TaskId(late)].state.InProgress? {
      es := [];
    } else if id :| id in s1.tasks {
      SameScheduleForAll(t0, s1.table, order);
      LimitSpends(c, t0, s1, late, id, order);
      LimitKeepsWaiting(c, t0, s1, late, id);
      es := AdversaryWins(c, t0, Next(s1, Return(id, ApiLimited)), early, late, g, order);
      RunCons(s1, Return(id, ApiLimited), es);
      es := [Return(id, ApiLimited)] + es;
    } else {
      var id :| id in s1.table && s1.table[id].state.AwaitingApproval?;
      ApprovalKeepsWaiting(c, t0, s1, late, id);
      SameScheduleForAll(t0, s1.table, order);
      ApprovalClosesGate(c, t0, s1, late, id, order);
      es := AdversaryWins(c, t0, Next(s1, Approve(id)), early, late, g, order);
      RunCons(s1, Approve(id), es);
      es := [Approve(id)] + es;
    }
    RunCons(s, pass, es);
    es := [pass] + es;
  }

  // ---- The exact condition ----

  /** Every run of the compiled DAG in which nothing fails late, from its initial rows and without executors in
      flight, keeps the phase order. */
  ghost predicate AlwaysInOrder(c: Plan, t0: Table)
  {
    forall acts: seq<Act> :: IsActRun(Engine(t0, multiset{}), acts) && NoLateFailure(Engine(t0, multiset{}), acts) ==>
      PhasesInOrder(c, AfterActs(Engine(t0, multiset{}), acts).table)
  }

  lemma LoadedHasSchedule(c: Plan, t0: Table) returns (order: seq<NodeId>)
    requires c.Valid() && c.OrderlyDeps() && Loaded(c, t0)
    ensures Schedule(t0, order)
  {
    CompiledIsAcyclic(c);
    order := AcyclicHasOrder(c.edges, t0.Keys);
    forall e | e in TableEdges(t0) ensures e in c.edges && e.src in t0 {
      var i :| 0 <= i < |t0[e.dst].deps| && t0[e.dst].deps[i] == e.src;
      assert e == Edge(e.src, e.dst);
      EndpointsAreKnown(c, e);
    }
    forall i, u | 0 <= i < |order| && Edge(u, order[i]) in TableEdges(t0) ensures u in order[..i] {
      assert Edge(u, order[i]) in c.edges && Edge(u, order[i]).src in t0;
    }
  }

  lemma FreshIsWaiting(c: Plan, t0: Table, late: nat)
    requires c.Valid() && Loaded(c, t0) && late < |c.specs| && c.specs[late].applicable
    ensures Waiting(c, t0, Engine(t0, multiset{}), late)
  {
    FreshIsOrderly(c, t0);
    forall id | id in t0 ensures NeverSucceeded(t0[id]) && !t0[id].state.InProgress? {
      NodeKinds(c, id);
      assert LoadedRow(id, c.rows[id], t0[id]);
    }
    SpecRows(c, t0, t0, late);
  }

  lemma OvertakingBreaksTheOrder(c: Plan, t0: Table, s: Engine, early: nat, late: nat, g: Phase)
    requires c.Valid() && Loaded(c, t0) && Overtaking(c, early, late, g) && Waiting(c, t0, s, late)
    requires s.table[TaskId(late)].state.InProgress?
    ensures !PhasesInOrder(c, s.table)
  {
    SpecRows(c, t0, s.table, early);
    assert NeverSucceeded(s.table[TaskId(early)]);
    assert TaskStarted(s.table, late) && !SpecDone(s.table, early);
  }

  /** A compiled DAG keeps its phases in order in every run exactly when no phase whose nodes are all SKIPPED
      lies between two phases with work. Runs may suspend, resume and retry nodes; the run that breaks the order
      does without. */
  lemma PhaseOrderExactly(c: Plan, t0: Table)
    requires c.Valid() && c.OrderlyDeps() && Loaded(c, t0)
    ensures AlwaysInOrder(c, t0) <==> !HollowPhase(c.specs)
  {
    var s := Engine(t0, multiset{});
    if HollowPhase(c.specs) {
      var early, late, g := HollowPhaseLetsOvertake(c);
      var order := LoadedHasSchedule(c, t0);
      FreshIsWaiting(c, t0, late);
      var es := AdversaryWins(c, t0, s, early, late, g, order);
      OvertakingBreaksTheOrder(c, t0, After(s, es), early, late, g);
      var acts := PlainRun(s, es);
    } else {
      forall acts: seq<Act> | IsActRun(s, acts) && NoLateFailure(s, acts)
        ensures PhasesInOrder(c, AfterActs(s, acts).table)
      {
        FreshIsOrderly(c, t0);
        RunsAreOrderly(t0, s, acts);
        OrderlyWithoutHollowPhase(c, t0, AfterActs(s, acts).table);
      }
    }
  }

  // ---- An input that breaks the order ----

  ghost function Listed(s: set<NodeId>): (r: seq<NodeId>)
    ensures Members(r) == s
  {
    if s == {} then []
    else
      var x :| x in s;
      var rest := Listed(s - {x});
      assert Members([x] + rest) == {x} + Members(rest);
      [x] + rest
  }

  ghost function Sources(edges: set<Edge>, id: NodeId): set<NodeId>
  {
    set e | e in edges && e.dst == id :: e.src
  }

  lemma LoadedExists(c: Plan) returns (t0: Table)
    ensures Loaded(c, t0)
  {
    t0 := map id | id in c.rows :: NodeSnapshot(id, c.rows[id].nodeType, c.rows[id].state, 3, 0, 3,
                                                c.rows[id].autoApprove, 0,
                                                Listed(Sources(c.edges, id)));
    forall id, d | id in t0 ensures d in t0[id].deps <==> Edge(d, id) in c.edges {
      assert d in t0[id].deps <==> d in Members(t0[id].deps);
      if Edge(d, id) in c.edges { assert Edge(d, id).src in Sources(c.edges, id); }
      if d in Sources(c.edges, id) {
        var e :| e in c.edges && e.dst == id && e.src == d;
        assert e == Edge(d, id);
      }
    }
  }

  /** One template in each of DEFINE, DESIGN and BUILD, the middle one excluded in the intake form. */
  const TEMPLATES := [PhaseTemplate(0, [NodeTemplate("a", Always)]), PhaseTemplate(1, [NodeTemplate("b", Always)]),
                      PhaseTemplate(2, [NodeTemplate("c", Always)])]
  const ANSWERS := Answers(true, false, {}, {"b"}, false)

  lemma ExampleSpecs()
    ensures Specs(TEMPLATES, ANSWERS) == [Spec("a", 0, true), Spec("b", 1, false), Spec("c", 2, true)]
  {
    assert SpecsOfPhase(0, TEMPLATES[0].nodes, ANSWERS) == [Spec("a", 0, true)];
    assert SpecsOfPhase(1, TEMPLATES[1].nodes, ANSWERS) == [Spec("b", 1, false)];
    assert SpecsOfPhase(2, TEMPLATES[2].nodes, ANSWERS) == [Spec("c", 2, true)];
    assert Specs(TEMPLATES[..1], ANSWERS) == [Spec("a", 0, true)] by {
      assert TEMPLATES[..1][..0] == [] && Specs([], ANSWERS) == [];
    }
    assert Specs(TEMPLATES[..2], ANSWERS) == [Spec("a", 0, true), Spec("b", 1, false)] by {
      assert TEMPLATES[..2][..1] == TEMPLATES[..1];
    }
    assert TEMPLATES[..|TEMPLATES| - 1] == TEMPLATES[..2];
  }

  lemma MiddleIsHollow(specs: seq<Spec>)
    requires specs == [Spec("a", 0, true), Spec("b", 1, false), Spec("c", 2, true)]
    ensures HollowPhase(specs)
  {
    assert specs[0].phase == 0 && specs[1].phase == 1 && specs[2].phase == 2;
    assert HasWork(specs, 0) && HasNodes(specs, 1) && !HasWork(specs, 1) && HasWork(specs, 2);
  }

  lemma BreakingPlan(specs: seq<Spec>, a: Answers) returns (c: Plan, t0: Table)
    requires HollowPhase(specs)
    ensures c.specs == specs && c.deps == [] && c.answers == a
    ensures c.Valid() && c.OrderlyDeps() && Loaded(c, t0) && !AlwaysInOrder(c, t0)
  {
    c := PlanExists(specs, [], a);
    t0 := LoadedExists(c);
    assert DepGraph(c.specs, c.deps) == {};
    RankedIsAcyclic({}, (v: NodeId) => 0);
    PhaseOrderExactly(c, t0);
  }

  /** These templates and answers compile to a DAG with a run that breaks the phase order. */
  lemma HollowPhaseExample() returns (c: Plan, t0: Table)
    ensures c.specs == Specs(TEMPLATES, ANSWERS) && c.deps == [] && c.answers == ANSWERS && WellNamed(c.specs, c.deps)
    ensures c.Valid() && c.OrderlyDeps() && Loaded(c, t0) && !AlwaysInOrder(c, t0)
  {
    ExampleSpecs();
    MiddleIsHollow(Specs(TEMPLATES, ANSWERS));
    c, t0 := BreakingPlan(Specs(TEMPLATES, ANSWERS), ANSWERS);
  }
}

/** Who opens the gates of a compiled DAG
    (engine/intake/processor.py:661-846 run by engine/core/dag_advancer.py:181-416). */
module GateApproval {
  import opened Graph
  import opened StateMachine
  import opened Nodes
  import opened AdvancePass
  import opened Outcomes
  import opened EngineRun
  import opened Interventions
  import opened PassReports
  import opened EngineBounds
  import opened Intake
  import opened CompiledGraph
  import opened PhaseOrder
  import opened LateFailures

  // ---- A gate without automatic approval, whoever steps in ----

  /** Not open yet, and opened only by approval. */
  ghost predicate Shut(s: Engine, gate: NodeId)
  {
    && gate in s.table && gate !in s.tasks
    && s.table[gate].nodeType.Gate? && !s.table[gate].autoApprove
    && s.table[gate].state in {NotStarted, Ready, Blocked, AwaitingApproval}
  }

  lemma DecisionKeepsShut(n: NodeSnapshot, depsDone: bool, depFailed: bool, running: nat)
    requires n.nodeType.Gate? && !n.autoApprove && n.state in {NotStarted, Ready, Blocked, AwaitingApproval}
    ensures var n' := Moved(n, Decide(n, depsDone, depFailed, running).path);
      && n'.nodeType == n.nodeType && n'.autoApprove == n.autoApprove
      && n'.state in {NotStarted, Ready, Blocked, AwaitingApproval}
  {}

  lemma PassKeepsShut(s: Engine, order: seq<NodeId>, gate: NodeId)
    requires Shut(s, gate) && Schedule(s.table, order)
    ensures Shut(Next(s, Advance(order)), gate)
  {
    var u := Next(s, Advance(order)).table;
    var depFailed, running := DecidedRow(s.table, order, gate);
    DecisionKeepsShut(s.table[gate], DepsDone(u, u[gate]), depFailed, running);
    if gate in Next(s, Advance(order)).tasks { LaunchedByPass(s, order, gate); }
  }

  lemma ActKeepsShut(s: Engine, a: Act, gate: NodeId)
    requires Shut(s, gate) && CanAct(s, a) && a != Plain(Approve(gate))
    ensures Shut(NextAct(s, a), gate)
  {
    match a
    case Plain(Advance(order)) => PassKeepsShut(s, order, gate);
    case _ =>
  }

  lemma {:induction false} ShutUntilApproved(s: Engine, acts: seq<Act>, gate: NodeId)
    requires Shut(s, gate) && IsActRun(s, acts) && Plain(Approve(gate)) !in acts
    ensures Shut(AfterActs(s, acts), gate)
    decreases |acts|
  {
    if acts != [] {
      ActKeepsShut(s, acts[0], gate);
      ShutUntilApproved(NextAct(s, acts[0]), acts[1..], gate);
    }
  }

  /** A node behind such a gate that has never been launched. */
  ghost predicate Barred(s: Engine, gate: NodeId, id: NodeId)
  {
    && Shut(s, gate) && id in s.table && id !in s.tasks
    && gate in s.table[id].deps && !s.table[id].nodeType.Gate?
    && s.table[id].state in {NotStarted, Ready, Blocked}
  }

  lemma DecisionKeepsBarred(n: NodeSnapshot, depFailed: bool, running: nat)
    requires !n.nodeType.Gate? && n.state in {NotStarted, Ready, Blocked}
    ensures var n' := Moved(n, Decide(n, false, depFailed, running).path);
      n'.nodeType == n.nodeType && n'.state in {NotStarted, Ready, Blocked}
  {}

  lemma PassKeepsBarred(s: Engine, order: seq<NodeId>, gate: NodeId, id: NodeId)
    requires Barred(s, gate, id) && Schedule(s.table, order)
    ensures Barred(Next(s, Advance(order)), gate, id)
  {
    var u := Next(s, Advance(order)).table;
    PassKeepsShut(s, order, gate);
    var depFailed, running := DecidedRow(s.table, order, id);
    assert !IsDone(u[gate].state);
    assert !DepsDone(u, u[id]);
    DecisionKeepsBarred(s.table[id], depFailed, running);
    if id in Next(s, Advance(order)).tasks { LaunchedByPass(s, order, id); }
  }

  lemma ActKeepsBarred(s: Engine, a: Act, gate: NodeId, id: NodeId)
    requires Barred(s, gate, id) && CanAct(s, a) && a != Plain(Approve(gate))
    ensures Barred(NextAct(s, a), gate, id)
  {
    ActKeepsShut(s, a, gate);
    match a
    case Plain(Advance(order)) => PassKeepsBarred(s, order, gate, id);
    case _ =>
  }

  lemma {:induction false} BarredUntilApproved(s: Engine, acts: seq<Act>, gate: NodeId, id: NodeId)
    requires Barred(s, gate, id) && IsActRun(s, acts) && Plain(Approve(gate)) !in acts
    ensures Barred(AfterActs(s, acts), gate, id)
    decreases |acts|
  {
    if acts != [] {
      ActKeepsBarred(s, acts[0], gate, id);
      BarredUntilApproved(NextAct(s, acts[0]), acts[1..], gate, id);
    }
  }

  // ---- A gate with automatic approval ----

  /** Nobody is ever asked to approve it. */
  ghost predicate NeverWaits(t: Table, gate: NodeId)
  {
    gate in t && t[gate].nodeType.Gate? && t[gate].autoApprove && !t[gate].state.AwaitingApproval?
  }

  lemma ActKeepsNeverWaits(s: Engine, a: Act, gate: NodeId)
    requires NeverWaits(s.table, gate) && CanAct(s, a)
    ensures a != Plain(Approve(gate)) && NeverWaits(NextAct(s, a).table, gate)
  {
    match a
    case Plain(Advance(order)) => GateAfterPass(s.table, order, gate);
    case _ =>
  }

  lemma {:induction false} NobodyIsAsked(s: Engine, acts: seq<Act>, gate: NodeId)
    requires NeverWaits(s.table, gate) && IsActRun(s, acts)
    ensures Plain(Approve(gate)) !in acts
    decreases |acts|
  {
    if acts != [] {
      ActKeepsNeverWaits(s, acts[0], gate);
      NobodyIsAsked(NextAct(s, acts[0]), acts[1..], gate);
    }
  }

  // ---- The gates of a compiled DAG ----

  /** The gate behind phase p opens by itself exactly between BUILD (2) and VERIFY (3), if the review was set to
      automatic in the intake form. */
  ghost predicate OpensItself(c: Plan, p: Phase)
  {
    c.answers.autoReview && p == 2 && Consecutive(c.specs, 2, 3)
  }

  lemma FreshGate(c: Plan, t0: Table, p: Phase)
    requires c.Valid() && Loaded(c, t0) && HasGate(c.specs, p)
    ensures var gate := GateId(|c.specs|, p);
      && gate in t0 && t0[gate].nodeType.Gate? && t0[gate].state.NotStarted?
      && (t0[gate].autoApprove <==> OpensItself(c, p))
  {
    assert p in PhasesWithGate(c.specs);
    var gate := GateId(|c.specs|, p);
    assert gate in c.rows && c.rows[gate] == GateRow(c.specs, p, c.answers);
    assert LoadedRow(gate, c.rows[gate], t0[gate]);
  }

  /** Every other gate stays shut in every run, whoever steps in, until somebody approves it. */
  lemma GateStaysShut(c: Plan, t0: Table, p: Phase, acts: seq<Act>)
    requires c.Valid() && Loaded(c, t0) && HasGate(c.specs, p) && !OpensItself(c, p)
    requires IsActRun(Engine(t0, multiset{}), acts) && Plain(Approve(GateId(|c.specs|, p))) !in acts
    ensures var t, gate := AfterActs(Engine(t0, multiset{}), acts).table, GateId(|c.specs|, p);
      gate in t && !t[gate].state.Completed?
  {
    FreshGate(c, t0, p);
    ShutUntilApproved(Engine(t0, multiset{}), acts, GateId(|c.specs|, p));
  }

  /** Some run starts the TASK without anybody approving the gate. */
  ghost predicate StartsUnapproved(c: Plan, t0: Table, gate: NodeId, id: NodeId)
  {
    exists acts: seq<Act> :: IsActRun(Engine(t0, multiset{}), acts) && Plain(Approve(gate)) !in acts
      && Runs(AfterActs(Engine(t0, multiset{}), acts).table, id)
  }

  predicate Runs(t: Table, id: NodeId)
  {
    id in t && t[id].state.InProgress?
  }

  lemma UnapprovedNeedsAuto(c: Plan, t0: Table, p: Phase, j: nat)
    requires c.Valid() && Loaded(c, t0) && j < |c.specs| && c.specs[j].applicable
    requires Consecutive(c.specs, p, c.specs[j].phase) && !OpensItself(c, p)
    ensures !StartsUnapproved(c, t0, GateId(|c.specs|, p), TaskId(j))
  {
    var s, gate := Engine(t0, multiset{}), GateId(|c.specs|, p);
    FreshOrder(c, t0, p, j);
    forall acts: seq<Act> | IsActRun(s, acts) && Plain(Approve(gate)) !in acts
      ensures !Runs(AfterActs(s, acts).table, TaskId(j))
    {
      BarredUntilApproved(s, acts, gate, TaskId(j));
    }
  }

  lemma FreshOrder(c: Plan, t0: Table, p: Phase, j: nat)
    requires c.Valid() && Loaded(c, t0) && j < |c.specs| && c.specs[j].applicable
    requires Consecutive(c.specs, p, c.specs[j].phase) && !OpensItself(c, p)
    ensures Barred(Engine(t0, multiset{}), GateId(|c.specs|, p), TaskId(j))
  {
    FreshGate(c, t0, p);
    FreshIsOrderly(c, t0);
    SpecRows(c, t0, t0, j);
    FreshRow(c, t0, TaskId(j));
    IntoTask(c, GateId(|c.specs|, p), j);
    assert Edge(GateId(|c.specs|, p), TaskId(j)) in c.edges;
  }

  lemma AutoStartsUnapproved(c: Plan, t0: Table, p: Phase, j: nat)
    requires c.Valid() && c.OrderlyDeps() && Loaded(c, t0) && j < |c.specs| && c.specs[j].applicable
    requires HasGate(c.specs, p) && OpensItself(c, p)
    ensures StartsUnapproved(c, t0, GateId(|c.specs|, p), TaskId(j))
  {
    var s, gate := Engine(t0, multiset{}), GateId(|c.specs|, p);
    var order := LoadedHasSchedule(c, t0);
    FreshGate(c, t0, p);
    FreshIsCooperative(c, t0);
    FreshIsPending(c, t0, j);
    var acts := RunUntilStarted(t0, s, multiset{}, TaskId(j), order);
    NobodyIsAsked(s, acts, gate);
    assert Runs(AfterActs(s, acts).table, TaskId(j));
  }

  /** A TASK behind a gate can start without anybody approving the gate if and only if the gate stands between
      BUILD and VERIFY and the review was set to automatic. */
  lemma ApprovalNeededExactly(c: Plan, t0: Table, p: Phase, j: nat)
    requires c.Valid() && c.OrderlyDeps() && Loaded(c, t0)
    requires j < |c.specs| && c.specs[j].applicable && Consecutive(c.specs, p, c.specs[j].phase)
    ensures StartsUnapproved(c, t0, GateId(|c.specs|, p), TaskId(j))
       <==> c.answers.autoReview && p == 2 && c.specs[j].phase == 3
  {
    if OpensItself(c, p) {
      AutoStartsUnapproved(c, t0, p, j);
    } else {
      UnapprovedNeedsAuto(c, t0, p, j);
    }
  }
}

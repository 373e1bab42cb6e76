/** What the compiled graph guarantees by itself: who waits for whom, pairing and acyclicity
    (engine/intake/processor.py:661-846). */
module CompiledGraph {
  import opened Graph
  import opened StateMachine
  import opened Intake

  /** The compiled DAG with the inputs it came from. */
  datatype Plan = Plan(specs: seq<Spec>, deps: seq<(string, string)>, answers: Answers,
                       rows: map<NodeId, NodeRow>, edges: set<Edge>)
  {
    ghost predicate Valid() {
      Compiled(specs, deps, answers, rows, edges)
    }

    /** Declared dependencies stay inside a phase and are acyclic. */
    ghost predicate OrderlyDeps() {
      && Acyclic(DepGraph(specs, deps))
      && forall e :: e in DepGraph(specs, deps) ==> specs[e.src].phase == specs[e.dst].phase
    }
  }

  // ---- The edges in arithmetic form ----

  lemma PairForm(specs: seq<Spec>, e: Edge)
    ensures e in PairEdges(specs) <==> e.src % 2 == 0 && e.src / 2 < |specs| && e.dst == e.src + 1
  {
    if e.src % 2 == 0 && e.src / 2 < |specs| && e.dst == e.src + 1 {
      assert e == Edge(TaskId(e.src / 2), QaId(e.src / 2));
    }
  }

  ghost predicate OrderForm(specs: seq<Spec>, deps: seq<(string, string)>, e: Edge)
  {
    e.src % 2 == 1 && e.dst % 2 == 0 && Edge(e.src / 2, e.dst / 2) in DepGraph(specs, deps)
  }

  lemma OrderFormHolds(specs: seq<Spec>, deps: seq<(string, string)>, e: Edge)
    ensures e in OrderEdges(specs, deps) <==> OrderForm(specs, deps, e)
  {
    if OrderForm(specs, deps, e) {
      var d := Edge(e.src / 2, e.dst / 2);
      assert e == Edge(QaId(d.src), TaskId(d.dst));
    }
    if e in OrderEdges(specs, deps) {
      var d :| d in DepGraph(specs, deps) && e == Edge(QaId(d.src), TaskId(d.dst));
      assert e.src / 2 == d.src && e.dst / 2 == d.dst;
      assert Edge(e.src / 2, e.dst / 2) == d;
    }
  }

  ghost predicate WaitForm(specs: seq<Spec>, p: Phase, e: Edge)
  {
    e.dst == GateId(|specs|, p) && e.src % 2 == 1 && e.src / 2 < |specs| && specs[e.src / 2].phase == p
  }

  lemma WaitFormHolds(specs: seq<Spec>, p: Phase, e: Edge)
    ensures e in WaitEdges(specs, p) <==> WaitForm(specs, p, e)
  {
    if WaitForm(specs, p, e) {
      assert e == Edge(QaId(e.src / 2), GateId(|specs|, p));
    }
    if e in WaitEdges(specs, p) {
      var i :| 0 <= i < |specs| && specs[i].phase == p && e == Edge(QaId(i), GateId(|specs|, p));
      assert e.src / 2 == i;
    }
  }

  ghost predicate UnlockForm(specs: seq<Spec>, p: Phase, q: Phase, e: Edge)
  {
    e.src == GateId(|specs|, p) && e.dst % 2 == 0 && e.dst / 2 < |specs| && specs[e.dst / 2].phase == q
  }

  lemma UnlockFormHolds(specs: seq<Spec>, p: Phase, q: Phase, e: Edge)
    ensures e in UnlockEdges(specs, p, q) <==> UnlockForm(specs, p, q, e)
  {
    if UnlockForm(specs, p, q, e) {
      assert e == Edge(GateId(|specs|, p), TaskId(e.dst / 2));
    }
    if e in UnlockEdges(specs, p, q) {
      var i :| 0 <= i < |specs| && specs[i].phase == q && e == Edge(GateId(|specs|, p), TaskId(i));
      assert e.dst / 2 == i;
    }
  }

  ghost predicate GateForm(specs: seq<Spec>, e: Edge)
  {
    exists p: Phase, q: Phase :: Consecutive(specs, p, q) && (WaitForm(specs, p, e) || UnlockForm(specs, p, q, e))
  }

  lemma GateFormHolds(specs: seq<Spec>, e: Edge)
    ensures GateEdge(specs, PhasesWithGate(specs), e) <==> GateForm(specs, e)
  {
    forall p: Phase, q: Phase ensures e in WaitEdges(specs, p) <==> WaitForm(specs, p, e)
      ensures e in UnlockEdges(specs, p, q) <==> UnlockForm(specs, p, q, e)
    {
      WaitFormHolds(specs, p, e);
      UnlockFormHolds(specs, p, q, e);
    }
    if GateForm(specs, e) {
      var p: Phase, q: Phase :| Consecutive(specs, p, q) && (WaitForm(specs, p, e) || UnlockForm(specs, p, q, e));
      assert p in PhasesWithGate(specs);
    }
  }

  ghost predicate EdgeForm(specs: seq<Spec>, deps: seq<(string, string)>, e: Edge)
  {
    || (e.src % 2 == 0 && e.src / 2 < |specs| && e.dst == e.src + 1)
    || OrderForm(specs, deps, e)
    || GateForm(specs, e)
  }

  lemma EdgesHaveForm(c: Plan, e: Edge)
    requires c.Valid()
    ensures e in c.edges <==> EdgeForm(c.specs, c.deps, e)
  {
    PairForm(c.specs, e);
    OrderFormHolds(c.specs, c.deps, e);
    GateFormHolds(c.specs, e);
  }

  // ---- Incoming edges by kind of target ----

  lemma IntoQa(c: Plan, u: NodeId, i: nat)
    requires c.Valid() && i < |c.specs|
    ensures Edge(u, QaId(i)) in c.edges <==> u == TaskId(i)
  {
    EdgesHaveForm(c, Edge(u, QaId(i)));
  }

  lemma IntoTask(c: Plan, u: NodeId, j: nat)
    requires c.Valid() && j < |c.specs|
    ensures Edge(u, TaskId(j)) in c.edges <==>
      || (u % 2 == 1 && Edge(u / 2, j) in DepGraph(c.specs, c.deps))
      || (exists p: Phase :: Consecutive(c.specs, p, c.specs[j].phase) && u == GateId(|c.specs|, p))
  {
    var e := Edge(u, TaskId(j));
    EdgesHaveForm(c, e);
    assert e.dst / 2 == j;
    if p: Phase :| Consecutive(c.specs, p, c.specs[j].phase) && u == GateId(|c.specs|, p) {
      assert UnlockForm(c.specs, p, c.specs[j].phase, e);
    }
  }

  lemma IntoGate(c: Plan, u: NodeId, p: Phase)
    requires c.Valid() && HasGate(c.specs, p)
    ensures Edge(u, GateId(|c.specs|, p)) in c.edges <==> u % 2 == 1 && u / 2 < |c.specs| && c.specs[u / 2].phase == p
  {
    var e := Edge(u, GateId(|c.specs|, p));
    EdgesHaveForm(c, e);
    if u % 2 == 1 && u / 2 < |c.specs| && c.specs[u / 2].phase == p {
      var q: Phase :| Consecutive(c.specs, p, q);
      assert WaitForm(c.specs, p, e);
    }
  }

  /** Every node is the TASK or QA of a spec, or the gate behind a phase. */
  lemma NodeKinds(c: Plan, id: NodeId)
    requires c.Valid() && id in c.rows
    ensures (id < 2 * |c.specs| && (id == TaskId(id / 2) || id == QaId(id / 2)))
         || (exists p: Phase :: HasGate(c.specs, p) && id == GateId(|c.specs|, p))
  {}

  /** Each TASK has exactly one QA successor and no other, and each QA node exactly its TASK as predecessor. */
  lemma EveryTaskHasItsQaPair(c: Plan, i: nat)
    requires c.Valid() && i < |c.specs|
    ensures TaskId(i) in c.rows && c.rows[TaskId(i)].nodeType == Task && c.rows[TaskId(i)].phase == c.specs[i].phase
    ensures QaId(i) in c.rows && c.rows[QaId(i)].nodeType == Qa && c.rows[QaId(i)].phase == c.specs[i].phase
    ensures c.rows[TaskId(i)].state == c.rows[QaId(i)].state == InitialState(c.specs[i])
    ensures forall x :: Edge(TaskId(i), x) in c.edges <==> x == QaId(i)
    ensures forall u :: Edge(u, QaId(i)) in c.edges <==> u == TaskId(i)
  {
    assert TaskId(i) / 2 == i && QaId(i) / 2 == i;
    forall u ensures Edge(u, QaId(i)) in c.edges <==> u == TaskId(i) { IntoQa(c, u, i); }
    forall x ensures Edge(TaskId(i), x) in c.edges <==> x == QaId(i) {
      EdgesHaveForm(c, Edge(TaskId(i), x));
    }
  }

  // ---- Acyclicity ----

  function Scale(p: Phase, k: nat): nat
  {
    if p == 0 then 0 else k + Scale(p - 1, k)
  }

  lemma {:induction false} PhasesAreFarApart(p: Phase, q: Phase, k: nat)
    requires p < q
    ensures Scale(p, k) + k <= Scale(q, k)
  {
    if p < q - 1 { PhasesAreFarApart(p, q - 1, k); }
  }

  /** Phases are far apart; inside a phase a TASK and its QA follow the declared order, and the gate is last. */
  ghost function RankOf(specs: seq<Spec>, order: seq<NodeId>, id: NodeId): int
  {
    var n, k := |specs|, 2 * |specs| + 2;
    if id < 2 * n then Scale(specs[id / 2].phase, k) + 2 * IndexOf(order, id / 2) + id % 2
    else if id <= 2 * n + 4 then Scale(id - 2 * n, k) + 2 * n + 1
    else 0
  }

  /** A listing of all spec indices that respects the declared dependencies. */
  ghost predicate SpecOrder(c: Plan, order: seq<NodeId>)
  {
    && (forall i: NodeId :: i in order <==> i < |c.specs|)
    && Distinct(order) && |order| == |c.specs|
    && TopologicalOrder(DepGraph(c.specs, c.deps), order)
  }

  lemma EdgeRaisesRank(c: Plan, order: seq<NodeId>, e: Edge)
    requires c.Valid() && e in c.edges && c.OrderlyDeps() && SpecOrder(c, order)
    ensures RankOf(c.specs, order, e.src) < RankOf(c.specs, order, e.dst)
  {
    EdgesHaveForm(c, e);
    if OrderForm(c.specs, c.deps, e) {
      var d := Edge(e.src / 2, e.dst / 2);
      assert d in DepGraph(c.specs, c.deps);
      DepRaisesIndex(DepGraph(c.specs, c.deps), order, d);
    } else if GateForm(c.specs, e) {
      GateEdgeRaisesRank(c, order, e);
    }
  }

  lemma GateEdgeRaisesRank(c: Plan, order: seq<NodeId>, e: Edge)
    requires c.Valid() && SpecOrder(c, order) && GateForm(c.specs, e)
    ensures RankOf(c.specs, order, e.src) < RankOf(c.specs, order, e.dst)
  {
    var p: Phase, q: Phase :| Consecutive(c.specs, p, q) && (WaitForm(c.specs, p, e) || UnlockForm(c.specs, p, q, e));
    if WaitForm(c.specs, p, e) {
      assert e.src / 2 in order;
    } else {
      PhasesAreFarApart(p, q, 2 * |c.specs| + 2);
    }
  }

  lemma DepRaisesIndex(G: set<Edge>, order: seq<NodeId>, d: Edge)
    requires d in G && d.dst in order && Distinct(order)
    requires TopologicalOrder(G, order)
    ensures IndexOf(order, d.src) < IndexOf(order, d.dst)
  {
    var i := IndexOf(order, d.dst);
    assert Edge(d.src, order[i]) in G;
    var j :| 0 <= j < i && order[j] == d.src;
    DistinctIndices(order, j, IndexOf(order, d.src));
  }

  /** If the declared dependencies are acyclic and stay inside a phase, so is the whole compiled graph,
      and it mentions no unknown node. */
  lemma CompiledIsAcyclic(c: Plan)
    requires c.Valid() && c.OrderlyDeps()
    ensures Acyclic(c.edges)
  {
    var range := seq(|c.specs|, i requires 0 <= i < |c.specs| => i as NodeId);
    forall i: NodeId | i < |c.specs| ensures i in range { assert range[i] == i; }
    DistinctByIndices(range);
    var order := AcyclicHasOrder(DepGraph(c.specs, c.deps), Members(range));
    SizeOfMembers(range);
    SizeOfMembers(order);
    forall i: NodeId ensures i in order <==> i < |c.specs| { assert i in Members(order) <==> i in Members(range); }
    forall i, u | 0 <= i < |order| && Edge(u, order[i]) in DepGraph(c.specs, c.deps) ensures u in order[..i] {
      assert u in Members(range);
    }
    forall e | e in c.edges ensures RankOf(c.specs, order, e.src) < RankOf(c.specs, order, e.dst) {
      EdgeRaisesRank(c, order, e);
    }
    RankedIsAcyclic(c.edges, (id: NodeId) => RankOf(c.specs, order, id));
  }

  lemma EndpointsAreKnown(c: Plan, e: Edge)
    requires c.Valid() && e in c.edges
    ensures e.src in c.rows && e.dst in c.rows
  {
    EdgesHaveForm(c, e);
    if GateForm(c.specs, e) {
      var p: Phase, q: Phase :| Consecutive(c.specs, p, q) && (WaitForm(c.specs, p, e) || UnlockForm(c.specs, p, q, e));
      assert p in PhasesWithGate(c.specs);
    }
  }

  // ---- Every input compiles ----

  ghost function ClosedRows(specs: seq<Spec>, a: Answers): map<NodeId, NodeRow>
  {
    map id: NodeId | 0 <= id < 2 * |specs| + 5 && (id < 2 * |specs| || HasGate(specs, id - 2 * |specs|)) ::
      if id < 2 * |specs| then PairRows(specs)[id] else GateRow(specs, id - 2 * |specs|, a)
  }

  ghost function GateEdges(specs: seq<Spec>): set<Edge>
  {
    set p: Phase, q: Phase, e | p in {0, 1, 2, 3, 4} && q in {0, 1, 2, 3, 4} && e in GateEdgesOf(specs, p, q) :: e
  }

  ghost function GateEdgesOf(specs: seq<Spec>, p: Phase, q: Phase): set<Edge>
  {
    if Consecutive(specs, p, q) then WaitEdges(specs, p) + UnlockEdges(specs, p, q) else {}
  }

  lemma GateEdgesForm(specs: seq<Spec>, e: Edge)
    ensures e in GateEdges(specs) <==> GateEdge(specs, PhasesWithGate(specs), e)
  {
    if GateEdge(specs, PhasesWithGate(specs), e) {
      var p: Phase, q: Phase :| Consecutive(specs, p, q) && (e in WaitEdges(specs, p) || e in UnlockEdges(specs, p, q));
      assert e in GateEdgesOf(specs, p, q);
    }
    if e in GateEdges(specs) {
      var p: Phase, q: Phase :| p in {0, 1, 2, 3, 4} && q in {0, 1, 2, 3, 4} && e in GateEdgesOf(specs, p, q);
      assert p in PhasesWithGate(specs) && Consecutive(specs, p, q);
    }
  }

  lemma ClosedRowsForm(specs: seq<Spec>, a: Answers)
    ensures var rows, gated, n := ClosedRows(specs, a), PhasesWithGate(specs), |specs|;
      && (forall id: NodeId :: id in rows <==> id < 2 * n || (exists p: Phase :: p in gated && id == GateId(n, p)))
      && (forall p: Phase :: p in gated ==> GateId(n, p) in rows && rows[GateId(n, p)] == GateRow(specs, p, a))
      && PairRowsIn(specs, rows)
  {
    var rows, gated, n := ClosedRows(specs, a), PhasesWithGate(specs), |specs|;
    forall id: NodeId ensures id in rows <==> id < 2 * n || (exists p: Phase :: p in gated && id == GateId(n, p)) {
      if id in rows && id >= 2 * n {
        var p: Phase := id - 2 * n;
        assert p in gated && id == GateId(n, p);
      }
    }
  }

  /** Every list of specs, with any dependencies and answers, has a compiled graph. */
  lemma PlanExists(specs: seq<Spec>, deps: seq<(string, string)>, a: Answers) returns (c: Plan)
    ensures c.Valid() && c.specs == specs && c.deps == deps && c.answers == a
  {
    var edges := PairEdges(specs) + OrderEdges(specs, deps) + GateEdges(specs);
    c := Plan(specs, deps, a, ClosedRows(specs, a), edges);
    ClosedRowsForm(specs, a);
    forall e ensures e in edges <==>
      e in PairEdges(specs) || e in OrderEdges(specs, deps) || GateEdge(specs, PhasesWithGate(specs), e)
    {
      GateEdgesForm(specs, e);
    }
  }

  // ---- Which nodes are skipped ----

  /** Where the nodes of the k-th phase template begin among the specs. */
  function Offset(templates: seq<PhaseTemplate>, k: nat): nat
    requires k <= |templates|
  {
    if k == 0 then 0 else Offset(templates, k - 1) + |templates[k - 1].nodes|
  }

  lemma {:induction false} SpecAt(templates: seq<PhaseTemplate>, a: Answers, k: nat, i: nat)
    requires k < |templates| && i < |templates[k].nodes|
    ensures |Specs(templates, a)| == Offset(templates, |templates|)
    ensures Offset(templates, k) + i < |Specs(templates, a)|
    ensures Specs(templates, a)[Offset(templates, k) + i] == SpecOf(templates[k].phase, templates[k].nodes[i], a)
    decreases |templates|
  {
    var front, last := templates[..|templates| - 1], templates[|templates| - 1];
    SpecCount(front, a);
    SameOffsets(templates, front, |front|);
    if k < |front| {
      SpecAt(front, a, k, i);
      SameOffsets(templates, front, k);
    }
  }

  lemma {:induction false} SpecCount(templates: seq<PhaseTemplate>, a: Answers)
    ensures |Specs(templates, a)| == Offset(templates, |templates|)
    decreases |templates|
  {
    if templates != [] {
      var front := templates[..|templates| - 1];
      SpecCount(front, a);
      SameOffsets(templates, front, |front|);
    }
  }

  lemma {:induction false} SameOffsets(templates: seq<PhaseTemplate>, front: seq<PhaseTemplate>, k: nat)
    requires front <= templates && k <= |front|
    ensures Offset(templates, k) == Offset(front, k)
    decreases k
  {
    if k > 0 { SameOffsets(templates, front, k - 1); }
  }

  /** The node was excluded by name, or it is for new projects, for upgrades or for certain scopes, and this
      project is none of that. */
  predicate NotForThisProject(t: NodeTemplate, a: Answers)
  {
    || t.name in a.excluded
    || (t.when.New? && !a.isNew)
    || (t.when.Upgrade? && !a.isUpgrade)
    || (t.when.AnyScope? && forall x :: x in t.when.scopes ==> x !in a.scopes)
  }

  lemma ApplicableExactly(phase: Phase, t: NodeTemplate, a: Answers)
    ensures SpecOf(phase, t, a).phase == phase && SpecOf(phase, t, a).name == t.name
    ensures SpecOf(phase, t, a).applicable <==> !NotForThisProject(t, a)
  {
    if t.when.AnyScope? {
      assert t.when.scopes * a.scopes == {} <==> forall x :: x in t.when.scopes ==> x !in t.when.scopes * a.scopes;
    }
  }

  /** Every node template has its TASK and QA row, in the order of the templates, and they start SKIPPED exactly if
      the node is not for this project. */
  lemma SkippedExactly(templates: seq<PhaseTemplate>, c: Plan, k: nat, i: nat)
    requires c.Valid() && c.specs == Specs(templates, c.answers)
    requires k < |templates| && i < |templates[k].nodes|
    ensures var id := TaskId(Offset(templates, k) + i);
      && id in c.rows && id + 1 in c.rows
      && c.rows[id].nodeType == Task && c.rows[id + 1].nodeType == Qa
      && c.rows[id].phase == c.rows[id + 1].phase == templates[k].phase
      && c.rows[id].state == c.rows[id + 1].state
      && c.rows[id].state == if NotForThisProject(templates[k].nodes[i], c.answers) then Skipped else NotStarted
  {
    SpecAt(templates, c.answers, k, i);
    ApplicableExactly(templates[k].phase, templates[k].nodes[i], c.answers);
    EveryTaskHasItsQaPair(c, Offset(templates, k) + i);
  }
}

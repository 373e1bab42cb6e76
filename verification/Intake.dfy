/** The intake compiler: node templates to a DAG with QA pairs and phase gates
    (engine/intake/processor.py, _create_dag_and_nodes and _insert_phase_gates). */
module Intake {
  import opened Graph
  import opened StateMachine

  // ---- Templates ----

  /** Position in PHASE_ORDER: DEFINE, DESIGN, BUILD, VERIFY, DELIVER. */
  type Phase = p: nat | p <= 4
  const BUILD: Phase := 2
  const VERIFY: Phase := 3

  datatype When = Always | New | Upgrade | AnyScope(scopes: set<string>) | Other

  datatype NodeTemplate = NodeTemplate(name: string, when: When)

  datatype PhaseTemplate = PhaseTemplate(phase: Phase, nodes: seq<NodeTemplate>)

  /** The answers of the intake form that the compiler reads. */
  datatype Answers = Answers(isNew: bool, isUpgrade: bool, scopes: set<string>, excluded: set<string>, autoReview: bool)

  predicate IsApplicable(when: When, a: Answers)
  {
    match when
    case Always => true
    case New => a.isNew
    case Upgrade => a.isUpgrade
    case AnyScope(s) => s * a.scopes != {}
    case Other => true
  }

  /** One template with its phase, and whether its nodes are to run or start as SKIPPED. */
  datatype Spec = Spec(name: string, phase: Phase, applicable: bool)

  function SpecOf(phase: Phase, t: NodeTemplate, a: Answers): Spec
  {
    Spec(t.name, phase, IsApplicable(t.when, a) && t.name !in a.excluded)
  }

  function SpecsOfPhase(phase: Phase, ts: seq<NodeTemplate>, a: Answers): (r: seq<Spec>)
    ensures |r| == |ts|
  {
    seq(|ts|, i requires 0 <= i < |ts| => SpecOf(phase, ts[i], a))
  }

  function Specs(templates: seq<PhaseTemplate>, a: Answers): seq<Spec>
  {
    if templates == [] then [] else
      var last := templates[|templates| - 1];
      Specs(templates[..|templates| - 1], a) + SpecsOfPhase(last.phase, last.nodes, a)
  }

  // ---- The graph the compiler promises, in closed form ----

  datatype NodeRow = NodeRow(nodeType: NodeType, phase: Phase, state: NodeState, autoApprove: bool)

  function TaskId(i: nat): NodeId { 2 * i }
  function QaId(i: nat): NodeId { 2 * i + 1 }
  /** Gate ids are fresh; the gate that follows phase p of an n-spec plan takes this one. */
  function GateId(n: nat, p: Phase): NodeId { 2 * n + p }

  function InitialState(s: Spec): NodeState
  {
    if s.applicable then NotStarted else Skipped
  }

  predicate HasNodes(specs: seq<Spec>, p: Phase)
  {
    exists i :: 0 <= i < |specs| && specs[i].phase == p
  }

  /** p and q hold nodes and no phase between them does. */
  predicate Consecutive(specs: seq<Spec>, p: Phase, q: Phase)
  {
    p < q && HasNodes(specs, p) && HasNodes(specs, q) && forall r: Phase :: p < r < q ==> !HasNodes(specs, r)
  }

  predicate HasGate(specs: seq<Spec>, p: Phase)
  {
    exists q: Phase :: Consecutive(specs, p, q)
  }

  predicate AutoApproved(specs: seq<Spec>, p: Phase, a: Answers)
  {
    p == BUILD && Consecutive(specs, BUILD, VERIFY) && a.autoReview
  }

  function PairRows(specs: seq<Spec>): map<NodeId, NodeRow>
  {
    map id: NodeId | 0 <= id < 2 * |specs| ::
      NodeRow(if id % 2 == 0 then Task else Qa, specs[id / 2].phase, InitialState(specs[id / 2]), false)
  }

  ghost predicate PairRowsIn(specs: seq<Spec>, rows: map<NodeId, NodeRow>)
  {
    forall id: NodeId :: id < 2 * |specs| ==> id in rows && rows[id] == PairRows(specs)[id]
  }

  function GateRow(specs: seq<Spec>, p: Phase, a: Answers): NodeRow
  {
    NodeRow(Gate, p, NotStarted, AutoApproved(specs, p, a))
  }

  ghost function PairEdges(specs: seq<Spec>): set<Edge>
  {
    set i | 0 <= i < |specs| :: Edge(TaskId(i), QaId(i))
  }

  /** The name pairs of INTRA_PHASE_DEPS that both name a template, as edges between spec indices. */
  ghost function DepGraph(specs: seq<Spec>, deps: seq<(string, string)>): set<Edge>
  {
    set i: nat, j: nat | i < |specs| && j < |specs| && (specs[i].name, specs[j].name) in deps :: Edge(i, j)
  }

  ghost function OrderEdges(specs: seq<Spec>, deps: seq<(string, string)>): set<Edge>
  {
    AsOrderEdges(DepGraph(specs, deps))
  }

  ghost function AsOrderEdges(G: set<Edge>): set<Edge>
  {
    set e | e in G :: Edge(QaId(e.src), TaskId(e.dst))
  }

  ghost function WaitEdges(specs: seq<Spec>, p: Phase): set<Edge>
  {
    set i | 0 <= i < |specs| && specs[i].phase == p :: Edge(QaId(i), GateId(|specs|, p))
  }

  ghost function UnlockEdges(specs: seq<Spec>, p: Phase, q: Phase): set<Edge>
  {
    set i | 0 <= i < |specs| && specs[i].phase == q :: Edge(GateId(|specs|, p), TaskId(i))
  }

  ghost function PhasesWithGate(specs: seq<Spec>): set<Phase>
  {
    set p: Phase | p in {0, 1, 2, 3, 4} && HasGate(specs, p)
  }

  ghost predicate GateEdge(specs: seq<Spec>, gated: set<Phase>, e: Edge)
  {
    exists p: Phase, q: Phase :: p in gated && Consecutive(specs, p, q)
      && (e in WaitEdges(specs, p) || e in UnlockEdges(specs, p, q))
  }

  /** The compiled graph once the gates behind these phases are in place. */
  ghost predicate CompiledUpTo(specs: seq<Spec>, deps: seq<(string, string)>, a: Answers,
                               rows: map<NodeId, NodeRow>, edges: set<Edge>, gated: set<Phase>)
  {
    && (forall id: NodeId :: id in rows <==>
          id < 2 * |specs| || (exists p: Phase :: p in gated && id == GateId(|specs|, p)))
    && PairRowsIn(specs, rows)
    && (forall p: Phase :: p in gated ==>
          GateId(|specs|, p) in rows && rows[GateId(|specs|, p)] == GateRow(specs, p, a))
    && (forall e :: e in edges <==> e in PairEdges(specs) || e in OrderEdges(specs, deps) || GateEdge(specs, gated, e))
  }

  /** The whole compiled graph. */
  ghost predicate Compiled(specs: seq<Spec>, deps: seq<(string, string)>, a: Answers,
                           rows: map<NodeId, NodeRow>, edges: set<Edge>)
  {
    CompiledUpTo(specs, deps, a, rows, edges, PhasesWithGate(specs))
  }

  // ---- Names ----

  const QA_PREFIX: string := "[QA] "
  const GATE_PREFIX: string := "[GATE]"

  predicate PlainName(name: string)
  {
    !(QA_PREFIX <= name) && !(GATE_PREFIX <= name)
  }

  /** Template names are unique and do not look like generated names; dependency names neither. */
  ghost predicate WellNamed(specs: seq<Spec>, deps: seq<(string, string)>)
  {
    && (forall i, j :: 0 <= i < j < |specs| ==> specs[i].name != specs[j].name)
    && (forall i :: 0 <= i < |specs| ==> PlainName(specs[i].name))
    && (forall d :: d in deps ==> PlainName(d.0) && PlainName(d.1))
  }

  /** The dictionary holds one spec's two generated names. */
  ghost predicate Holds(nameToId: map<string, NodeId>, s: Spec, i: nat)
  {
    && s.name in nameToId && nameToId[s.name] == TaskId(i)
    && QA_PREFIX + s.name in nameToId && nameToId[QA_PREFIX + s.name] == QaId(i)
  }

  ghost predicate NameOf(x: string, specs: seq<Spec>)
  {
    exists i :: 0 <= i < |specs| && (x == specs[i].name || x == QA_PREFIX + specs[i].name)
  }

  /** The name dictionary after these specs. */
  ghost predicate Indexed(nameToId: map<string, NodeId>, specs: seq<Spec>)
  {
    && (forall i :: 0 <= i < |specs| ==> Holds(nameToId, specs[i], i))
    && (forall x :: x in nameToId ==> NameOf(x, specs))
    && (forall id: NodeId :: id in nameToId.Values <==> id < 2 * |specs|)
  }

  lemma WellNamedPrefix(specs: seq<Spec>, more: seq<Spec>, deps: seq<(string, string)>)
    requires WellNamed(specs + more, deps)
    ensures WellNamed(specs, deps)
  {
    var all := specs + more;
    forall i, j | 0 <= i < j < |specs| ensures specs[i].name != specs[j].name {
      assert all[i].name != all[j].name;
    }
    forall i | 0 <= i < |specs| ensures PlainName(specs[i].name) {
      assert PlainName(all[i].name);
    }
  }

  lemma SameQaName(a: string, b: string)
    requires QA_PREFIX + a == QA_PREFIX + b
    ensures a == b
  {
    assert (QA_PREFIX + a)[|QA_PREFIX|..] == a && (QA_PREFIX + b)[|QA_PREFIX|..] == b;
  }

  lemma ValuesAfterInsert(m: map<string, NodeId>, k: string, v: NodeId)
    requires k !in m
    ensures m[k := v].Values == m.Values + {v}
  {
    var m' := m[k := v];
    forall x | x in m.Values ensures x in m'.Values {
      var j :| j in m && m[j] == x;
      assert j in m' && m'[j] == x;
    }
    assert k in m' && m'[k] == v;
  }

  lemma FreshNames(nameToId: map<string, NodeId>, specs: seq<Spec>, s: Spec, deps: seq<(string, string)>)
    requires Indexed(nameToId, specs) && WellNamed(specs + [s], deps)
    ensures s.name !in nameToId && QA_PREFIX + s.name !in nameToId && s.name != QA_PREFIX + s.name
  {
    var all := specs + [s];
    assert all[|specs|] == s && PlainName(s.name);
    forall i | 0 <= i < |specs|
      ensures specs[i].name != s.name && QA_PREFIX + specs[i].name != s.name
      ensures specs[i].name != QA_PREFIX + s.name && QA_PREFIX + specs[i].name != QA_PREFIX + s.name
    {
      assert all[i].name != all[|specs|].name && PlainName(all[i].name);
      if QA_PREFIX + specs[i].name == QA_PREFIX + s.name { SameQaName(specs[i].name, s.name); }
    }
    assert !NameOf(s.name, specs) && !NameOf(QA_PREFIX + s.name, specs);
  }

  lemma NameOfGrows(x: string, specs: seq<Spec>, s: Spec)
    ensures NameOf(x, specs) || x == s.name || x == QA_PREFIX + s.name ==> NameOf(x, specs + [s])
  {
    var all := specs + [s];
    assert all[|specs|] == s;
    if NameOf(x, specs) {
      var i :| 0 <= i < |specs| && (x == specs[i].name || x == QA_PREFIX + specs[i].name);
      assert all[i] == specs[i];
    }
  }

  lemma IndexOneMore(nameToId: map<string, NodeId>, specs: seq<Spec>, s: Spec, deps: seq<(string, string)>)
    requires Indexed(nameToId, specs) && WellNamed(specs + [s], deps)
    ensures Indexed(nameToId[s.name := TaskId(|specs|)][QA_PREFIX + s.name := QaId(|specs|)], specs + [s])
  {
    var q := QA_PREFIX + s.name;
    FreshNames(nameToId, specs, s, deps);
    var m := nameToId[s.name := TaskId(|specs|)][q := QaId(|specs|)];
    IdsOneMore(nameToId, |specs|, s.name, q, m);
    HoldOneMore(nameToId, specs, s, m);
    forall x | x in m ensures NameOf(x, specs + [s]) {
      NameOfGrows(x, specs, s);
    }
  }

  lemma IdsOneMore(nameToId: map<string, NodeId>, n: nat, name: string, qaName: string, m: map<string, NodeId>)
    requires forall id: NodeId :: id in nameToId.Values <==> id < 2 * n
    requires name !in nameToId && qaName !in nameToId && name != qaName
    requires m == nameToId[name := TaskId(n)][qaName := QaId(n)]
    ensures forall id: NodeId :: id in m.Values <==> id < 2 * (n + 1)
  {
    ValuesAfterInsert(nameToId, name, TaskId(n));
    ValuesAfterInsert(nameToId[name := TaskId(n)], qaName, QaId(n));
  }

  lemma HoldOneMore(nameToId: map<string, NodeId>, specs: seq<Spec>, s: Spec, m: map<string, NodeId>)
    requires forall i :: 0 <= i < |specs| ==> Holds(nameToId, specs[i], i)
    requires s.name !in nameToId && QA_PREFIX + s.name !in nameToId && s.name != QA_PREFIX + s.name
    requires m == nameToId[s.name := TaskId(|specs|)][QA_PREFIX + s.name := QaId(|specs|)]
    ensures forall i :: 0 <= i < |specs + [s]| ==> Holds(m, (specs + [s])[i], i)
  {
    forall i | 0 <= i < |specs + [s]| ensures Holds(m, (specs + [s])[i], i) {
      if i < |specs| {
        assert (specs + [s])[i] == specs[i] && Holds(nameToId, specs[i], i);
      } else {
        assert (specs + [s])[i] == s;
      }
    }
  }

  lemma PairRowsOneMore(specs: seq<Spec>, s: Spec)
    ensures var n := |specs|;
      PairRows(specs + [s]) == PairRows(specs)[TaskId(n) := NodeRow(Task, s.phase, InitialState(s), false)]
                                              [QaId(n) := NodeRow(Qa, s.phase, InitialState(s), false)]
    ensures PairEdges(specs + [s]) == PairEdges(specs) + {Edge(TaskId(|specs|), QaId(|specs|))}
  {
    var all := specs + [s];
    assert forall i :: 0 <= i < |specs| ==> all[i] == specs[i];
    forall e ensures e in PairEdges(all) <==> e in PairEdges(specs) + {Edge(TaskId(|specs|), QaId(|specs|))} {
      if e in PairEdges(all) {
        var i :| 0 <= i < |all| && e == Edge(TaskId(i), QaId(i));
      }
      if e in PairEdges(specs) {
        var i :| 0 <= i < |specs| && e == Edge(TaskId(i), QaId(i));
        assert i < |all|;
      }
      if e == Edge(TaskId(|specs|), QaId(|specs|)) {
        assert |specs| < |all|;
      }
    }
  }

  function GetOr(m: map<string, NodeId>, k: string, default: NodeId): NodeId
  {
    if k in m then m[k] else default
  }

  /** The nodes of one type in one phase, among the named ones. */
  function NodesOf(ids: set<NodeId>, rows: map<NodeId, NodeRow>, p: Phase, t: NodeType): set<NodeId>
  {
    set id | id in ids && id in rows && rows[id].phase == p && rows[id].nodeType == t
  }

  // ---- The compiler ----

  /** The nodes and edges tables of one new DAG. */
  class Store {
    var rows: map<NodeId, NodeRow>
    var edges: set<Edge>

    constructor ()
      ensures rows == map[] && edges == {}
    {
      rows, edges := map[], {};
    }

    method InsertNode(id: NodeId, row: NodeRow)
      modifies this`rows
      ensures rows == old(rows)[id := row]
    {
      rows := rows[id := row];
    }

    /** INSERT OR IGNORE: a repeated edge is dropped. */
    method InsertEdge(src: NodeId, dst: NodeId)
      modifies this`edges
      ensures edges == old(edges) + {Edge(src, dst)}
    {
      edges := edges + {Edge(src, dst)};
    }

    /** One TASK, its QA node and the edge between them. */
    method InsertPair(ghost specs: seq<Spec>, ghost deps: seq<(string, string)>, s: Spec, n: nat,
                      nameToId: map<string, NodeId>)
      returns (nameToId': map<string, NodeId>)
      requires n == |specs| && WellNamed(specs + [s], deps)
      requires rows == PairRows(specs) && edges == PairEdges(specs) && Indexed(nameToId, specs)
      modifies this
      ensures rows == PairRows(specs + [s]) && edges == PairEdges(specs + [s]) && Indexed(nameToId', specs + [s])
    {
      PairRowsOneMore(specs, s);
      IndexOneMore(nameToId, specs, s, deps);
      var taskId, qaId := TaskId(n), QaId(n);
      InsertNode(taskId, NodeRow(Task, s.phase, InitialState(s), false));
      nameToId' := nameToId[s.name := taskId];
      InsertNode(qaId, NodeRow(Qa, s.phase, InitialState(s), false));
      nameToId' := nameToId'[QA_PREFIX + s.name := qaId];
      InsertEdge(taskId, qaId);
    }

    method InsertTemplates(templates: seq<PhaseTemplate>, a: Answers, ghost deps: seq<(string, string)>)
      returns (nameToId: map<string, NodeId>, n: nat)
      requires rows == map[] && edges == {} && WellNamed(Specs(templates, a), deps)
      modifies this
      ensures n == |Specs(templates, a)|
      ensures rows == PairRows(Specs(templates, a)) && edges == PairEdges(Specs(templates, a))
      ensures Indexed(nameToId, Specs(templates, a))
    {
      nameToId, n := map[], 0;
      assert rows == PairRows([]) && edges == PairEdges([]);
      for k := 0 to |templates|
        invariant n == |Specs(templates[..k], a)|
        invariant rows == PairRows(Specs(templates[..k], a)) && edges == PairEdges(Specs(templates[..k], a))
        invariant Indexed(nameToId, Specs(templates[..k], a))
      {
        SpecsPrefix(templates, a, k, deps);
        nameToId, n := InsertPhase(templates[k], Specs(templates[..k], a), deps, a, n, nameToId);
      }
      assert templates[..|templates|] == templates;
    }

    /** The inner loop: the nodes of one phase template. */
    method InsertPhase(tmpl: PhaseTemplate, ghost before: seq<Spec>, ghost deps: seq<(string, string)>, a: Answers,
                       n: nat, nameToId: map<string, NodeId>)
      returns (nameToId': map<string, NodeId>, n': nat)
      requires n == |before| && WellNamed(before + SpecsOfPhase(tmpl.phase, tmpl.nodes, a), deps)
      requires rows == PairRows(before) && edges == PairEdges(before) && Indexed(nameToId, before)
      modifies this
      ensures n' == |before + SpecsOfPhase(tmpl.phase, tmpl.nodes, a)|
      ensures rows == PairRows(before + SpecsOfPhase(tmpl.phase, tmpl.nodes, a))
      ensures edges == PairEdges(before + SpecsOfPhase(tmpl.phase, tmpl.nodes, a))
      ensures Indexed(nameToId', before + SpecsOfPhase(tmpl.phase, tmpl.nodes, a))
    {
      nameToId', n' := nameToId, n;
      ghost var all := SpecsOfPhase(tmpl.phase, tmpl.nodes, a);
      ghost var now := before;
      for m := 0 to |tmpl.nodes|
        invariant now == before + all[..m] && n' == |now|
        invariant rows == PairRows(now) && edges == PairEdges(now) && Indexed(nameToId', now)
      {
        var s := SpecOf(tmpl.phase, tmpl.nodes[m], a);
        assert now + [s] == before + all[..m + 1];
        assert before + all == (now + [s]) + all[m + 1..];
        WellNamedPrefix(now + [s], all[m + 1..], deps);
        nameToId' := InsertPair(now, deps, s, n', nameToId');
        now, n' := now + [s], n' + 1;
      }
      assert all[..|tmpl.nodes|] == all;
    }

    /** The edges of INTRA_PHASE_DEPS: from the first template's QA node to the second one's TASK node. */
    method InsertOrderEdges(ghost specs: seq<Spec>, deps: seq<(string, string)>, nameToId: map<string, NodeId>)
      requires WellNamed(specs, deps) && Indexed(nameToId, specs)
      modifies this`edges
      ensures edges == old(edges) + OrderEdges(specs, deps)
    {
      assert OrderEdges(specs, deps[..0]) == {};
      for k := 0 to |deps|
        invariant edges == old(edges) + OrderEdges(specs, deps[..k])
      {
        var (from, to) := deps[k];
        assert deps[k] in deps;
        OrderEdgesOneMore(specs, deps, k, nameToId);
        if from in nameToId && to in nameToId {
          InsertEdge(GetOr(nameToId, QA_PREFIX + from, nameToId[from]), nameToId[to]);
        }
      }
      assert deps[..|deps|] == deps;
    }

    method InsertEdgesInto(sources: set<NodeId>, dst: NodeId)
      modifies this`edges
      ensures edges == old(edges) + set x | x in sources :: Edge(x, dst)
    {
      var rest := sources;
      while rest != {}
        invariant rest <= sources
        invariant edges == old(edges) + set x | x in sources - rest :: Edge(x, dst)
        decreases rest
      {
        var x :| x in rest;
        InsertEdge(x, dst);
        rest := rest - {x};
      }
    }

    method InsertEdgesOutOf(src: NodeId, targets: set<NodeId>)
      modifies this`edges
      ensures edges == old(edges) + set x | x in targets :: Edge(src, x)
    {
      var rest := targets;
      while rest != {}
        invariant rest <= targets
        invariant edges == old(edges) + set x | x in targets - rest :: Edge(src, x)
        decreases rest
      {
        var x :| x in rest;
        InsertEdge(src, x);
        rest := rest - {x};
      }
    }

    /** The phases of PHASE_ORDER that hold nodes, in order. */
    method OrderedActive(ghost specs: seq<Spec>) returns (active: seq<Phase>)
      requires rows == PairRows(specs)
      ensures Ascending(specs, active, 5)
    {
      active := [];
      var k: nat := 0;
      while k < 5
        invariant k <= 5 && Ascending(specs, active, k)
      {
        ActiveInRows(specs, k);
        if exists id :: id in rows && rows[id].phase == k {
          active := active + [k];
        }
        k := k + 1;
      }
    }

    /** One gate: its row, the edges it waits for and the edges it unlocks. */
    method InsertGate(ghost specs: seq<Spec>, n: nat, a: Answers, nameToId: map<string, NodeId>, p: Phase, q: Phase)
      requires n == |specs| && Indexed(nameToId, specs) && Consecutive(specs, p, q) && PairRowsIn(specs, rows)
      modifies this
      ensures rows == old(rows)[GateId(n, p) := GateRow(specs, p, a)]
      ensures edges == old(edges) + WaitEdges(specs, p) + UnlockEdges(specs, p, q)
    {
      var gateId := GateId(n, p);
      var auto := p == BUILD && q == VERIFY && a.autoReview;
      var qaNodes := NodesOf(nameToId.Values, rows, p, Qa);
      var taskNodes := NodesOf(nameToId.Values, rows, q, Task);
      WaitEdgesAreOf(specs, rows, nameToId, p);
      UnlockEdgesAreOf(specs, rows, nameToId, p, q);
      InsertNode(gateId, NodeRow(Gate, p, NotStarted, auto));
      InsertEdgesInto(qaNodes, gateId);
      InsertEdgesOutOf(gateId, taskNodes);
    }

    /** A gate between every two adjacent phases that hold nodes. */
    method InsertPhaseGates(ghost specs: seq<Spec>, ghost deps: seq<(string, string)>, n: nat, a: Answers,
                            nameToId: map<string, NodeId>)
      requires n == |specs| && Indexed(nameToId, specs)
      requires rows == PairRows(specs) && edges == PairEdges(specs) + OrderEdges(specs, deps)
      modifies this
      ensures Compiled(specs, deps, a, rows, edges)
    {
      var active := OrderedActive(specs);
      NoGatesYet(specs, deps, a, Members(active[..0]));
      var i := 0;
      while i + 1 < |active|
        invariant 0 <= i <= |active| && (|active| > 0 ==> i < |active|)
        invariant CompiledUpTo(specs, deps, a, rows, edges, Members(active[..i]))
        decreases |active| - i
      {
        NeighborsAreConsecutive(specs, active, i);
        GateAdded(specs, deps, a, rows, edges, Members(active[..i]), active[i], active[i + 1]);
        InsertGate(specs, n, a, nameToId, active[i], active[i + 1]);
        OneMorePhase(active, i);
        i := i + 1;
      }
      AllGatesPlaced(specs, active, i);
    }

    /** The compiler: every template list with well-formed names yields exactly the promised graph. */
    method CreateDagAndNodes(templates: seq<PhaseTemplate>, deps: seq<(string, string)>, a: Answers)
      requires rows == map[] && edges == {} && WellNamed(Specs(templates, a), deps)
      modifies this
      ensures Compiled(Specs(templates, a), deps, a, rows, edges)
    {
      var nameToId, n := InsertTemplates(templates, a, deps);
      InsertOrderEdges(Specs(templates, a), deps, nameToId);
      InsertPhaseGates(Specs(templates, a), deps, n, a, nameToId);
    }
  }

  // ---- Lemmas of the compiler ----

  lemma PlainIndexed(specs: seq<Spec>, deps: seq<(string, string)>, nameToId: map<string, NodeId>, x: string)
    returns (i: nat)
    requires WellNamed(specs, deps) && Indexed(nameToId, specs) && x in nameToId && PlainName(x)
    ensures i < |specs| && specs[i].name == x && QA_PREFIX + x in nameToId
    ensures nameToId[x] == TaskId(i) && nameToId[QA_PREFIX + x] == QaId(i)
  {
    assert NameOf(x, specs);
    i :| 0 <= i < |specs| && (x == specs[i].name || x == QA_PREFIX + specs[i].name);
    assert x == specs[i].name;
    assert Holds(nameToId, specs[i], i);
  }

  lemma UniqueName(specs: seq<Spec>, deps: seq<(string, string)>, i: nat, j: nat)
    requires WellNamed(specs, deps) && i < |specs| && j < |specs| && specs[i].name == specs[j].name
    ensures i == j
  {}

  lemma DepGraphGains(specs: seq<Spec>, deps: seq<(string, string)>, k: nat, i: nat, j: nat)
    requires k < |deps| && WellNamed(specs, deps) && i < |specs| && j < |specs|
    requires deps[k] == (specs[i].name, specs[j].name)
    ensures DepGraph(specs, deps[..k + 1]) == DepGraph(specs, deps[..k]) + {Edge(i, j)}
  {
    assert deps[..k + 1] == deps[..k] + [deps[k]];
    forall e ensures e in DepGraph(specs, deps[..k + 1]) <==> e in DepGraph(specs, deps[..k]) || e == Edge(i, j) {
      if e.src < |specs| && e.dst < |specs| && (specs[e.src].name, specs[e.dst].name) == deps[k] {
        UniqueName(specs, deps, e.src, i);
        UniqueName(specs, deps, e.dst, j);
      }
      assert Edge(e.src, e.dst) == e;
    }
  }

  lemma DepGraphKept(specs: seq<Spec>, deps: seq<(string, string)>, k: nat)
    requires k < |deps|
    requires forall i, j :: 0 <= i < |specs| && 0 <= j < |specs| ==> (specs[i].name, specs[j].name) != deps[k]
    ensures DepGraph(specs, deps[..k + 1]) == DepGraph(specs, deps[..k])
  {
    assert deps[..k + 1] == deps[..k] + [deps[k]];
  }

  lemma OrderEdgesOneMore(specs: seq<Spec>, deps: seq<(string, string)>, k: nat, nameToId: map<string, NodeId>)
    requires k < |deps| && WellNamed(specs, deps) && Indexed(nameToId, specs)
    ensures var (from, to) := deps[k];
      OrderEdges(specs, deps[..k + 1]) == OrderEdges(specs, deps[..k]) +
        if from in nameToId && to in nameToId
        then {Edge(GetOr(nameToId, QA_PREFIX + from, nameToId[from]), nameToId[to])} else {}
  {
    var (from, to) := deps[k];
    assert deps[k] in deps;
    if from in nameToId && to in nameToId {
      var i := PlainIndexed(specs, deps, nameToId, from);
      var j := PlainIndexed(specs, deps, nameToId, to);
      DepGraphGains(specs, deps, k, i, j);
      var G := DepGraph(specs, deps[..k]);
      assert AsOrderEdges(G + {Edge(i, j)}) == AsOrderEdges(G) + {Edge(QaId(i), TaskId(j))};
    } else {
      forall i, j | 0 <= i < |specs| && 0 <= j < |specs| ensures (specs[i].name, specs[j].name) != deps[k] {
        assert Holds(nameToId, specs[i], i) && Holds(nameToId, specs[j], j);
      }
      DepGraphKept(specs, deps, k);
    }
  }

  lemma ActiveInRows(specs: seq<Spec>, p: Phase)
    ensures HasNodes(specs, p) <==> exists id :: id in PairRows(specs) && PairRows(specs)[id].phase == p
  {
    if HasNodes(specs, p) {
      var i :| 0 <= i < |specs| && specs[i].phase == p;
      assert TaskId(i) in PairRows(specs) && PairRows(specs)[TaskId(i)].phase == p;
    }
  }

  /** active lists, in order, exactly the phases below bound that hold nodes. */
  ghost predicate Ascending(specs: seq<Spec>, active: seq<Phase>, bound: nat)
  {
    && (forall i, j :: 0 <= i < j < |active| ==> active[i] < active[j])
    && (forall i :: 0 <= i < |active| ==> active[i] < bound && HasNodes(specs, active[i]))
    && (forall p: Phase :: p < bound && HasNodes(specs, p) ==> p in active)
  }

  lemma NeighborsAreConsecutive(specs: seq<Spec>, active: seq<Phase>, i: nat)
    requires Ascending(specs, active, 5) && i + 1 < |active|
    ensures Consecutive(specs, active[i], active[i + 1])
    ensures active[i] !in active[..i]
  {
    forall r: Phase | active[i] < r < active[i + 1] ensures r !in active {
      if k :| 0 <= k < |active| && active[k] == r {
        if k <= i { } else if k > i + 1 { }
      }
    }
  }

  lemma OneMorePhase(active: seq<Phase>, i: nat)
    requires i < |active|
    ensures Members(active[..i + 1]) == Members(active[..i]) + {active[i]}
  {
    assert active[..i + 1] == active[..i] + [active[i]];
  }

  lemma AllGatesPlaced(specs: seq<Spec>, active: seq<Phase>, i: nat)
    requires Ascending(specs, active, 5) && i + 1 >= |active| && (|active| > 0 ==> i < |active|) && i <= |active|
    ensures Members(active[..i]) == PhasesWithGate(specs)
  {
    forall p: Phase ensures p in active[..i] <==> HasGate(specs, p) {
      if p in active[..i] {
        var k :| 0 <= k < i && active[k] == p;
        NeighborsAreConsecutive(specs, active, k);
      }
      if HasGate(specs, p) {
        var q: Phase :| Consecutive(specs, p, q);
        var k :| 0 <= k < |active| && active[k] == p;
        var l :| 0 <= l < |active| && active[l] == q;
        assert k < l;
        assert active[..i][k] == p;
      }
    }
    forall p ensures p in Members(active[..i]) <==> p in PhasesWithGate(specs) {}
  }

  lemma NoGatesYet(specs: seq<Spec>, deps: seq<(string, string)>, a: Answers, none: set<Phase>)
    requires none == {}
    ensures CompiledUpTo(specs, deps, a, PairRows(specs), PairEdges(specs) + OrderEdges(specs, deps), none)
  {
    forall e ensures !GateEdge(specs, none, e) {}
    forall id: NodeId ensures id in PairRows(specs) <==> id < 2 * |specs| {}
    assert forall p: Phase :: p !in none;
  }

  lemma QaRow(specs: seq<Spec>, rows: map<NodeId, NodeRow>, nameToId: map<string, NodeId>, i: nat)
    requires Indexed(nameToId, specs) && i < |specs|
    requires PairRowsIn(specs, rows)
    ensures QaId(i) in nameToId.Values && QaId(i) in rows
    ensures rows[QaId(i)] == NodeRow(Qa, specs[i].phase, InitialState(specs[i]), false)
    ensures TaskId(i) in nameToId.Values && TaskId(i) in rows
    ensures rows[TaskId(i)] == NodeRow(Task, specs[i].phase, InitialState(specs[i]), false)
  {
    assert QaId(i) / 2 == i && TaskId(i) / 2 == i;
  }

  lemma WaitEdgesAreOf(specs: seq<Spec>, rows: map<NodeId, NodeRow>, nameToId: map<string, NodeId>, p: Phase)
    requires Indexed(nameToId, specs)
    requires PairRowsIn(specs, rows)
    ensures WaitEdges(specs, p) == set x | x in NodesOf(nameToId.Values, rows, p, Qa) :: Edge(x, GateId(|specs|, p))
  {
    var N := NodesOf(nameToId.Values, rows, p, Qa);
    forall i | 0 <= i < |specs| && specs[i].phase == p ensures QaId(i) in N {
      QaRow(specs, rows, nameToId, i);
    }
    forall x | x in N ensures x == QaId(x / 2) && x / 2 < |specs| && specs[x / 2].phase == p {
      QaRow(specs, rows, nameToId, x / 2);
    }
  }

  lemma UnlockEdgesAreOf(specs: seq<Spec>, rows: map<NodeId, NodeRow>, nameToId: map<string, NodeId>, p: Phase,
                         q: Phase)
    requires Indexed(nameToId, specs)
    requires PairRowsIn(specs, rows)
    ensures UnlockEdges(specs, p, q)
         == set x | x in NodesOf(nameToId.Values, rows, q, Task) :: Edge(GateId(|specs|, p), x)
  {
    var N := NodesOf(nameToId.Values, rows, q, Task);
    forall i | 0 <= i < |specs| && specs[i].phase == q ensures TaskId(i) in N {
      QaRow(specs, rows, nameToId, i);
    }
    forall x | x in N ensures x == TaskId(x / 2) && x / 2 < |specs| && specs[x / 2].phase == q {
      QaRow(specs, rows, nameToId, x / 2);
    }
  }

  lemma UniqueSuccessor(specs: seq<Spec>, p: Phase, q: Phase, r: Phase)
    requires Consecutive(specs, p, q) && Consecutive(specs, p, r)
    ensures q == r
  {}

  lemma GateAdded(specs: seq<Spec>, deps: seq<(string, string)>, a: Answers, rows: map<NodeId, NodeRow>,
                  edges: set<Edge>,
                  gated: set<Phase>, p: Phase, q: Phase)
    requires CompiledUpTo(specs, deps, a, rows, edges, gated) && Consecutive(specs, p, q) && p !in gated
    ensures CompiledUpTo(specs, deps, a, rows[GateId(|specs|, p) := GateRow(specs, p, a)],
                         edges + WaitEdges(specs, p) + UnlockEdges(specs, p, q), gated + {p})
  {
    forall e ensures GateEdge(specs, gated + {p}, e) <==>
      GateEdge(specs, gated, e) || e in WaitEdges(specs, p) || e in UnlockEdges(specs, p, q)
    {
      if GateEdge(specs, gated + {p}, e) {
        var p': Phase, q': Phase :| p' in gated + {p} && Consecutive(specs, p', q')
          && (e in WaitEdges(specs, p') || e in UnlockEdges(specs, p', q'));
        if p' == p { UniqueSuccessor(specs, p, q, q'); }
      }
    }
  }

  lemma {:induction false} SpecsPrefix(templates: seq<PhaseTemplate>, a: Answers, k: nat, deps: seq<(string, string)>)
    requires k < |templates| && WellNamed(Specs(templates, a), deps)
    ensures Specs(templates[..k + 1], a)
         == Specs(templates[..k], a) + SpecsOfPhase(templates[k].phase, templates[k].nodes, a)
    ensures WellNamed(Specs(templates[..k + 1], a), deps)
    decreases |templates| - k
  {
    assert templates[..k + 1][..k] == templates[..k];
    if k + 1 < |templates| {
      SpecsPrefix(templates, a, k + 1, deps);
      WellNamedPrefix(Specs(templates[..k + 1], a),
                      SpecsOfPhase(templates[k + 1].phase, templates[k + 1].nodes, a), deps);
    } else {
      assert templates[..k + 1] == templates;
    }
  }
}

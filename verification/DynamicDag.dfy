/** Splicing nodes into a live DAG (engine/core/dynamic_dag.py). */
module DynamicDag {
  import opened Graph
  import opened Options

  const MAX_INJECTIONS_PER_DAG := 20
  const MAX_LOOP_HOPS: nat := 20

  type DagId = nat

  datatype InjectionError =
    | DagNotFound
    | MaxInjectionsExceeded
    | InjectionLoop
    | ParentNotInDag
    | ChildNotInDag
    | FailedNodeNotInDag
    | EdgeInsertFailed

  datatype Row = Row(dag: DagId, injectedBy: Option<NodeId>)

  /** The tables an injection touches; edges are the active ones. */
  datatype Db = Db(dags: set<DagId>, rows: map<NodeId, Row>, edges: set<Edge>)

  datatype Request = Request(dag: DagId, parent: NodeId, children: seq<NodeId>, injectedBy: Option<NodeId>)

  predicate InDag(db: Db, id: NodeId, dag: DagId)
  {
    id in db.rows && db.rows[id].dag == dag
  }

  function Injected(db: Db, dag: DagId): set<NodeId>
  {
    set id | id in db.rows && db.rows[id].dag == dag && db.rows[id].injectedBy.Some?
  }

  /** The node k steps up the injected_by chain of v. */
  ghost function Origin(rows: map<NodeId, Row>, v: NodeId, k: nat): Option<NodeId>
    decreases k
  {
    if k == 0 then Some(v)
    else
      var u := Origin(rows, v, k - 1);
      if u.Some? && u.value in rows then rows[u.value].injectedBy else None
  }

  lemma {:induction false} ChainEnds(rows: map<NodeId, Row>, v: NodeId, k: nat, m: nat)
    requires k <= m && Origin(rows, v, k) == None
    ensures Origin(rows, v, m) == None
    decreases m
  {
    if k < m { ChainEnds(rows, v, k, m - 1); }
  }

  /** What the loop check answers: the parent is met within the hop limit, or the chain outlasts the limit. */
  ghost predicate LoopFound(rows: map<NodeId, Row>, candidate: NodeId, parent: NodeId)
  {
    || (exists k :: 0 <= k < MAX_LOOP_HOPS && Origin(rows, candidate, k) == Some(parent))
    || Origin(rows, candidate, MAX_LOOP_HOPS).Some?
  }

  ghost predicate OnChain(rows: map<NodeId, Row>, candidate: NodeId, parent: NodeId)
  {
    exists k: nat :: Origin(rows, candidate, k) == Some(parent)
  }

  /** The first check an injection fails, in the order the checks are made. */
  ghost function Problem(db: Db, q: Request): Option<InjectionError>
  {
    if q.dag !in db.dags then Some(DagNotFound)
    else if |Injected(db, q.dag)| >= MAX_INJECTIONS_PER_DAG then Some(MaxInjectionsExceeded)
    else if q.injectedBy.Some? && LoopFound(db.rows, q.injectedBy.value, q.parent) then Some(InjectionLoop)
    else if !InDag(db, q.parent, q.dag) then Some(ParentNotInDag)
    else if exists c :: c in q.children && !InDag(db, c, q.dag) then Some(ChildNotInDag)
    else None
  }

  /** What an injection needs: the DAG exists and has room, everything is in it, and the parent is not on the
      injected_by chain the request comes from, nor is that chain too long. */
  ghost predicate Admissible(db: Db, q: Request)
  {
    && q.dag in db.dags && |Injected(db, q.dag)| < 20
    && q.parent in db.rows && db.rows[q.parent].dag == q.dag
    && (forall c :: c in q.children ==> c in db.rows && db.rows[c].dag == q.dag)
    && (q.injectedBy.Some? ==>
          && (forall k :: 0 <= k < 20 ==> Origin(db.rows, q.injectedBy.value, k) != Some(q.parent))
          && Origin(db.rows, q.injectedBy.value, 20).None?)
  }

  lemma ProblemExactly(db: Db, q: Request)
    ensures Problem(db, q) == None <==> Admissible(db, q)
  {}

  ghost function Spliced(E: set<Edge>, parent: NodeId, newId: NodeId, children: set<NodeId>): set<Edge>
  {
    E + {Edge(parent, newId)} + set c | c in children :: Edge(newId, c)
  }

  /** The tables with the fresh node between its parent and the given children. */
  ghost function Inserted(db: Db, q: Request, newId: NodeId, children: seq<NodeId>): Db
  {
    db.(rows := db.rows[newId := Row(q.dag, q.injectedBy)],
        edges := Spliced(db.edges, q.parent, newId, Members(children)))
  }

  /** One call of inject_node. A child listed twice breaks the uniqueness of edges half way: the error is
      reported, but the node and the edges up to there stay. */
  ghost predicate Injects(db: Db, db': Db, q: Request, r: Result<NodeId, InjectionError>)
  {
    match Problem(db, q)
    case Some(e) => db' == db && r == Err(e)
    case None =>
      exists newId, n ::
        && newId !in db.rows && 0 <= n <= |q.children|
        && db' == Inserted(db, q, newId, q.children[..n])
        && Distinct(q.children[..n])
        && if n == |q.children| then r == Ok(newId) else r == Err(EdgeInsertFailed) && q.children[n] in q.children[..n]
  }

  lemma SpliceAdds(db: Db, db': Db, q: Request, newId: NodeId, n: nat)
    requires n == |q.children| && newId !in db.rows && db' == Inserted(db, q, newId, q.children[..n])
    ensures AddsNode(db, db', q, newId)
  {
    assert q.children[..n] == q.children;
    forall e ensures e in db'.edges <==>
      e in db.edges || e == Edge(q.parent, newId) || (e.src == newId && e.dst in q.children)
    {
      assert Edge(e.src, e.dst) == e;
      assert e.dst in Members(q.children) <==> e.dst in q.children;
    }
  }

  lemma RefusedExactly(db: Db, db': Db, q: Request, r: Result<NodeId, InjectionError>)
    requires Injects(db, db', q, r)
    ensures !Admissible(db, q) ==> db' == db && r.Err? && r != Err(EdgeInsertFailed)
    ensures r == Err(DagNotFound) <==> q.dag !in db.dags
    ensures r == Err(MaxInjectionsExceeded) <==> q.dag in db.dags && |Injected(db, q.dag)| >= 20
  {
    ProblemExactly(db, q);
  }

  /** What a call of inject_node answers and leaves: it succeeds exactly for admissible requests with no child listed
      twice, and then adds the fresh node with its edges; a request that is not admissible leaves the tables alone. */
  lemma InjectionExactly(db: Db, db': Db, q: Request, r: Result<NodeId, InjectionError>)
    requires Injects(db, db', q, r)
    ensures r.Ok? <==> Admissible(db, q) && Distinct(q.children)
    ensures r == Err(EdgeInsertFailed) <==> Admissible(db, q) && !Distinct(q.children)
    ensures !Admissible(db, q) ==> db' == db
    ensures r.Ok? ==> AddsNode(db, db', q, r.value)
  {
    RefusedExactly(db, db', q, r);
    ProblemExactly(db, q);
    if Admissible(db, q) {
      var newId: NodeId, n: nat :|
        && newId !in db.rows && n <= |q.children|
        && db' == Inserted(db, q, newId, q.children[..n])
        && Distinct(q.children[..n])
        && if n == |q.children| then r == Ok(newId) else r == Err(EdgeInsertFailed) && q.children[n] in q.children[..n];
      if n == |q.children| {
        SpliceAdds(db, db', q, newId, n);
        assert q.children[..n] == q.children;
      } else {
        RepeatedChild(q.children, n);
      }
    }
  }

  lemma RepeatedChild(s: seq<NodeId>, n: nat)
    requires n < |s| && s[n] in s[..n]
    ensures !Distinct(s)
  {
    assert s == s[..n] + ([s[n]] + s[n + 1..]);
    assert multiset(s)[s[n]] >= multiset(s[..n])[s[n]] + 1;
  }

  ghost predicate AddsNode(db: Db, db': Db, q: Request, newId: NodeId)
  {
    && newId !in db.rows && db'.dags == db.dags
    && db'.rows == db.rows[newId := Row(q.dag, q.injectedBy)]
    && (forall e :: e in db'.edges <==>
          e in db.edges || e == Edge(q.parent, newId) || (e.src == newId && e.dst in q.children))
  }

  /** The foreign keys of the edges table. */
  ghost predicate WellFormed(db: Db)
  {
    forall e :: e in db.edges ==> e.src in db.rows && e.dst in db.rows
  }

  lemma InsertedOneMore(db: Db, q: Request, newId: NodeId, k: nat)
    requires k < |q.children| && Distinct(q.children[..k]) && q.children[k] !in q.children[..k]
    ensures Distinct(q.children[..k + 1])
    ensures Inserted(db, q, newId, q.children[..k + 1]).edges
         == Inserted(db, q, newId, q.children[..k]).edges + {Edge(newId, q.children[k])}
  {
    assert q.children[..k + 1] == q.children[..k] + [q.children[k]];
    assert Members(q.children[..k + 1]) == Members(q.children[..k]) + {q.children[k]};
  }

  lemma FreshIdExists(taken: set<NodeId>) returns (id: NodeId)
    ensures id !in taken && forall x :: x in taken ==> x < id
  {
    if x :| x in taken {
      var m := FreshIdExists(taken - {x});
      id := if x < m then m else x + 1;
      forall y | y in taken ensures y < id { assert y == x || y in taken - {x}; }
    } else {
      id := 0;
    }
  }

  class DynamicDagExtension {
    var db: Db

    constructor (db: Db)
      ensures this.db == db
    {
      this.db := db;
    }

    /** Walks the injected_by chain, at most 20 hops. */
    method DetectsInjectionLoop(candidate: NodeId, parent: NodeId) returns (found: bool)
      ensures found <==> LoopFound(db.rows, candidate, parent)
    {
      var current := candidate;
      for hop := 0 to MAX_LOOP_HOPS
        invariant Origin(db.rows, candidate, hop) == Some(current)
        invariant forall k :: 0 <= k < hop ==> Origin(db.rows, candidate, k) != Some(parent)
      {
        if current == parent {
          return true;
        }
        if current !in db.rows || db.rows[current].injectedBy == None {
          forall k | hop < k <= MAX_LOOP_HOPS ensures Origin(db.rows, candidate, k) == None {
            assert Origin(db.rows, candidate, hop + 1) == None;
            ChainEnds(db.rows, candidate, hop + 1, k);
          }
          return false;
        }
        current := db.rows[current].injectedBy.value;
      }
      return true;
    }

    method InjectNode(q: Request) returns (r: Result<NodeId, InjectionError>)
      requires WellFormed(db)
      modifies this
      ensures Injects(old(db), db, q, r)
    {
      if q.dag !in db.dags {
        return Err(DagNotFound);
      }
      if |Injected(db, q.dag)| >= MAX_INJECTIONS_PER_DAG {
        return Err(MaxInjectionsExceeded);
      }
      if q.injectedBy.Some? {
        var loop := DetectsInjectionLoop(q.injectedBy.value, q.parent);
        if loop {
          return Err(InjectionLoop);
        }
      }
      if !InDag(db, q.parent, q.dag) {
        return Err(ParentNotInDag);
      }
      for k := 0 to |q.children|
        invariant forall j :: 0 <= j < k ==> InDag(db, q.children[j], q.dag)
      {
        if !InDag(db, q.children[k], q.dag) {
          return Err(ChildNotInDag);
        }
      }
      r := Insert(q);
    }

    /** The node row, the edge from the parent, then the edges to the children one by one. */
    method Insert(q: Request) returns (r: Result<NodeId, InjectionError>)
      requires WellFormed(db) && Problem(db, q) == None
      modifies this
      ensures Injects(old(db), db, q, r)
    {
      ghost var before := db;
      ghost var unused := FreshIdExists(db.rows.Keys);
      var newId :| newId !in db.rows;
      db := db.(rows := db.rows[newId := Row(q.dag, q.injectedBy)]);
      db := db.(edges := db.edges + {Edge(q.parent, newId)});
      assert Members(q.children[..0]) == {};
      for k := 0 to |q.children|
        invariant db == Inserted(before, q, newId, q.children[..k]) && Distinct(q.children[..k])
      {
        var e := Edge(newId, q.children[k]);
        if e in db.edges {
          assert q.children[k] in q.children[..k];
          return Err(EdgeInsertFailed);
        }
        InsertedOneMore(before, q, newId, k);
        db := db.(edges := db.edges + {e});
      }
      return Ok(newId);
    }

    /** Puts a repair node between the failed node and one of its predecessors, so that the failed node
        waits for it. */
    method InjectRepairNode(dag: DagId, failed: NodeId) returns (r: Result<NodeId, InjectionError>)
      requires WellFormed(db)
      modifies this
      ensures Repairs(old(db), db, dag, failed, r)
    {
      if !InDag(db, failed, dag) {
        return Err(FailedNodeNotInDag);
      }
      var parent := failed;
      if e :| e in db.edges && e.dst == failed {
        parent := e.src;
      }
      r := InjectNode(RepairRequest(dag, failed, parent));
    }
  }

  function RepairRequest(dag: DagId, failed: NodeId, parent: NodeId): Request
  {
    Request(dag, parent, [failed], Some(failed))
  }

  /** One call of inject_repair_node; which predecessor is taken is up to the database. */
  ghost predicate Repairs(db: Db, db': Db, dag: DagId, failed: NodeId, r: Result<NodeId, InjectionError>)
  {
    if !InDag(db, failed, dag) then db' == db && r == Err(FailedNodeNotInDag)
    else if exists p :: Edge(p, failed) in db.edges then
      exists p :: Edge(p, failed) in db.edges && Injects(db, db', RepairRequest(dag, failed, p), r)
    else Injects(db, db', RepairRequest(dag, failed, failed), r)
  }

  // ----- Acyclicity -----

  /** A walk that ends outside a set no walk can leave, and not in the fresh node, only used old edges. */
  lemma {:induction false} WalkAroundFresh(E: set<Edge>, parent: NodeId, newId: NodeId, children: set<NodeId>,
                                           D: iset<NodeId>, a: NodeId, b: NodeId, n: nat)
    requires forall e :: e in Spliced(E, parent, newId, children) && e.src in D ==> e.dst in D
    requires newId != parent && (forall e :: e in E ==> e.src != newId) && forall c :: c in children ==> c in D
    requires b !in D && b != newId && Hops(Spliced(E, parent, newId, children), a, b, n)
    ensures a != newId && Hops(E, a, b, n)
    decreases n
  {
    var F := Spliced(E, parent, newId, children);
    if n > 0 {
      var c :| Edge(a, c) in F && Hops(F, c, b, n - 1);
      WalkAroundFresh(E, parent, newId, children, D, c, b, n - 1);
      if c in D { ClosedSetTrapsWalks(F, D, c, b, n - 1); }
    }
  }

  lemma {:induction false} WalkInside(E: set<Edge>, F: set<Edge>, D: iset<NodeId>, a: NodeId, b: NodeId, n: nat)
    requires forall e :: e in F && e.src in D ==> e.dst in D && e in E
    requires a in D && Hops(F, a, b, n)
    ensures b in D && Hops(E, a, b, n)
    decreases n
  {
    if n > 0 {
      var c :| Edge(a, c) in F && Hops(F, c, b, n - 1);
      assert Edge(a, c).dst in D;
      WalkInside(E, F, D, c, b, n - 1);
    }
  }

  /** The spliced node closes no cycle as long as no child is, or leads to, the parent. */
  lemma SpliceKeepsAcyclic(E: set<Edge>, parent: NodeId, newId: NodeId, children: set<NodeId>)
    requires Acyclic(E) && newId != parent && newId !in children
    requires forall e :: e in E ==> e.src != newId && e.dst != newId
    requires forall c :: c in children ==> c != parent && !Reaches(E, c, parent)
    ensures Acyclic(Spliced(E, parent, newId, children))
  {
    var F := Spliced(E, parent, newId, children);
    BelowIsClosed(E, parent, newId, children);
    forall v ensures !Reaches(F, v, v) {
      if Reaches(F, v, v) {
        var n :| n >= 1 && Hops(F, v, v, n);
        CycleIsOld(E, parent, newId, children, Below(E, children), v, n);
      }
    }
  }

  lemma CycleIsOld(E: set<Edge>, parent: NodeId, newId: NodeId, children: set<NodeId>, D: iset<NodeId>, v: NodeId,
                   n: nat)
    requires newId != parent && newId !in D && (forall e :: e in E ==> e.src != newId)
    requires forall c :: c in children ==> c in D
    requires forall e :: e in Spliced(E, parent, newId, children) && e.src in D ==> e.dst in D && e in E
    requires n >= 1 && Hops(Spliced(E, parent, newId, children), v, v, n)
    ensures Reaches(E, v, v)
  {
    var F := Spliced(E, parent, newId, children);
    if v in D {
      WalkInside(E, F, D, v, v, n);
    } else if v != newId {
      WalkAroundFresh(E, parent, newId, children, D, v, v, n);
    } else {
      var c :| Edge(v, c) in F && Hops(F, c, v, n - 1);
      ClosedSetTrapsWalks(F, D, c, v, n - 1);
    }
  }

  /** The children and everything they lead to. */
  ghost function Below(E: set<Edge>, children: set<NodeId>): iset<NodeId>
  {
    iset x | LedToFrom(E, children, x)
  }

  ghost predicate LedToFrom(E: set<Edge>, children: set<NodeId>, x: NodeId)
  {
    exists c :: c in children && (x == c || Reaches(E, c, x))
  }

  /** Neither the parent nor the fresh node is below the children, so the new edges do not start there. */
  lemma BelowIsClosed(E: set<Edge>, parent: NodeId, newId: NodeId, children: set<NodeId>)
    requires newId != parent && newId !in children
    requires forall e :: e in E ==> e.src != newId && e.dst != newId
    requires forall c :: c in children ==> c != parent && !Reaches(E, c, parent)
    ensures newId !in Below(E, children) && forall c :: c in children ==> c in Below(E, children)
    ensures forall e :: e in Spliced(E, parent, newId, children) && e.src in Below(E, children) ==>
      e.dst in Below(E, children) && e in E
  {
    FreshIsUnreached(E, newId, children);
    forall e | e in Spliced(E, parent, newId, children) && e.src in Below(E, children)
      ensures e.dst in Below(E, children) && e in E
    {
      var c :| c in children && (e.src == c || Reaches(E, c, e.src));
      assert e.src != parent && e.src != newId;
      assert e in E && e == Edge(e.src, e.dst);
      ReachesThenEdge(E, c, e.src, e.dst);
    }
  }

  lemma FreshIsUnreached(E: set<Edge>, newId: NodeId, children: set<NodeId>)
    requires newId !in children && forall e :: e in E ==> e.src != newId && e.dst != newId
    ensures forall c :: c in children ==> c != newId && !Reaches(E, c, newId)
  {
    forall c | c in children ensures !Reaches(E, c, newId) {
      if Reaches(E, c, newId) {
        var n :| n >= 1 && Hops(E, c, newId, n);
        var d := LastEdge(E, c, newId, n);
      }
    }
  }

  /** ... and if some child is, or leads to, the parent, it does close one. */
  lemma SpliceClosesCycle(E: set<Edge>, parent: NodeId, newId: NodeId, children: set<NodeId>, c: NodeId)
    requires c in children && (c == parent || Reaches(E, c, parent))
    ensures !Acyclic(Spliced(E, parent, newId, children))
  {
    var F := Spliced(E, parent, newId, children);
    EdgeHops(F, parent, newId);
    ReachesThenEdge(F, parent, newId, c);
    if c != parent {
      ReachesMonotone(E, F, c, parent);
      ReachesTransitive(F, parent, c, parent);
    }
    assert Reaches(F, parent, parent);
  }

  /** The exact condition under which a successful injection keeps the graph acyclic. */
  lemma InjectionKeepsAcyclicExactly(db: Db, db': Db, q: Request, id: NodeId)
    requires WellFormed(db) && Acyclic(db.edges) && Injects(db, db', q, Ok(id))
    ensures Acyclic(db'.edges) <==> forall c :: c in q.children ==> c != q.parent && !Reaches(db.edges, c, q.parent)
  {
    assert q.children[..|q.children|] == q.children;
    assert db'.edges == Spliced(db.edges, q.parent, id, Members(q.children));
    if forall c :: c in q.children ==> c != q.parent && !Reaches(db.edges, c, q.parent) {
      SpliceKeepsAcyclic(db.edges, q.parent, id, Members(q.children));
    } else {
      var c :| c in q.children && (c == q.parent || Reaches(db.edges, c, q.parent));
      SpliceClosesCycle(db.edges, q.parent, id, Members(q.children), c);
    }
  }

  /** A DAG of the single node 7. */
  const LONELY := Db({0}, map[7 := Row(0, None)], {})

  lemma LonelyAccepts(q: Request)
    requires q == Request(0, 7, [7], None)
    ensures WellFormed(LONELY) && Acyclic(LONELY.edges) && Problem(LONELY, q) == None
  {
    RankedIsAcyclic(LONELY.edges, (v: NodeId) => 0);
    assert Injected(LONELY, 0) == {};
  }

  /** Asking for a node between 7 and 7 succeeds, and closes a cycle. */
  lemma InjectionCanCloseACycle(q: Request)
    requires q == Request(0, 7, [7], None)
    ensures WellFormed(LONELY) && Acyclic(LONELY.edges)
    ensures Injects(LONELY, Inserted(LONELY, q, 8, [7]), q, Ok(8)) && !Acyclic(Inserted(LONELY, q, 8, [7]).edges)
  {
    LonelyAccepts(q);
    OnlyChild(q, 7);
    assert q.children[..1] == [7];
    SpliceClosesCycle({}, 7, 8, Members([7]), 7);
  }

  lemma OnlyChild(q: Request, c: NodeId)
    requires q.children == [c]
    ensures q.children[..|q.children|] == [c] && Distinct([c])
  {
    DistinctByIndices([c]);
  }

  /** A repair never closes a cycle, however it ends; a failed node without a predecessor is never repaired:
      its own id stands both for the parent and for injected_by, which the loop check refuses. */
  lemma RepairsAreSafe(db: Db, db': Db, dag: DagId, failed: NodeId, r: Result<NodeId, InjectionError>)
    requires WellFormed(db) && Acyclic(db.edges) && Repairs(db, db', dag, failed, r)
    ensures Acyclic(db'.edges)
    ensures (forall p :: Edge(p, failed) !in db.edges) ==> db' == db && r.Err?
  {
    if !InDag(db, failed, dag) {
    } else if exists p :: Edge(p, failed) in db.edges {
      var p :| Edge(p, failed) in db.edges && Injects(db, db', RepairRequest(dag, failed, p), r);
      RepairClosesNoCycle(db, db', dag, failed, p, r);
    } else {
      assert Origin(db.rows, failed, 0) == Some(failed);
      assert LoopFound(db.rows, failed, failed);
      assert Problem(db, RepairRequest(dag, failed, failed)).Some?;
    }
  }

  lemma RepairClosesNoCycle(db: Db, db': Db, dag: DagId, failed: NodeId, p: NodeId, r: Result<NodeId, InjectionError>)
    requires WellFormed(db) && Acyclic(db.edges) && Edge(p, failed) in db.edges
    requires Injects(db, db', RepairRequest(dag, failed, p), r)
    ensures Acyclic(db'.edges)
  {
    var q := RepairRequest(dag, failed, p);
    if Problem(db, q) == None {
      EdgeHops(db.edges, p, failed);
      if p != failed && Reaches(db.edges, failed, p) {
        ReachesTransitive(db.edges, p, failed, p);
      }
      var newId, n :| newId !in db.rows && 0 <= n <= 1 && db' == Inserted(db, q, newId, q.children[..n]);
      SpliceKeepsAcyclic(db.edges, p, newId, Members(q.children[..n]));
    }
  }

  // ----- Limits -----

  /** Reading injected_by upwards, one edge per injected row. */
  ghost function ByEdges(rows: map<NodeId, Row>): set<Edge>
  {
    set id | id in rows && rows[id].injectedBy.Some? :: Edge(rows[id].injectedBy.value, id)
  }

  /** Chains stay inside one DAG and lead back in time. */
  ghost predicate ChainsInside(rows: map<NodeId, Row>)
  {
    && Acyclic(ByEdges(rows))
    && forall id :: id in rows && rows[id].injectedBy.Some? ==>
         rows[id].injectedBy.value in rows && rows[rows[id].injectedBy.value].dag == rows[id].dag
  }

  /** The first n steps of a chain that lasts that long, nearest first. */
  ghost function Trail(rows: map<NodeId, Row>, v: NodeId, n: nat): (t: seq<NodeId>)
    requires Origin(rows, v, n).Some?
    ensures |t| == n && forall k :: 0 <= k < n ==> Origin(rows, v, k) == Some(t[k])
  {
    if n == 0 then [] else Trail(rows, v, n - 1) + [Origin(rows, v, n - 1).value]
  }

  lemma {:induction false} TrailStaysInside(rows: map<NodeId, Row>, v: NodeId, n: nat)
    requires ChainsInside(rows) && v in rows && Origin(rows, v, n).Some?
    ensures Origin(rows, v, n).value in rows && rows[Origin(rows, v, n).value].dag == rows[v].dag
    ensures forall k :: 0 <= k < n ==>
      Origin(rows, v, k).Some? && Hops(ByEdges(rows), Origin(rows, v, n).value, Origin(rows, v, k).value, n - k)
    decreases n
  {
    if n > 0 {
      var u, w := Origin(rows, v, n - 1).value, Origin(rows, v, n).value;
      TrailStaysInside(rows, v, n - 1);
      assert Edge(w, u) in ByEdges(rows);
      EdgeHops(ByEdges(rows), w, u);
    }
  }

  /** While a DAG has fewer than 20 injected nodes, no chain inside it lasts 20 steps: the hop limit by
      itself never rejects, and the check answers exactly whether the parent is on the chain. */
  lemma HopLimitNeverRejects(db: Db, candidate: NodeId, parent: NodeId)
    requires ChainsInside(db.rows) && candidate in db.rows
    requires |Injected(db, db.rows[candidate].dag)| < MAX_INJECTIONS_PER_DAG
    ensures LoopFound(db.rows, candidate, parent) <==> OnChain(db.rows, candidate, parent)
  {
    var rows := db.rows;
    if Origin(rows, candidate, MAX_LOOP_HOPS).Some? {
      LongTrailIsMany(db, candidate, MAX_LOOP_HOPS);
    }
    if k: nat :| Origin(rows, candidate, k) == Some(parent) {
      if k >= MAX_LOOP_HOPS { ChainEnds(rows, candidate, MAX_LOOP_HOPS, k); }
    }
  }

  lemma LongTrailIsMany(db: Db, candidate: NodeId, n: nat)
    requires ChainsInside(db.rows) && candidate in db.rows
    requires Origin(db.rows, candidate, n).Some?
    ensures |Injected(db, db.rows[candidate].dag)| >= n
  {
    var rows, t := db.rows, Trail(db.rows, candidate, n);
    forall i, j | 0 <= i < j < |t| ensures t[i] != t[j] {
      TrailStaysInside(rows, candidate, j);
      assert Reaches(ByEdges(rows), t[j], t[i]);
    }
    DistinctByIndices(t);
    SizeOfMembers(t);
    forall x | x in Members(t) ensures x in Injected(db, rows[candidate].dag) {
      var k :| 0 <= k < |t| && t[k] == x;
      TrailStaysInside(rows, candidate, k);
      if k + 1 < |t| { assert Origin(rows, candidate, k + 1).Some?; }
    }
    SubsetIsSmaller(Members(t), Injected(db, rows[candidate].dag));
  }

  /** The requests that keep chains inside one DAG; every repair is one. */
  ghost predicate Local(db: Db, q: Request)
  {
    q.injectedBy.Some? ==> InDag(db, q.injectedBy.value, q.dag)
  }

  ghost predicate WithinLimit(db: Db)
  {
    forall d :: |Injected(db, d)| <= MAX_INJECTIONS_PER_DAG
  }

  /** What a request that passed every check has inserted. */
  lemma InsertedBy(db: Db, db': Db, q: Request, r: Result<NodeId, InjectionError>)
    returns (newId: NodeId, linked: seq<NodeId>)
    requires Problem(db, q) == None && Injects(db, db', q, r)
    ensures newId !in db.rows && db' == Inserted(db, q, newId, linked)
    ensures forall c :: c in linked ==> c in q.children
  {
    var id, n :| id !in db.rows && 0 <= n <= |q.children| && db' == Inserted(db, q, id, q.children[..n]);
    newId, linked := id, q.children[..n];
  }

  lemma InsertKeepsLimit(db: Db, q: Request, newId: NodeId, linked: seq<NodeId>, d: DagId)
    requires newId !in db.rows && |Injected(db, q.dag)| < MAX_INJECTIONS_PER_DAG
    requires |Injected(db, d)| <= MAX_INJECTIONS_PER_DAG
    ensures |Injected(Inserted(db, q, newId, linked), d)| <= MAX_INJECTIONS_PER_DAG
  {
    var after := Injected(Inserted(db, q, newId, linked), d);
    if d == q.dag && q.injectedBy.Some? {
      assert after == Injected(db, d) + {newId};
    } else {
      assert after == Injected(db, d);
    }
  }

  /** Whatever is requested, no call lets a DAG have more than 20 injected nodes or leaves an edge without its nodes. */
  lemma InjectionKeepsLimit(db: Db, db': Db, q: Request, r: Result<NodeId, InjectionError>)
    requires WellFormed(db) && WithinLimit(db) && Injects(db, db', q, r)
    ensures WellFormed(db') && WithinLimit(db')
  {
    if Problem(db, q) == None {
      var newId, linked := InsertedBy(db, db', q, r);
      forall d ensures |Injected(db', d)| <= MAX_INJECTIONS_PER_DAG {
        InsertKeepsLimit(db, q, newId, linked, d);
      }
      assert forall c :: c in linked ==> InDag(db, c, q.dag);
    }
  }

  lemma InsertKeepsChains(rows: map<NodeId, Row>, newId: NodeId, dag: DagId, source: Option<NodeId>)
    requires ChainsInside(rows) && newId !in rows
    requires source.Some? ==> source.value in rows && rows[source.value].dag == dag
    ensures ChainsInside(rows[newId := Row(dag, source)])
  {
    var rows' := rows[newId := Row(dag, source)];
    forall e ensures e in ByEdges(rows') <==> e in ByEdges(rows) || (source.Some? && e == Edge(source.value, newId)) {
      ByEdge(rows, e);
      ByEdge(rows', e);
    }
    if source.Some? {
      assert ByEdges(rows') == Spliced(ByEdges(rows), source.value, newId, {});
      forall e | e in ByEdges(rows) ensures e.src != newId && e.dst != newId { ByEdge(rows, e); }
      SpliceKeepsAcyclic(ByEdges(rows), source.value, newId, {});
    } else {
      assert ByEdges(rows') == ByEdges(rows);
    }
  }

  lemma ByEdge(rows: map<NodeId, Row>, e: Edge)
    ensures e in ByEdges(rows) <==> e.dst in rows && rows[e.dst].injectedBy == Some(e.src)
  {
    if e.dst in rows && rows[e.dst].injectedBy == Some(e.src) {
      assert e == Edge(rows[e.dst].injectedBy.value, e.dst);
    }
  }

  lemma InjectionKeepsChains(db: Db, db': Db, q: Request, r: Result<NodeId, InjectionError>)
    requires ChainsInside(db.rows) && Local(db, q) && Injects(db, db', q, r)
    ensures ChainsInside(db'.rows)
  {
    if Problem(db, q) == None {
      var newId, linked := InsertedBy(db, db', q, r);
      InsertKeepsChains(db.rows, newId, q.dag, q.injectedBy);
    }
  }

  ghost predicate InjectionStep(db: Db, db': Db)
  {
    exists q, r :: Injects(db, db', q, r)
  }

  ghost predicate RepairStep(db: Db, db': Db)
  {
    exists dag, failed, r :: Repairs(db, db', dag, failed, r)
  }

  /** However many injections are requested, by whomever, a DAG never gets more than 20 of them. */
  lemma {:induction false} InjectionsAreBounded(run: seq<Db>, i: nat)
    requires i < |run| && WellFormed(run[0]) && WithinLimit(run[0])
    requires forall k :: 0 <= k < |run| - 1 ==> InjectionStep(run[k], run[k + 1])
    ensures WellFormed(run[i]) && WithinLimit(run[i])
    decreases i
  {
    if i > 0 {
      InjectionsAreBounded(run, i - 1);
      assert InjectionStep(run[i - 1], run[i - 1 + 1]);
      var q, r :| Injects(run[i - 1], run[i], q, r);
      InjectionKeepsLimit(run[i - 1], run[i], q, r);
    }
  }

  /** Any sequence of repairs keeps the graph acyclic, the chains inside their DAGs and the limit. */
  lemma {:induction false} RepairRunsAreSafe(run: seq<Db>, i: nat)
    requires i < |run|
    requires WellFormed(run[0]) && WithinLimit(run[0]) && ChainsInside(run[0].rows) && Acyclic(run[0].edges)
    requires forall k :: 0 <= k < |run| - 1 ==> RepairStep(run[k], run[k + 1])
    ensures WellFormed(run[i]) && WithinLimit(run[i]) && ChainsInside(run[i].rows) && Acyclic(run[i].edges)
    decreases i
  {
    if i > 0 {
      RepairRunsAreSafe(run, i - 1);
      assert RepairStep(run[i - 1], run[i - 1 + 1]);
      var dag, failed, r :| Repairs(run[i - 1], run[i], dag, failed, r);
      RepairsAreSafe(run[i - 1], run[i], dag, failed, r);
      RepairIsAnInjection(run[i - 1], run[i], dag, failed, r);
    }
  }

  lemma RepairIsAnInjection(db: Db, db': Db, dag: DagId, failed: NodeId, r: Result<NodeId, InjectionError>)
    requires WellFormed(db) && WithinLimit(db) && ChainsInside(db.rows) && Repairs(db, db', dag, failed, r)
    ensures WellFormed(db') && WithinLimit(db') && ChainsInside(db'.rows)
  {
    if InDag(db, failed, dag) {
      var q;
      if exists p :: Edge(p, failed) in db.edges {
        var p :| Edge(p, failed) in db.edges && Injects(db, db', RepairRequest(dag, failed, p), r);
        q := RepairRequest(dag, failed, p);
      } else {
        q := RepairRequest(dag, failed, failed);
      }
      InjectionKeepsLimit(db, db', q, r);
      InjectionKeepsChains(db, db', q, r);
    }
  }
}

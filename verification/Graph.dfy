/** Directed graphs over opaque node ids: walks, reachability and acyclicity.
    Shared by the sort, the cycle detector, the cascade, the injector and the intake compiler. */
module Graph {

  /** A node id. The engine uses random strings; only equality of ids is ever observed. */
  type NodeId = nat

  datatype Edge = Edge(src: NodeId, dst: NodeId)

  /** There is a walk of exactly n edges from a to b. */
  ghost predicate Hops(E: set<Edge>, a: NodeId, b: NodeId, n: nat)
    decreases n
  {
    if n == 0 then a == b
    else exists c :: Edge(a, c) in E && Hops(E, c, b, n - 1)
  }

  /** b is reachable from a by a walk of at least one edge. */
  ghost predicate Reaches(E: set<Edge>, a: NodeId, b: NodeId)
  {
    exists n :: n >= 1 && Hops(E, a, b, n)
  }

  ghost predicate Acyclic(E: set<Edge>)
  {
    forall v :: !Reaches(E, v, v)
  }

  lemma {:induction false} HopsConcat(E: set<Edge>, a: NodeId, b: NodeId, c: NodeId, m: nat, n: nat)
    requires Hops(E, a, b, m) && Hops(E, b, c, n)
    ensures Hops(E, a, c, m + n)
    decreases m
  {
    if m > 0 {
      var d :| Edge(a, d) in E && Hops(E, d, b, m - 1);
      HopsConcat(E, d, b, c, m - 1, n);
    }
  }

  lemma EdgeHops(E: set<Edge>, a: NodeId, b: NodeId)
    requires Edge(a, b) in E
    ensures Hops(E, a, b, 1) && Reaches(E, a, b)
  {
    assert Hops(E, b, b, 0);
  }

  lemma ReachesTransitive(E: set<Edge>, a: NodeId, b: NodeId, c: NodeId)
    requires Reaches(E, a, b) && Reaches(E, b, c)
    ensures Reaches(E, a, c)
  {
    var m :| m >= 1 && Hops(E, a, b, m);
    var n :| n >= 1 && Hops(E, b, c, n);
    HopsConcat(E, a, b, c, m, n);
  }

  lemma ReachesThenEdge(E: set<Edge>, a: NodeId, b: NodeId, c: NodeId)
    requires (a == b || Reaches(E, a, b)) && Edge(b, c) in E
    ensures Reaches(E, a, c)
  {
    EdgeHops(E, b, c);
    if a != b { ReachesTransitive(E, a, b, c); }
  }

  /** A non-empty walk has a last edge. */
  lemma {:induction false} LastEdge(E: set<Edge>, a: NodeId, b: NodeId, n: nat) returns (c: NodeId)
    requires n >= 1 && Hops(E, a, b, n)
    ensures Edge(c, b) in E && Hops(E, a, c, n - 1)
    decreases n
  {
    var d :| Edge(a, d) in E && Hops(E, d, b, n - 1);
    if n == 1 {
      c := a;
    } else {
      c := LastEdge(E, d, b, n - 1);
    }
  }

  /** Walks survive when edges are added. */
  lemma {:induction false} HopsMonotone(E: set<Edge>, F: set<Edge>, a: NodeId, b: NodeId, n: nat)
    requires E <= F && Hops(E, a, b, n)
    ensures Hops(F, a, b, n)
    decreases n
  {
    if n > 0 {
      var c :| Edge(a, c) in E && Hops(E, c, b, n - 1);
      HopsMonotone(E, F, c, b, n - 1);
    }
  }

  lemma ReachesMonotone(E: set<Edge>, F: set<Edge>, a: NodeId, b: NodeId)
    requires E <= F && Reaches(E, a, b)
    ensures Reaches(F, a, b)
  {
    var n :| n >= 1 && Hops(E, a, b, n);
    HopsMonotone(E, F, a, b, n);
  }

  /** A walk that starts in a set closed under successors stays in it. */
  lemma {:induction false} ClosedSetTrapsWalks(E: set<Edge>, S: iset<NodeId>, a: NodeId, b: NodeId, n: nat)
    requires forall e :: e in E && e.src in S ==> e.dst in S
    requires a in S && Hops(E, a, b, n)
    ensures b in S
    decreases n
  {
    if n > 0 {
      var c :| Edge(a, c) in E && Hops(E, c, b, n - 1);
      assert Edge(a, c).dst in S;
      ClosedSetTrapsWalks(E, S, c, b, n - 1);
    }
  }

  /** A rank that grows along every edge grows along every walk. */
  lemma {:induction false} RankGrows(E: set<Edge>, rank: NodeId -> int, a: NodeId, b: NodeId, n: nat)
    requires forall e :: e in E ==> rank(e.src) < rank(e.dst)
    requires Hops(E, a, b, n)
    ensures rank(a) + n <= rank(b)
    decreases n
  {
    if n > 0 {
      var c :| Edge(a, c) in E && Hops(E, c, b, n - 1);
      assert rank(Edge(a, c).src) < rank(Edge(a, c).dst);
      RankGrows(E, rank, c, b, n - 1);
    }
  }

  lemma RankedIsAcyclic(E: set<Edge>, rank: NodeId -> int)
    requires forall e :: e in E ==> rank(e.src) < rank(e.dst)
    ensures Acyclic(E)
  {
    forall v ensures !Reaches(E, v, v) {
      if Reaches(E, v, v) {
        var n :| n >= 1 && Hops(E, v, v, n);
        RankGrows(E, rank, v, v, n);
      }
    }
  }

  /** Everything with a non-empty walk into v. */
  ghost function Ancestors(E: set<Edge>, v: NodeId): set<NodeId>
  {
    set e | e in E && Reaches(E, e.src, v) :: e.src
  }

  lemma ReacherIsAncestor(E: set<Edge>, u: NodeId, v: NodeId)
    requires Reaches(E, u, v)
    ensures u in Ancestors(E, v)
  {
    var n :| n >= 1 && Hops(E, u, v, n);
    var c :| Edge(u, c) in E && Hops(E, c, v, n - 1);
    assert Edge(u, c) in E && Reaches(E, Edge(u, c).src, v);
  }

  /** In an acyclic graph no set can give every one of its members a predecessor inside the set:
      walking backwards from v would lose an ancestor at every step for ever. */
  lemma {:induction false} EverySetHasASource(E: set<Edge>, S: set<NodeId>, v: NodeId) returns (r: NodeId)
    requires Acyclic(E) && v in S
    ensures r in S && forall u :: u in S ==> Edge(u, r) !in E
    decreases Ancestors(E, v)
  {
    if u :| u in S && Edge(u, v) in E {
      EdgeHops(E, u, v);
      ReacherIsAncestor(E, u, v);
      forall w | w in Ancestors(E, u) ensures w in Ancestors(E, v) {
        ReachesThenEdge(E, w, u, v);
        ReacherIsAncestor(E, w, v);
      }
      assert u !in Ancestors(E, u);
      r := EverySetHasASource(E, S, u);
    } else {
      r := v;
    }
  }

  /** An acyclic graph can be listed sources first, restricted to any finite set of nodes. */
  lemma {:induction false} AcyclicHasOrder(E: set<Edge>, ids: set<NodeId>) returns (order: seq<NodeId>)
    requires Acyclic(E)
    ensures Distinct(order) && Members(order) == ids
    ensures forall i, u :: 0 <= i < |order| && u in ids && Edge(u, order[i]) in E ==> u in order[..i]
    decreases ids
  {
    if v :| v in ids {
      var r := EverySetHasASource(E, ids, v);
      var rest := AcyclicHasOrder(E, ids - {r});
      order := [r] + rest;
      assert r !in Members(rest);
      assert Members(order) == {r} + Members(rest);
      forall i, u | 0 <= i < |order| && u in ids && Edge(u, order[i]) in E ensures u in order[..i] {
        assert order[i] in Members(order);
        if i > 0 && u != r {
          assert order[i] == rest[i - 1];
          assert Edge(u, rest[i - 1]) in E && u in ids - {r};
          assert u in rest[..i - 1];
          assert order[..i] == [r] + rest[..i - 1];
        }
      }
    } else {
      order := [];
      assert Members(order) == {};
    }
  }

  /** The edges of every member of the order come from earlier members. */
  ghost predicate TopologicalOrder(E: set<Edge>, order: seq<NodeId>)
  {
    forall i, u :: 0 <= i < |order| && Edge(u, order[i]) in E ==> u in order[..i]
  }

  /** No element occurs twice. */
  ghost predicate Distinct<T(!new)>(s: seq<T>)
  {
    forall x :: multiset(s)[x] <= 1
  }

  lemma TwoPositions<T>(s: seq<T>, i: nat, j: nat)
    requires i < j < |s| && s[i] == s[j]
    ensures multiset(s)[s[i]] >= 2
  {
    assert s == s[..i] + [s[i]] + s[i + 1..j] + [s[j]] + s[j + 1..];
  }

  lemma DistinctIndices<T(!new)>(s: seq<T>, i: nat, j: nat)
    requires Distinct(s) && i < |s| && j < |s| && s[i] == s[j]
    ensures i == j
  {
    if i < j {
      TwoPositions(s, i, j);
    } else if j < i {
      TwoPositions(s, j, i);
    }
  }

  lemma DistinctParts<T(!new)>(s: seq<T>, t: seq<T>)
    requires Distinct(s + t)
    ensures Distinct(s) && Distinct(t)
    ensures forall x :: x in s ==> x !in t
  {
    forall x ensures multiset(s)[x] + multiset(t)[x] <= 1 {
      assert multiset(s + t)[x] <= 1;
    }
    forall x | x in s ensures x !in t {
      assert multiset(s)[x] >= 1 && multiset(s)[x] + multiset(t)[x] <= 1;
    }
  }

  lemma DistinctSplit<T(!new)>(s: seq<T>, i: nat)
    requires Distinct(s) && i < |s|
    ensures s[i] !in s[..i] && s[i] !in s[i + 1..]
    ensures Distinct(s[..i]) && Distinct(s[i + 1..]) && Distinct(s[i..])
  {
    assert s == s[..i] + s[i..] == s[..i + 1] + s[i + 1..];
    DistinctParts(s[..i], s[i..]);
    DistinctParts(s[..i + 1], s[i + 1..]);
    assert s[i] in s[i..] && s[i] in s[..i + 1];
  }

  /** A duplicate shows up at two positions. */
  lemma DistinctByIndices<T(!new)>(s: seq<T>)
    requires forall i, j :: 0 <= i < j < |s| ==> s[i] != s[j]
    ensures Distinct(s)
    decreases |s|
  {
    if s != [] {
      var front, last := s[..|s| - 1], s[|s| - 1];
      DistinctByIndices(front);
      assert s == front + [last];
      assert last !in front;
    }
  }

  ghost function IndexOf(s: seq<NodeId>, x: NodeId): (k: nat)
    ensures k <= |s| && (x in s ==> k < |s| && s[k] == x)
  {
    if x in s then var k :| 0 <= k < |s| && s[k] == x; k else |s|
  }

  lemma PlaceLast(E: set<Edge>, order: seq<NodeId>, v: NodeId)
    requires TopologicalOrder(E, order)
    requires forall u :: Edge(u, v) in E ==> u in order
    ensures TopologicalOrder(E, order + [v])
  {
    var next := order + [v];
    forall i, u | 0 <= i < |next| && Edge(u, next[i]) in E ensures u in next[..i] {
      if i < |order| {
        assert next[i] == order[i] && next[..i] == order[..i];
      } else {
        assert next[..i] == order;
      }
    }
  }

  /** A set of nodes whose complement inside the graph has no source cannot miss anything. */
  lemma NoSourceLeftMeansAllPlaced(E: set<Edge>, ids: set<NodeId>, placed: set<NodeId>)
    requires Acyclic(E) && forall e :: e in E ==> e.src in ids
    requires forall x :: x in ids && x !in placed ==> exists u :: Edge(u, x) in E && u !in placed
    ensures ids <= placed
  {
    if v :| v in ids && v !in placed {
      var r := EverySetHasASource(E, ids - placed, v);
      if u :| Edge(u, r) in E && u !in placed { }
    }
  }

  /** An order that contains every edge target and lists sources first witnesses acyclicity. */
  lemma OrderedIsAcyclic(E: set<Edge>, order: seq<NodeId>)
    requires Distinct(order) && TopologicalOrder(E, order)
    requires forall e :: e in E ==> e.dst in order
    ensures Acyclic(E)
  {
    var rank := (v: NodeId) => IndexOf(order, v);
    forall e | e in E ensures rank(e.src) < rank(e.dst) {
      var k := IndexOf(order, e.dst);
      assert Edge(e.src, order[k]) in E;
      var j :| 0 <= j < k && order[j] == e.src;
      DistinctIndices(order, j, IndexOf(order, e.src));
    }
    RankedIsAcyclic(E, rank);
  }

  ghost function Members<T>(s: seq<T>): set<T>
  {
    set x | x in s
  }

  ghost function Targets(edges: seq<Edge>): set<NodeId>
  {
    set e | e in edges :: e.dst
  }

  /** A list is duplicate-free exactly when it is as long as its set of members. */
  lemma {:induction false} SizeOfMembers<T(!new)>(s: seq<T>)
    ensures |Members(s)| <= |s|
    ensures |Members(s)| == |s| <==> Distinct(s)
  {
    if s != [] {
      var front, last := s[..|s| - 1], s[|s| - 1];
      SizeOfMembers(front);
      assert s == front + [last];
      assert Members(s) == Members(front) + {last};
      if last in front {
        assert Members(s) == Members(front);
        assert multiset(s)[last] >= 2;
      } else if Distinct(s) {
        forall x ensures multiset(front)[x] <= 1 { assert multiset(s)[x] <= 1; }
      }
    } else {
      assert Members(s) == {};
    }
  }

  lemma DistinctMultiset<T(!new)>(s: seq<T>)
    requires Distinct(s)
    ensures multiset(s) == multiset(Members(s))
  {
    forall x ensures multiset(s)[x] == multiset(Members(s))[x] {
      assert x in multiset(s) <==> x in s;
    }
  }

  lemma DistinctPermutation<T(!new)>(s: seq<T>, t: seq<T>)
    requires Distinct(s) && multiset(s) == multiset(t)
    ensures Distinct(t) && Members(s) == Members(t)
  {
    forall x ensures x in s <==> x in t {
      assert x in multiset(s) <==> x in multiset(t);
    }
  }

  lemma SubsetOfSameSize<T>(a: set<T>, b: set<T>)
    requires a <= b && |a| >= |b|
    ensures a == b
  {
    assert b == a + (b - a);
  }

  lemma SubsetIsSmaller<T>(a: set<T>, b: set<T>)
    requires a <= b
    ensures |a| <= |b|
  {
    assert b == a + (b - a);
  }

  lemma DistinctTail<T(!new)>(s: seq<T>)
    requires Distinct(s) && s != []
    ensures Distinct(s[1..]) && s[0] !in s[1..]
  {
    assert s == [s[0]] + s[1..];
    forall x ensures multiset(s[1..])[x] <= 1 { assert multiset(s)[x] <= 1; }
    assert multiset(s)[s[0]] == 1 + multiset(s[1..])[s[0]];
  }
}

/** The scheduler and the compiled graph together (engine/intake/processor.py:661-846 sorted by
    engine/core/dag_advancer.py:61-98). */
module CompiledSchedule {
  import opened Graph
  import opened AdvancePass
  import opened CompiledGraph
  import opened PhaseOrder
  import DagAdvancer

  /** The scheduler accepts every compiled DAG: all dependencies are known and there is no cycle. */
  lemma CompiledIsSchedulable(c: Plan, t0: Table)
    requires c.Valid() && c.OrderlyDeps() && Loaded(c, t0)
    ensures DagAdvancer.Schedulable(t0)
  {
    CompiledIsAcyclic(c);
    forall id, d | id in t0 && d in t0[id].deps ensures d in t0 {
      EndpointsAreKnown(c, Edge(d, id));
    }
    forall e | e in TableEdges(t0) ensures e in c.edges {
      var i :| 0 <= i < |t0[e.dst].deps| && t0[e.dst].deps[i] == e.src;
      assert e == Edge(e.src, e.dst);
    }
    forall v ensures !Reaches(TableEdges(t0), v, v) {
      if Reaches(TableEdges(t0), v, v) { ReachesMonotone(TableEdges(t0), c.edges, v, v); }
    }
  }
}

/** The builder's cycle test and the executor's sort, written apart, judge every graph alike. */
module GraphAgreement {
  import opened Graph
  import T = TopologicalSort
  import CycleDetection

  /** The builder finds a cycle exactly when the executor falls back, and exactly when the order breaks an arc. */
  method CheckThenSort(ids: seq<Id>, edges: seq<Edge>) returns (cyclic: bool, order: seq<Id>)
    requires Distinct(ids)
    ensures T.Scheduled(ids, edges, order)
    ensures cyclic <==> T.CycleBound(ids, Arcs(ToSet(ids), edges)) != []
    ensures cyclic <==> !T.Topological(Arcs(ToSet(ids), edges), order)
  {
    hide *;
    cyclic := CycleDetection.HasCycle(ids, edges);
    order := T.TopologicalSort(ids, edges);
    T.FallbackIffCyclic(ids, edges);
    T.ScheduleTopologicalIffAcyclic(ids, edges, order);
  }
}

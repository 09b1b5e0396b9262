/** The validator on the data of a workflow: it reports no cycle exactly for the acyclic ones. */
module WorkflowAdmission {
  import opened WorkflowGraph
  import opened CycleDetector
  import opened Scheduler
  import opened SchedulerBound
  import opened SchedulerResults

  lemma WellFormedIsClosed(w: Workflow)
    requires WellFormed(w)
    ensures Closed(GraphOf(w))
  {
    forall v, m | Edge(GraphOf(w), v, m)
      ensures m in GraphOf(w)
    {
      TargetsIn(w.edges, v, m);
    }
  }

  /** No cycle is reported if and only if the guarantees for acyclic workflows apply. */
  method FindCycles(w: Workflow) returns (cycles: seq<seq<Id>>)
    requires WellFormed(w)
    ensures cycles == [] <==> Acyclic(GraphOf(w))
    ensures forall i :: 0 <= i < |cycles| ==> IsCycle(GraphOf(w), cycles[i]) && Distinct(cycles[i])
  {
    hide IsCycle, Acyclic;
    var g := BuildAdjacencyList(w.nodes, w.edges);
    assert g.value == GraphOf(w);
    WellFormedIsClosed(w);
    var r := DetectCycles(w.nodes, g.value);
    cycles := r.cycles;
  }
}

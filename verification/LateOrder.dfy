/** A topological sort asked for after a completion: an instance in which it puts a
    subtask before a predecessor that is not complete (internal/orchestration/scheduler.go). */
module LateOrder {
  import opened Graph
  import opened Decomposition
  import opened DagOrder
  import opened Scheduler
  import Spec = SchedulerSpec

  // Subtask w depends on a and on b, and is declared between them.
  function Instance(): TaskDecomposition {
    TaskDecomposition("t", [
      Subtask("a", "first", "", "", [], "pending"),
      Subtask("w", "both", "", "", ["a", "b"], "pending"),
      Subtask("b", "second", "", "", [], "pending")], [], map[])
  }

  lemma InstanceIds()
    ensures Ids(Instance()) == ["a", "w", "b"]
  {
  }

  lemma InstanceEdges()
    ensures Edges(Instance()) == {("a", "w"), ("b", "w")}
  {
    var ss := Instance().subtasks;
    var edges: set<Edge> := {("a", "w"), ("b", "w")};
    forall e: Edge ensures e in Edges(Instance()) <==> e in edges {
      var (u, v) := e;
      EdgesIff(Instance(), u, v);
      assert forall s :: s in ss <==> s == ss[0] || s == ss[1] || s == ss[2];
      assert ss[0].dependencies == [] && ss[2].dependencies == [];
      assert u in ss[1].dependencies <==> u == "a" || u == "b";
      assert ss[1] in ss && ss[1].id == "w" && ss[0].id == "a" && ss[2].id == "b";
      assert e == (u, v);
    }
  }

  lemma InstanceWellFormed()
    ensures WellFormed(Instance())
  {
    InstanceIds();
    var d := Instance();
    var ids := ["a", "w", "b"];
    assert ids[0] in Elems(ids) && ids[1] in Elems(ids) && ids[2] in Elems(ids);
    forall s | s in d.subtasks ensures SubtaskOk(s, Elems(ids)) {
      assert s == d.subtasks[0] || s == d.subtasks[1] || s == d.subtasks[2];
    }
  }

  /** A valid scheduler for the instance in which exactly a is complete sorts w before b. */
  lemma LateOrderBreaksAnEdge(s: DAGScheduler)
    requires s.Valid() && s.ids == ["a", "w", "b"] && s.edges == {("a", "w"), ("b", "w")}
    requires s.completed == {"a"}
    ensures CountsFor(s.ids, s.edges, s.dependencyCount)
    ensures !IsTopological(s.ids, s.edges, Greedy(s.ids, s.edges, s.dependencyCount, []))
  {
    s.ValidParts();
    s.CountsCover();
    LateCounters(s);
    hide *;
    LowCounterBreaksAnEdge(s.ids, s.edges, s.dependencyCount);
  }

  lemma LateCounters(s: DAGScheduler)
    requires s.ids == ["a", "w", "b"] && s.edges == {("a", "w"), ("b", "w")}
    requires s.CountedFor({"a"}, s.dependencyCount)
    ensures "a" in s.dependencyCount && s.dependencyCount["a"] == 0
    ensures "w" in s.dependencyCount && s.dependencyCount["w"] == 1
  {
    LateEdges(s.ids, s.edges);
    assert Preds(s.edges, "w") - {"a"} == {"b"};
    assert "a" in Elems(s.ids) && "w" in Elems(s.ids) by { assert s.ids[0] == "a" && s.ids[1] == "w"; }
  }

  lemma AfterFirst()
    ensures
      var ids, edges := ["a", "w", "b"], {("a", "w"), ("b", "w")};
      Spec.AfterComplete(ids, edges, Spec.AfterSchedule(Spec.Init(ids, edges)), "a").completed == {"a"}
  {
    assert ["a", "w", "b"][0] == "a";
  }

  /** Such a scheduler is reached by completing a after the first Schedule. */
  method SortAfterCompletion() returns (order: seq<Subtask>)
    ensures !IsTopological(["a", "w", "b"], {("a", "w"), ("b", "w")}, SubtaskIds(order))
  {
    hide *;
    InstanceIds();
    InstanceEdges();
    InstanceWellFormed();
    AfterFirst();
    LateSetup(["a", "w", "b"], {("a", "w"), ("b", "w")});
    var s, verdict := DAGScheduler.New(Instance());
    var batch := s.Schedule();
    var ready := s.MarkComplete("a");
    s.ViewFields();
    LateOrderBreaksAnEdge(s);
    var sorted := s.TopologicalSort();
    order := sorted.order;
  }
}

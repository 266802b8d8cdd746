/** The dependency-aware scheduler with its counters, ready queue and sorts
    (internal/orchestration/scheduler.go), proved against SchedulerSpec. */
module Scheduler {
  import opened Graph
  import opened DagOrder
  import opened Decomposition
  import Spec = SchedulerSpec

  datatype SortResult = Ordered(order: seq<Subtask>) | Unschedulable(taskID: string)

  // Inserts x into a list kept in declaration order.
  method Insert(ids: seq<Id>, q: seq<Id>, x: Id) returns (r: seq<Id>)
    requires InDeclarationOrder(ids, q) && x in ids && x !in Elems(q)
    ensures InDeclarationOrder(ids, r) && Elems(r) == Elems(q) + {x}
  {
    var k := |q|;
    while k > 0 && Pos(ids, x) < Pos(ids, q[k - 1])
      invariant 0 <= k <= |q|
      invariant forall j :: k <= j < |q| ==> Pos(ids, x) < Pos(ids, q[j])
    {
      k := k - 1;
    }
    r := q[..k] + [x] + q[k..];
    InsertedInOrder(ids, q, x, k);
  }

  lemma InsertedInOrder(ids: seq<Id>, q: seq<Id>, x: Id, k: nat)
    requires InDeclarationOrder(ids, q) && x in ids && x !in q && k <= |q|
    requires forall j :: k <= j < |q| ==> Pos(ids, x) < Pos(ids, q[j])
    requires k > 0 ==> Pos(ids, q[k - 1]) <= Pos(ids, x)
    ensures InDeclarationOrder(ids, q[..k] + [x] + q[k..])
    ensures Elems(q[..k] + [x] + q[k..]) == Elems(q) + {x}
  {
    hide *;
    BeforeInsertion(ids, q, x, k);
    AfterInsertion(ids, q, x, k);
    OrderedConcat(ids, q[..k], [x]);
    OrderedConcat(ids, q[..k] + [x], q[k..]);
    ElemsInserted(q, x, k);
  }

  lemma ElemsInserted(q: seq<Id>, x: Id, k: nat)
    requires k <= |q|
    ensures Elems(q[..k] + [x] + q[k..]) == Elems(q) + {x}
  {
    hide *;
    assert q == q[..k] + q[k..];
    ElemsConcat(q[..k], q[k..]);
    ElemsSnoc(q[..k], x);
    ElemsConcat(q[..k] + [x], q[k..]);
  }

  lemma ShortInOrder(ids: seq<Id>, q: seq<Id>)
    requires |q| <= 1 && forall w :: w in q ==> w in ids
    ensures InDeclarationOrder(ids, q)
  {
  }

  lemma BeforeInsertion(ids: seq<Id>, q: seq<Id>, x: Id, k: nat)
    requires InDeclarationOrder(ids, q) && x in ids && x !in q && k <= |q|
    requires k > 0 ==> Pos(ids, q[k - 1]) <= Pos(ids, x)
    ensures InDeclarationOrder(ids, q[..k])
    ensures forall j :: 0 <= j < k ==> Pos(ids, q[j]) < Pos(ids, x)
  {
    forall j | 0 <= j < k ensures Pos(ids, q[j]) < Pos(ids, x) {
      PosInjective(ids, q[k - 1], x);
    }
  }

  lemma AfterInsertion(ids: seq<Id>, q: seq<Id>, x: Id, k: nat)
    requires InDeclarationOrder(ids, q) && x in ids && k <= |q|
    requires k > 0 ==> Pos(ids, q[k - 1]) <= Pos(ids, x)
    requires forall j :: k <= j < |q| ==> Pos(ids, x) < Pos(ids, q[j])
    ensures InDeclarationOrder(ids, q[k..])
    ensures forall i, j :: 0 <= i < k + 1 && 0 <= j < |q| - k ==>
      Pos(ids, (q[..k] + [x])[i]) < Pos(ids, q[k..][j])
  {
    var p := q[..k] + [x];
    forall i, j | 0 <= i < k + 1 && 0 <= j < |q| - k ensures Pos(ids, p[i]) < Pos(ids, q[k..][j]) {
      assert q[k..][j] == q[k + j];
      assert p[i] == if i < k then q[i] else x;
    }
  }

  lemma OrderedConcat(ids: seq<Id>, p: seq<Id>, q: seq<Id>)
    requires InDeclarationOrder(ids, p) && InDeclarationOrder(ids, q)
    requires forall i, j :: 0 <= i < |p| && 0 <= j < |q| ==> Pos(ids, p[i]) < Pos(ids, q[j])
    ensures InDeclarationOrder(ids, p + q)
  {
    var r := p + q;
    forall i, j | 0 <= i < j < |r| ensures Pos(ids, r[i]) < Pos(ids, r[j]) {
      if j < |p| {
        assert r[i] == p[i] && r[j] == p[j];
      } else if i < |p| {
        assert r[i] == p[i] && r[j] == q[j - |p|];
      } else {
        assert r[i] == q[i - |p|] && r[j] == q[j - |p|];
      }
    }
  }

  // Every list the scheduler sorts is free of repetition.
  method SortIDs(ids: seq<Id>, q: seq<Id>) returns (r: seq<Id>)
    requires Distinct(q) && Elems(q) <= Elems(ids)
    ensures r == InOrder(ids, Elems(q)) && InDeclarationOrder(ids, r) && Elems(r) == Elems(q)
  {
    r := [];
    var i := 0;
    while i < |q|
      invariant 0 <= i <= |q|
      invariant InDeclarationOrder(ids, r) && Elems(r) == Elems(q[..i])
    {
      ElemsPrefix(q, i);
      assert q[i] in Elems(q);
      assert q[i] !in Elems(q[..i]);
      r := Insert(ids, r, q[i]);
      i := i + 1;
    }
    assert q[..i] == q;
    SortedIsInOrder(ids, r, Elems(q));
  }

  // Lowers the counter of each dependent by one and collects those that reach zero.
  method Decrement(remaining0: map<Id, int>, deps: seq<Id>) returns (remaining: map<Id, int>, released: seq<Id>)
    requires Distinct(deps) && forall w :: w in deps ==> w in remaining0
    ensures remaining.Keys == remaining0.Keys
    ensures forall w :: w in remaining ==> remaining[w] == remaining0[w] - (if w in deps then 1 else 0)
    ensures Distinct(released)
    ensures forall w :: w in released <==> w in deps && remaining0[w] == 1
  {
    remaining, released := remaining0, [];
    var k := 0;
    while k < |deps|
      invariant 0 <= k <= |deps|
      invariant remaining.Keys == remaining0.Keys
      invariant forall w :: w in remaining ==> remaining[w] == remaining0[w] - (if w in deps[..k] then 1 else 0)
      invariant Distinct(released)
      invariant forall w :: w in released <==> w in deps[..k] && remaining0[w] == 1
    {
      var w := deps[k];
      assert deps[..k + 1] == deps[..k] + [w] && w !in deps[..k];
      remaining := remaining[w := remaining[w] - 1];
      if remaining[w] == 0 {
        DistinctSnoc(released, w);
        released := released + [w];
      }
      k := k + 1;
    }
    assert deps[..k] == deps;
  }

  // The subtasks whose counter is zero, in declaration order.
  method CollectZero(ids: seq<Id>, counts: map<Id, int>) returns (q: seq<Id>)
    requires Distinct(ids) && counts.Keys == Elems(ids)
    ensures q == InOrder(ids, ZeroCounts(counts))
  {
    q := [];
    var i := 0;
    while i < |ids|
      invariant 0 <= i <= |ids|
      invariant q == InOrder(ids[..i], ZeroCounts(counts))
    {
      assert ids[i] in Elems(ids);
      assert ids[..i + 1][..i] == ids[..i] && ids[..i + 1][i] == ids[i];
      NotBefore(ids, i);
      if counts[ids[i]] == 0 {
        q := q + [ids[i]];
      }
      i := i + 1;
    }
    assert ids[..i] == ids;
  }

  ghost function ZeroCounts(counts: map<Id, int>): set<Id> {
    set v | v in counts && counts[v] == 0
  }

  lemma PredsAdd(edges: set<Edge>, u: Id, v: Id, w: Id)
    ensures Preds(edges + {(u, v)}, w) == if w == v then Preds(edges, w) + {u} else Preds(edges, w)
  {
    forall x ensures x in Preds(edges + {(u, v)}, w) <==> x in Preds(edges, w) || (w == v && x == u) {
      PredsIff(edges, x, w);
      PredsIff(edges + {(u, v)}, x, w);
    }
  }

  lemma EmptyInOrder(ids: seq<Id>)
    ensures InOrder(ids, {}) == []
  {
    InOrderElems(ids, {});
    var q := InOrder(ids, {});
    assert forall i :: 0 <= i < |q| ==> q[i] in Elems(q);
  }

  // A dependent of v has one predecessor fewer outside the set once v joins it.
  lemma JoinLowers(edges: set<Edge>, done: set<Id>, v: Id, w: Id)
    requires v !in done
    ensures |Preds(edges, w) - (done + {v})| == |Preds(edges, w) - done| - (if (v, w) in edges then 1 else 0)
    ensures |Preds(edges, w) * (done + {v})| == |Preds(edges, w) * done| + (if (v, w) in edges then 1 else 0)
  {
    var p := Preds(edges, w);
    PredsIff(edges, v, w);
    if v in p {
      assert p - done == (p - (done + {v})) + {v};
      assert p * (done + {v}) == p * done + {v};
    } else {
      assert p - done == p - (done + {v});
      assert p * (done + {v}) == p * done;
    }
  }

  lemma UnblockedCount(edges: set<Edge>, done: set<Id>, w: Id)
    ensures |Preds(edges, w) - done| == 0 <==> Spec.Unblocked(edges, done, w)
    ensures |Preds(edges, w) - done| <= |Preds(edges, w)|
  {
    var p := Preds(edges, w);
    SubsetLength(p - done, p);
    if |p - done| == 0 {
      assert p - done == {};
      forall x | x in p ensures x in done {
        assert x !in p - done;
      }
    }
  }

  lemma EdgeSetConcat(a: seq<Edge>, b: seq<Edge>)
    ensures EdgeSet(a + b) == EdgeSet(a) + EdgeSet(b)
  {
  }

  lemma EdgesSplit(d: TaskDecomposition)
    ensures Edges(d) == EdgeSet(SubtaskEdges(d.subtasks)) + EdgeSet(DagEdges(d.dag))
  {
    EdgeSetConcat(SubtaskEdges(d.subtasks), DagEdges(d.dag));
  }

  // The counters and target lists of the edges added so far.
  ghost predicate PartialGraph(nodes: set<Id>, added: set<Edge>, dependents: Adjacency, counts: map<Id, int>) {
    && counts.Keys == nodes
    && (forall w :: w in counts ==> counts[w] == |Preds(added, w)|)
    && Represents(dependents, added)
    && forall u :: Distinct(Lookup(dependents, u))
  }

  lemma NewEdgePartial(nodes: set<Id>, added: set<Edge>, dependents: Adjacency, counts: map<Id, int>, u: Id, v: Id)
    requires PartialGraph(nodes, added, dependents, counts) && v in counts && (u, v) !in added
    ensures PartialGraph(nodes, added + {(u, v)}, AddArc(dependents, u, v), counts[v := counts[v] + 1])
  {
    NewEdgeCounts(added, counts, u, v);
    NewEdgeTargets(added, dependents, u, v);
  }

  lemma NewEdgeCounts(added: set<Edge>, counts: map<Id, int>, u: Id, v: Id)
    requires forall w :: w in counts ==> counts[w] == |Preds(added, w)|
    requires (u, v) !in added
    ensures forall w :: w in counts ==> |Preds(added + {(u, v)}, w)| == counts[w] + (if w == v then 1 else 0)
  {
    PredsIff(added, u, v);
    forall w | w in counts ensures |Preds(added + {(u, v)}, w)| == counts[w] + (if w == v then 1 else 0) {
      PredsAdd(added, u, v, w);
    }
  }

  lemma NewEdgeTargets(added: set<Edge>, dependents: Adjacency, u: Id, v: Id)
    requires Represents(dependents, added) && (u, v) !in added
    requires forall x :: Distinct(Lookup(dependents, x))
    ensures Represents(AddArc(dependents, u, v), added + {(u, v)})
    ensures forall x :: Distinct(Lookup(AddArc(dependents, u, v), x))
  {
    var after := AddArc(dependents, u, v);
    assert v !in Lookup(dependents, u);
    DistinctSnoc(Lookup(dependents, u), v);
    assert Lookup(after, u) == Lookup(dependents, u) + [v];
    forall x ensures Distinct(Lookup(after, x)) {
      assert x != u ==> Lookup(after, x) == Lookup(dependents, x);
    }
    forall x, y ensures (x, y) in added + {(u, v)} <==> y in Lookup(after, x) {
      assert (x, y) in added <==> y in Lookup(dependents, x);
      assert x != u ==> Lookup(after, x) == Lookup(dependents, x);
    }
  }

  lemma AppendFresh(q: seq<Id>, w: Id)
    ensures Elems(q + [w]) == Elems(q) + {w} && (w in q <==> w in Elems(q))
    ensures Distinct(q) && w !in Elems(q) ==> Distinct(q + [w])
  {
    ElemsSnoc(q, w);
  }

  lemma NotBefore(q: seq<Id>, k: nat)
    requires Distinct(q) && k < |q|
    ensures q[k] !in q[..k]
  {
  }

  lemma TailElems(q: seq<Id>)
    requires Distinct(q) && q != []
    ensures Distinct(q[1..]) && Elems(q[1..]) == Elems(q) - {q[0]}
  {
    assert q == [q[0]] + q[1..];
    ElemsConcat([q[0]], q[1..]);
    assert q[0] !in q[1..];
    assert q[0] !in Elems(q[1..]);
  }

  lemma TailConcat(rest: seq<Id>, released: seq<Id>, ready: set<Id>, v: Id)
    requires Distinct(rest) && Elems(rest) == ready - {v}
    requires Distinct(released) && ready * Elems(released) == {}
    ensures Distinct(rest + released) && Elems(rest + released) == (ready - {v}) + Elems(released)
  {
    assert Elems(rest) * Elems(released) == {};
    Spec.DistinctConcat(rest, released);
  }

  // The first i subtasks are recorded.
  ghost predicate IndexedTo(ids: seq<Id>, ss: seq<Subtask>, i: nat,
                            order: seq<Id>, subtasks: map<Id, Subtask>, counts: map<Id, int>)
    requires i <= |ids| == |ss|
  {
    && order == ids[..i] && subtasks.Keys == Elems(ids[..i]) == counts.Keys
    && (forall k :: 0 <= k < i ==> ids[k] in subtasks && subtasks[ids[k]] == ss[k])
    && (forall v :: v in counts ==> counts[v] == 0)
  }

  lemma NothingIndexed(ids: seq<Id>, ss: seq<Subtask>)
    requires |ids| == |ss|
    ensures IndexedTo(ids, ss, 0, [], map[], map[])
  {
  }

  lemma KeysPut<V>(m: map<Id, V>, k: Id, v: V)
    ensures m[k := v].Keys == m.Keys + {k}
  {
  }

  lemma IndexValues(ids: seq<Id>, ss: seq<Subtask>, i: nat, subtasks: map<Id, Subtask>)
    requires i < |ids| == |ss| && Distinct(ids)
    requires forall k :: 0 <= k < i ==> ids[k] in subtasks && subtasks[ids[k]] == ss[k]
    ensures
      var more := subtasks[ids[i] := ss[i]];
      forall k :: 0 <= k < i + 1 ==> ids[k] in more && more[ids[k]] == ss[k]
  {
    assert forall k :: 0 <= k < i ==> ids[k] != ids[i];
    hide Distinct;
  }

  lemma IndexNext(ids: seq<Id>, ss: seq<Subtask>, i: nat,
                  order: seq<Id>, subtasks: map<Id, Subtask>, counts: map<Id, int>)
    requires i < |ids| == |ss| && Distinct(ids) && IndexedTo(ids, ss, i, order, subtasks, counts)
    ensures IndexedTo(ids, ss, i + 1, order + [ids[i]], subtasks[ids[i] := ss[i]], counts[ids[i] := 0])
  {
    ElemsPrefix(ids, i);
    IndexValues(ids, ss, i, subtasks);
    KeysPut(subtasks, ids[i], ss[i]);
    KeysPut(counts, ids[i], 0);
    assert ids[..i + 1] == ids[..i] + [ids[i]];
    hide Elems;
    hide Distinct;
  }

  lemma IndexedAll(ids: seq<Id>, ss: seq<Subtask>,
                   order: seq<Id>, subtasks: map<Id, Subtask>, counts: map<Id, int>)
    requires |ids| == |ss| && IndexedTo(ids, ss, |ids|, order, subtasks, counts)
    ensures order == ids && subtasks.Keys == Elems(ids) == counts.Keys
    ensures forall k :: 0 <= k < |ids| ==> ids[k] in subtasks && subtasks[ids[k]] == ss[k]
    ensures forall v :: v in counts ==> counts[v] == 0
  {
    assert ids[..|ids|] == ids;
  }

  ghost predicate LoweredTo(before: map<Id, int>, after: map<Id, int>, completed: set<Id>, deps: seq<Id>) {
    && after.Keys == before.Keys
    && forall w :: w in before ==> after[w] == before[w] - (if w in deps && w !in completed then 1 else 0)
  }

  // A dependent is newly ready when v was the last thing it waited for.
  ghost predicate NewlyAmong(before: map<Id, int>, deps: seq<Id>, excluded: set<Id>, newly: seq<Id>) {
    forall w :: w in newly <==> w in deps && w in before && w !in excluded && before[w] == 1
  }

  lemma LowerNext(before: map<Id, int>, counts: map<Id, int>, completed: set<Id>, deps: seq<Id>, k: nat)
    requires Distinct(deps) && k < |deps| && deps[k] in before
    requires LoweredTo(before, counts, completed, deps[..k])
    ensures deps[k] in counts && counts[deps[k]] == before[deps[k]]
    ensures LoweredTo(before,
      counts[deps[k] := counts[deps[k]] - (if deps[k] in completed then 0 else 1)], completed, deps[..k + 1])
  {
    assert deps[..k + 1] == deps[..k] + [deps[k]];
    NotBefore(deps, k);
  }

  lemma NewlyNext(before: map<Id, int>, deps: seq<Id>, excluded: set<Id>, newly: seq<Id>, k: nat)
    requires k < |deps| && deps[k] in before && NewlyAmong(before, deps[..k], excluded, newly)
    ensures NewlyAmong(before, deps[..k + 1], excluded,
      if deps[k] !in excluded && before[deps[k]] == 1 then newly + [deps[k]] else newly)
  {
    assert deps[..k + 1] == deps[..k] + [deps[k]];
  }

  lemma NotYetNewly(before: map<Id, int>, deps: seq<Id>, excluded: set<Id>, newly: seq<Id>, k: nat)
    requires Distinct(deps) && k < |deps| && NewlyAmong(before, deps[..k], excluded, newly)
    ensures deps[k] !in newly && deps[k] !in Elems(newly)
  {
    NotBefore(deps, k);
  }

  lemma NothingLowered(counts: map<Id, int>, completed: set<Id>, deps: seq<Id>, excluded: set<Id>)
    ensures LoweredTo(counts, counts, completed, deps[..0]) && NewlyAmong(counts, deps[..0], excluded, [])
    ensures Distinct([]) && Elems([]) == {}
  {
  }

  lemma HeadMember(q: seq<Id>)
    ensures q != [] ==> q[0] in q
  {
  }

  // Sorting one target list changes neither the edges nor the counters.
  lemma SortedPartial(nodes: set<Id>, added: set<Edge>, dependents: Adjacency, counts: map<Id, int>,
                      ids: seq<Id>, u: Id, q: seq<Id>)
    requires PartialGraph(nodes, added, dependents, counts)
    requires InDeclarationOrder(ids, q) && Elems(q) == Elems(Lookup(dependents, u))
    ensures PartialGraph(nodes, added, dependents[u := q], counts)
  {
    SortedIsDistinct(ids, q);
    var sorted := dependents[u := q];
    assert Lookup(sorted, u) == q;
    forall x ensures Distinct(Lookup(sorted, x)) {
      assert x != u ==> Lookup(sorted, x) == Lookup(dependents, x);
    }
    forall x, w ensures (x, w) in added <==> w in Lookup(sorted, x) {
      assert (x, w) in added <==> w in Lookup(dependents, x);
      if x == u {
        assert w in q <==> w in Elems(q);
        assert w in Lookup(dependents, u) <==> w in Elems(Lookup(dependents, u));
      } else {
        assert Lookup(sorted, x) == Lookup(dependents, x);
      }
    }
  }

  class DAGScheduler {
    const decomposition: TaskDecomposition
    ghost const ids: seq<Id>      // the declared identifiers, in order
    ghost const edges: set<Edge>  // the distinct edges
    var readyQueue: seq<Id>
    var dependencyCount: map<Id, int>
    var dependents: Adjacency
    var subtasks: map<Id, Subtask>
    var orderedSubtaskIDs: seq<Id>
    var completed: set<Id>
    var scheduled: set<Id>
    var queued: set<Id>

    ghost function View(): Spec.State
      reads this`completed, this`scheduled, this`queued
    {
      Spec.State(completed, scheduled, queued)
    }

    ghost predicate Indexed()
      reads this`orderedSubtaskIDs, this`subtasks
    {
      && Distinct(ids) && EdgesWithin(ids, edges) && Acyclic(edges)
      && orderedSubtaskIDs == ids && subtasks.Keys == Elems(ids)
      && |ids| == |decomposition.subtasks|
      && forall i :: 0 <= i < |ids| ==> 
        ids[i] in subtasks && subtasks[ids[i]] == decomposition.subtasks[i] && subtasks[ids[i]].id == ids[i]
    }

    // dependents holds the distinct edges, each target list in declaration order.
    ghost predicate Linked()
      reads this`dependents
    {
      && Represents(dependents, edges)
      && forall u :: InDeclarationOrder(ids, Lookup(dependents, u))
    }

    // Each uncompleted subtask counts its uncompleted distinct predecessors.
    ghost predicate CountedFor(done: set<Id>, counts: map<Id, int>) {
      && counts.Keys == Elems(ids)
      && (forall w :: w in counts ==> 0 <= counts[w] <= |Preds(edges, w)|)
      && (forall w :: w in counts && w !in done ==> counts[w] == |Preds(edges, w) - done|)
    }

    ghost predicate Counted()
      reads this`dependencyCount, this`completed
    {
      CountedFor(completed, dependencyCount)
    }

    ghost predicate Queued()
      reads this`readyQueue, this`queued
    {
      InDeclarationOrder(ids, readyQueue) && queued == Elems(readyQueue)
    }

    ghost predicate Valid()
      reads this
    {
      Indexed() && Linked() && Counted() && Queued() && Spec.Inv(ids, edges, View())
    }

    // ---------- construction ----------

    static method New(d: TaskDecomposition) returns (s: DAGScheduler?, verdict: Verdict)
      ensures s != null <==> WellFormed(d) && Acyclic(Edges(d))
      ensures s != null ==> fresh(s) && s.Valid()
      ensures s != null ==> s.decomposition == d && s.ids == Ids(d) && s.edges == Edges(d)
      ensures s != null ==> s.View() == Spec.Init(s.ids, s.edges)
      ensures s == null ==> !verdict.Accepted?
    {
      verdict := Validate(d);
      if !verdict.Accepted? {
        return null, verdict;
      }
      s := new DAGScheduler(d);
      var ok := s.BuildGraph();
    }

    constructor (d: TaskDecomposition)
      ensures decomposition == d && ids == Ids(d) && edges == Edges(d)
      ensures readyQueue == orderedSubtaskIDs == [] && completed == scheduled == queued == {}
      ensures dependents == map[] && subtasks == map[] && dependencyCount == map[]
    {
      decomposition := d;
      ids, edges := Ids(d), Edges(d);
      readyQueue, orderedSubtaskIDs := [], [];
      dependencyCount, dependents, subtasks := map[], map[], map[];
      completed, scheduled, queued := {}, {}, {};
    }

    method IndexSubtasks()
      requires WellFormed(decomposition) && ids == Ids(decomposition)
      requires orderedSubtaskIDs == [] && subtasks == map[] && dependencyCount == map[]
      modifies this`subtasks, this`orderedSubtaskIDs, this`dependencyCount
      ensures IndexedTo(ids, decomposition.subtasks, |ids|, orderedSubtaskIDs, subtasks, dependencyCount)
    {
      var ss := decomposition.subtasks;
      hide *;
      SameLength();
      NothingIndexed(ids, ss);
      var i := 0;
      while i < |ss|
        invariant 0 <= i <= |ss| == |ids|
        invariant IndexedTo(ids, ss, i, orderedSubtaskIDs, subtasks, dependencyCount)
      {
        var normalized := ss[i].Normalize();
        StatusIsValid(i);
        IndexNext(ids, ss, i, orderedSubtaskIDs, subtasks, dependencyCount);
        subtasks := subtasks[normalized.id := normalized];
        orderedSubtaskIDs := orderedSubtaskIDs + [normalized.id];
        dependencyCount := dependencyCount[normalized.id := 0];
        i := i + 1;
      }
    }

    lemma SameLength()
      requires WellFormed(decomposition) && ids == Ids(decomposition)
      ensures Distinct(ids) && |ids| == |decomposition.subtasks|
    {
    }

    lemma StatusIsValid(i: nat)
      requires WellFormed(decomposition) && i < |decomposition.subtasks|
      requires ids == Ids(decomposition)
      ensures decomposition.subtasks[i].Normalize() == decomposition.subtasks[i]
      ensures decomposition.subtasks[i].id == ids[i]
    {
      assert decomposition.subtasks[i] in decomposition.subtasks;
    }

    ghost predicate Partial(added: set<Edge>)
      reads this`dependents, this`dependencyCount
    {
      PartialGraph(Elems(ids), added, dependents, dependencyCount)
    }

    lemma KeysOf(added: set<Edge>)
      requires Partial(added)
      ensures dependencyCount.Keys == Elems(ids)
    {
    }

    // Adds one edge unless it was added before.
    method AddEdge(from: Id, to: Id, added: set<Edge>) returns (ok: bool, added': set<Edge>)
      requires Partial(added) && subtasks.Keys == Elems(ids)
      modifies this`dependents, this`dependencyCount
      ensures ok <==> from != "" && to != "" && from in subtasks && to in subtasks
      ensures added' == if ok then added + {(from, to)} else added
      ensures Partial(added')
    {
      hide PartialGraph;
      hide AddArc;
      hide Elems;
      KeysOf(added);
      if from == "" || to == "" || from !in subtasks || to !in subtasks {
        return false, added;
      }
      if (from, to) in added {
        assert added + {(from, to)} == added;
        return true, added;
      }
      added' := added + {(from, to)};
      NewEdgePartial(Elems(ids), added, dependents, dependencyCount, from, to);
      dependents := AddArc(dependents, from, to);
      dependencyCount := dependencyCount[to := dependencyCount[to] + 1];
      ok := true;
    }

    method AddDependencies(s: Subtask, added: set<Edge>) returns (ok: bool, added': set<Edge>)
      requires Partial(added) && subtasks.Keys == Elems(ids) && s.id in subtasks && s.id != ""
      requires forall u :: u in s.dependencies ==> u in subtasks && u != ""
      modifies this`dependents, this`dependencyCount
      ensures ok && added' == added + EdgeSet(DepEdges(s.id, s.dependencies)) && Partial(added')
    {
      hide PartialGraph;
      ok, added' := true, added;
      ghost var es := DepEdges(s.id, s.dependencies);
      var j := 0;
      while j < |s.dependencies|
        invariant 0 <= j <= |s.dependencies|
        invariant ok && Partial(added') && added' == added + EdgeSet(es[..j])
      {
        assert es[..j + 1] == es[..j] + [(s.dependencies[j], s.id)];
        EdgeSetConcat(es[..j], [(s.dependencies[j], s.id)]);
        assert s.dependencies[j] in s.dependencies;
        ok, added' := AddEdge(s.dependencies[j], s.id, added');
        if !ok {
          return;
        }
        j := j + 1;
      }
      assert es[..j] == es;
    }

    method AddAllDependencies() returns (ok: bool, added: set<Edge>)
      requires Partial({}) && subtasks.Keys == Elems(ids)
      requires forall s :: s in decomposition.subtasks ==>
        s.id in subtasks && s.id != "" && forall u :: u in s.dependencies ==> u in subtasks && u != ""
      modifies this`dependents, this`dependencyCount
      ensures ok && added == EdgeSet(SubtaskEdges(decomposition.subtasks)) && Partial(added)
    {
      hide PartialGraph;
      ok, added := true, {};
      var ss := decomposition.subtasks;
      var i := 0;
      while i < |ss|
        invariant 0 <= i <= |ss|
        invariant ok && Partial(added) && added == EdgeSet(SubtaskEdges(ss[..i]))
      {
        assert ss[..i + 1][..i] == ss[..i];
        assert ss[i] in ss;
        ok, added := AddDependencies(ss[i], added);
        if !ok {
          return;
        }
        i := i + 1;
      }
      assert ss[..i] == ss;
    }

    method AddDag(added: set<Edge>) returns (ok: bool, added': set<Edge>)
      requires Partial(added) && subtasks.Keys == Elems(ids)
      requires forall e :: e in decomposition.dag ==>
        e.from in subtasks && e.from != "" && e.to in subtasks && e.to != ""
      modifies this`dependents, this`dependencyCount
      ensures ok && added' == added + EdgeSet(DagEdges(decomposition.dag)) && Partial(added')
    {
      hide PartialGraph;
      ok, added' := true, added;
      var dag := decomposition.dag;
      var k := 0;
      while k < |dag|
        invariant 0 <= k <= |dag|
        invariant ok && Partial(added') && added' == added + EdgeSet(DagEdges(dag[..k]))
      {
        assert dag[..k + 1][..k] == dag[..k];
        assert dag[k] in dag;
        if dag[k].typ != PARALLEL_WITH {
          ok, added' := AddEdge(dag[k].from, dag[k].to, added');
          if !ok {
            return;
          }
        }
        k := k + 1;
      }
      assert dag[..k] == dag;
    }

    method SortDependents()
      requires Indexed() && Partial(edges)
      modifies this`dependents
      ensures Linked() && Partial(edges)
    {
      var left := subtasks.Keys;
      hide InDeclarationOrder;
      hide PartialGraph;
      forall u | u !in left ensures InDeclarationOrder(ids, Lookup(dependents, u)) {
        NoTargets(u);
        ShortInOrder(ids, []);
      }
      while left != {}
        invariant left <= subtasks.Keys && Partial(edges)
        invariant forall u :: u !in left ==> InDeclarationOrder(ids, Lookup(dependents, u))
        decreases left
      {
        var id :| id in left;
        left := left - {id};
        var q := Lookup(dependents, id);
        TargetsWithin(id);
        if |q| <= 1 {
          ShortInOrder(ids, q);
        } else {
          var sorted := SortIDs(orderedSubtaskIDs, q);
          SortedPartial(Elems(ids), edges, dependents, dependencyCount, ids, id, sorted);
          dependents := dependents[id := sorted];
        }
      }
      PartialRepresents();
    }

    lemma PartialRepresents()
      requires Partial(edges)
      ensures Represents(dependents, edges)
    {
    }

    lemma NoTargets(u: Id)
      requires Partial(edges) && EdgesWithin(ids, edges) && u !in Elems(ids)
      ensures Lookup(dependents, u) == []
    {
      var q := Lookup(dependents, u);
      HeadMember(q);
      forall v ensures v !in q {
        assert v in q ==> (u, v) in edges;
      }
    }

    lemma TargetsWithin(u: Id)
      requires Partial(edges) && EdgesWithin(ids, edges)
      ensures Distinct(Lookup(dependents, u))
      ensures forall w :: w in Lookup(dependents, u) ==> w in ids
      ensures Elems(Lookup(dependents, u)) <= Elems(ids)
    {
      forall w | w in Lookup(dependents, u) ensures w in ids {
        assert (u, w) in edges;
      }
    }

    method QueueRoots()
      requires Indexed() && dependencyCount.Keys == Elems(ids)
      requires readyQueue == [] && queued == {}
      modifies this`readyQueue, this`queued
      ensures Queued()
      ensures queued == set v | v in dependencyCount && dependencyCount[v] == 0
    {
      ghost var roots := set v | v in dependencyCount && dependencyCount[v] == 0;
      var i := 0;
      while i < |orderedSubtaskIDs|
        invariant 0 <= i <= |ids|
        invariant readyQueue == InOrder(ids[..i], roots) && queued == Elems(readyQueue)
      {
        var id := orderedSubtaskIDs[i];
        assert id in Elems(ids);
        assert ids[..i + 1][..i] == ids[..i] && ids[..i + 1][i] == id;
        assert id !in ids[..i];
        if dependencyCount[id] == 0 {
          ElemsSnoc(readyQueue, id);
          readyQueue := readyQueue + [id];
          queued := queued + {id};
        }
        i := i + 1;
      }
      assert ids[..i] == ids;
      InOrderElems(ids, roots);
      InOrderSorted(ids, roots);
      assert Elems(ids) * roots == roots;
    }

    method BuildGraph() returns (ok: bool)
      requires WellFormed(decomposition) && ids == Ids(decomposition)
      requires edges == Edges(decomposition) && Acyclic(edges)
      requires readyQueue == orderedSubtaskIDs == [] && completed == scheduled == queued == {}
      requires dependents == map[] && subtasks == map[] && dependencyCount == map[]
      modifies this
      ensures ok && Valid() && View() == Spec.Init(ids, edges)
    {
      hide *;
      SameLength();
      IndexSubtasks();
      IndexedAll(ids, decomposition.subtasks, orderedSubtaskIDs, subtasks, dependencyCount);
      WellFormedMembers();
      EmptyPartial();
      var added;
      ok, added := AddAllDependencies();
      if !ok {
        return;
      }
      ok, added := AddDag(added);
      if !ok {
        return;
      }
      EdgesSplit(decomposition);
      SortDependents();
      CountsAreFresh();
      QueueRoots();
      RootsAreInit();
    }

    lemma EmptyPartial()
      requires dependencyCount.Keys == Elems(ids) && dependents == map[]
      requires forall v :: v in dependencyCount ==> dependencyCount[v] == 0
      ensures Partial({})
    {
      assert forall w :: Preds({}, w) == {};
    }

    lemma WellFormedMembers()
      requires WellFormed(decomposition) && ids == Ids(decomposition) && edges == Edges(decomposition)
      requires subtasks.Keys == Elems(ids)
      requires orderedSubtaskIDs == ids && Acyclic(edges)
      requires forall k :: 0 <= k < |ids| ==> ids[k] in subtasks && subtasks[ids[k]] == decomposition.subtasks[k]
      ensures Indexed()
      ensures forall s :: s in decomposition.subtasks ==>
        s.id in subtasks && s.id != "" && forall u :: u in s.dependencies ==> u in subtasks && u != ""
      ensures forall e :: e in decomposition.dag ==>
        e.from in subtasks && e.from != "" && e.to in subtasks && e.to != ""
    {
      WellFormedEdges(decomposition);
      IdsAreKnown(decomposition);
      assert "" !in Elems(ids);
      forall s | s in decomposition.subtasks ensures s.id in Elems(ids) {
        var i :| 0 <= i < |decomposition.subtasks| && decomposition.subtasks[i] == s;
        assert ids[i] == s.id;
      }
    }

    lemma CountsAreFresh()
      requires Partial(edges) && completed == {}
      ensures Counted() && dependencyCount.Keys == Elems(ids)
    {
      forall w ensures Preds(edges, w) - completed == Preds(edges, w) {
      }
    }

    lemma RootsAreInit()
      requires Indexed() && Linked() && Counted() && Queued() && completed == scheduled == {}
      requires queued == set v | v in dependencyCount && dependencyCount[v] == 0
      ensures View() == Spec.Init(ids, edges) && Valid()
    {
      forall v ensures v in queued <==> v in ids && Spec.Unblocked(edges, {}, v) {
        assert v in ids <==> v in Elems(ids);
        UnblockedCount(edges, {}, v);
      }
      Spec.InvHolds(ids, edges, []);
    }

    // ---------- scheduling ----------

    /** Returns the queued subtasks in declaration order and empties the queue. */
    method Schedule() returns (batch: seq<Subtask>)
      requires Valid()
      modifies this`readyQueue, this`queued, this`scheduled
      ensures Valid() && View() == Spec.AfterSchedule(old(View()))
      ensures SubtaskIds(batch) == InOrder(ids, old(View()).ready)
      ensures forall t :: t in batch ==> t in decomposition.subtasks
    {
      hide Indexed;
      hide Linked;
      hide CountedFor;
      hide Spec.Inv;
      Spec.InvSchedule(ids, edges, View());
      if |readyQueue| == 0 {
        assert queued == {};
        EmptyInOrder(ids);
        assert View() == Spec.AfterSchedule(View());
        return [];
      }
      SortedIsInOrder(ids, readyQueue, queued);
      var batchIDs := readyQueue;
      batch := Collect(batchIDs);
      readyQueue := [];
      queued := queued - Elems(batchIDs);
      scheduled := scheduled + Elems(batchIDs);
      assert View() == Spec.AfterSchedule(old(View()));
      assert Queued();
    }

    // Looks up the subtasks of a list of identifiers.
    method Collect(q: seq<Id>) returns (ts: seq<Subtask>)
      requires Indexed() && Elems(q) <= Elems(ids)
      ensures SubtaskIds(ts) == q
      ensures forall t :: t in ts ==> t in decomposition.subtasks
    {
      ts := [];
      var i := 0;
      while i < |q|
        invariant 0 <= i <= |q|
        invariant SubtaskIds(ts) == q[..i]
        invariant forall t :: t in ts ==> t in decomposition.subtasks
      {
        assert q[i] in Elems(q);
        SubtaskOf(q[i]);
        ts := ts + [subtasks[q[i]]];
        i := i + 1;
      }
    }

    lemma SubtaskOf(v: Id)
      requires Indexed() && v in Elems(ids)
      ensures v in subtasks && subtasks[v] in decomposition.subtasks && subtasks[v].id == v
    {
    }

    // Lowers one dependent's counter and queues it once nothing blocks it.
    method Release(w: Id, newly: seq<Id>) returns (newly': seq<Id>)
      requires w in dependencyCount
      requires w !in completed ==> dependencyCount[w] > 0
      modifies this`dependencyCount, this`readyQueue, this`queued
      ensures dependencyCount == old(dependencyCount)[w := old(dependencyCount)[w] - (if w in completed then 0 else 1)]
      ensures var enqueue := w !in completed + scheduled + old(queued) && old(dependencyCount)[w] == 1;
        && newly' == (if enqueue then newly + [w] else newly)
        && readyQueue == (if enqueue then old(readyQueue) + [w] else old(readyQueue))
        && queued == (if enqueue then old(queued) + {w} else old(queued))
    {
      newly' := newly;
      if w in completed {
        return;
      }
      if dependencyCount[w] > 0 {
        dependencyCount := dependencyCount[w := dependencyCount[w] - 1];
      }
      if dependencyCount[w] == 0 && w !in scheduled && w !in queued {
        readyQueue := readyQueue + [w];
        queued := queued + {w};
        newly' := newly' + [w];
      }
    }

    // The counters once the dependents in deps have lost one predecessor.
    ghost predicate Lowered(before: map<Id, int>, deps: seq<Id>)
      reads this`dependencyCount, this`completed
    {
      LoweredTo(before, dependencyCount, completed, deps)
    }

    // Handles every dependent of a subtask that has just completed.
    method ReleaseAll(deps: seq<Id>) returns (newly: seq<Id>)
      requires Distinct(deps) && Distinct(readyQueue) && queued == Elems(readyQueue)
      requires forall w :: w in deps ==> w in dependencyCount
      requires forall w :: w in deps && w !in completed ==> dependencyCount[w] > 0
      modifies this`dependencyCount, this`readyQueue, this`queued
      ensures Lowered(old(dependencyCount), deps)
      ensures Distinct(newly) && Distinct(readyQueue) && readyQueue == old(readyQueue) + newly
      ensures queued == Elems(readyQueue) == old(queued) + Elems(newly)
      ensures NewlyAmong(old(dependencyCount), deps, completed + scheduled + old(queued), newly)
    {
      ghost var before, excluded := dependencyCount, completed + scheduled + queued;
      NothingLowered(before, completed, deps, excluded);
      hide *;
      newly := [];
      var k := 0;
      while k < |deps|
        invariant 0 <= k <= |deps|
        invariant LoweredTo(before, dependencyCount, completed, deps[..k])
        invariant Distinct(newly) && Distinct(readyQueue) && readyQueue == old(readyQueue) + newly
        invariant queued == Elems(readyQueue) == old(queued) + Elems(newly)
        invariant NewlyAmong(before, deps[..k], excluded, newly)
      {
        var w := deps[k];
        LowerNext(before, dependencyCount, completed, deps, k);
        NewlyNext(before, deps, excluded, newly, k);
        NotYetNewly(before, deps, excluded, newly, k);
        AppendFresh(readyQueue, w);
        AppendFresh(newly, w);
        newly := Release(w, newly);
        k := k + 1;
      }
      assert deps[..k] == deps;
      LoweredIs(before, deps);
    }

    lemma LoweredIs(before: map<Id, int>, deps: seq<Id>)
      requires LoweredTo(before, dependencyCount, completed, deps)
      ensures Lowered(before, deps)
    {
    }

    /** Records a completion and returns, in declaration order, the subtasks it
        makes ready. Unknown and already completed identifiers change nothing. */
    method MarkComplete(v: Id) returns (ready: seq<Subtask>)
      requires Valid()
      modifies this`completed, this`dependencyCount, this`readyQueue, this`queued
      ensures Valid() && View() == Spec.AfterComplete(ids, edges, old(View()), v)
      ensures SubtaskIds(ready) == InOrder(ids, Spec.NewlyReady(ids, edges, old(View()), v))
      ensures forall t :: t in ready ==> t in decomposition.subtasks
    {
      hide *;
      if v !in subtasks || v in completed {
        NothingNewlyReady(v);
        return [];
      }
      ghost var s := View();
      ViewFields();
      var newly := Complete(v);
      Spec.InvComplete(ids, edges, s, v);
      CompletedView(s, v, newly);
      readyQueue := SortIDs(orderedSubtaskIDs, readyQueue);
      newly := SortIDs(orderedSubtaskIDs, newly);
      ready := Collect(newly);
      PartsValid();
    }

    // Marks v complete and appends to the queue what that makes ready, unsorted.
    method Complete(v: Id) returns (newly: seq<Id>)
      requires Valid() && v in subtasks && v !in completed
      modifies this`completed, this`dependencyCount, this`readyQueue, this`queued
      ensures Indexed() && Linked() && Counted() && Spec.Inv(ids, edges, old(View()))
      ensures Spec.Completes(ids, old(View()), v)
      ensures orderedSubtaskIDs == ids && completed == old(completed) + {v}
      ensures Distinct(readyQueue) && Distinct(newly) && queued == Elems(readyQueue) == old(queued) + Elems(newly)
      ensures Elems(newly) == Spec.Unlocked(ids, edges, old(View()), v)
    {
      hide *;
      ghost var s, counts := View(), dependencyCount;
      ViewFields();
      DependentsAreCounted(v);
      ValidParts();
      completed := completed + {v};
      newly := ReleaseAll(Lookup(dependents, v));
      NewlyIsUnlocked(s, counts, v, newly);
      CountsAfterCompletion(s, counts, v);
    }

    lemma ViewFields()
      ensures View() == Spec.State(completed, scheduled, queued)
    {
    }

    lemma ValidParts()
      requires Valid()
      ensures Indexed() && Linked() && CountedFor(completed, dependencyCount) && orderedSubtaskIDs == ids
      ensures Spec.Inv(ids, edges, View()) && EdgesWithin(ids, edges)
      ensures Distinct(readyQueue) && queued == Elems(readyQueue)
    {
      SortedIsDistinct(ids, readyQueue);
    }

    lemma PartsValid()
      requires Indexed() && Linked() && Counted() && Spec.Inv(ids, edges, View())
      requires InDeclarationOrder(ids, readyQueue) && queued == Elems(readyQueue)
      ensures Valid()
    {
    }

    lemma CompletedView(s: Spec.State, v: Id, newly: seq<Id>)
      requires Spec.Inv(ids, edges, Spec.AfterComplete(ids, edges, s, v)) && Spec.Completes(ids, s, v)
      requires completed == s.completed + {v} && scheduled == s.scheduled && queued == s.ready + Elems(newly)
      requires Elems(newly) == Spec.Unlocked(ids, edges, s, v)
      ensures View() == Spec.AfterComplete(ids, edges, s, v)
      ensures Elems(newly) == Spec.NewlyReady(ids, edges, s, v)
      ensures queued <= Elems(ids) && Elems(newly) <= Elems(ids)
    {
    }

    lemma NothingNewlyReady(v: Id)
      requires Valid() && (v !in subtasks || v in completed)
      ensures !Spec.Completes(ids, View(), v)
      ensures Spec.AfterComplete(ids, edges, View(), v) == View()
      ensures InOrder(ids, Spec.NewlyReady(ids, edges, View(), v)) == SubtaskIds([])
    {
      assert v in ids ==> v in Elems(ids);
      EmptyInOrder(ids);
    }

    // While v is not complete, every uncompleted dependent of v counts it.
    lemma DependentsAreCounted(v: Id)
      requires Valid() && v in subtasks && v !in completed
      ensures Distinct(Lookup(dependents, v)) && v in ids && Spec.Completes(ids, View(), v)
      ensures forall w :: w in Lookup(dependents, v) ==> w in dependencyCount
      ensures forall w :: w in Lookup(dependents, v) && w !in completed ==> dependencyCount[w] > 0
    {
      assert v in Elems(ids);
      SortedIsDistinct(ids, Lookup(dependents, v));
      forall w | w in Lookup(dependents, v)
        ensures w in dependencyCount && (w !in completed ==> dependencyCount[w] > 0)
      {
        assert (v, w) in edges;
        assert w in Elems(ids);
        JoinLowers(edges, completed, v, w);
      }
    }

    // What the counters call newly ready is what the definition unlocks.
    lemma NewlyIsUnlocked(s: Spec.State, counts: map<Id, int>, v: Id, newly: seq<Id>)
      requires Linked() && EdgesWithin(ids, edges) && CountedFor(s.completed, counts)
      requires Spec.Inv(ids, edges, s) && v !in s.completed
      requires NewlyAmong(counts, Lookup(dependents, v), s.completed + {v} + s.scheduled + s.ready, newly)
      ensures Elems(newly) == Spec.Unlocked(ids, edges, s, v)
    {
      forall w ensures w in Elems(newly) <==> w in Spec.Unlocked(ids, edges, s, v) {
        JoinLowers(edges, s.completed, v, w);
        assert w in Lookup(dependents, v) <==> (v, w) in edges;
        assert w in ids <==> w in Elems(ids);
        UnblockedCount(edges, s.completed + {v}, w);
        UnblockedCount(edges, s.completed, w);
      }
    }

    lemma CountsAfterCompletion(s: Spec.State, counts: map<Id, int>, v: Id)
      requires Linked() && CountedFor(s.completed, counts)
      requires v !in s.completed && completed == s.completed + {v}
      requires Lowered(counts, Lookup(dependents, v))
      ensures Counted()
    {
      forall w | w in dependencyCount
        ensures 0 <= dependencyCount[w] <= |Preds(edges, w)|
        ensures w !in completed ==> dependencyCount[w] == |Preds(edges, w) - completed|
      {
        JoinLowers(edges, s.completed, v, w);
        UnblockedCount(edges, completed, w);
        assert w in Lookup(dependents, v) <==> (v, w) in edges;
      }
    }

    // ---------- execution order ----------

    lemma CountsCover()
      requires Counted()
      ensures CountsFor(ids, edges, dependencyCount)
    {
      assert forall w :: w in ids ==> w in Elems(ids);
    }

    // What is left of the counters after the subtasks in done have been emitted,
    // each of which was ready when it was.
    ghost predicate RemainingAfter(remaining: map<Id, int>, done: set<Id>)
      reads this`dependencyCount
    {
      && remaining.Keys == dependencyCount.Keys
      && (forall w :: w in remaining ==> remaining[w] == dependencyCount[w] - |Preds(edges, w) * done|)
      && (forall w :: w in remaining && w in done ==> remaining[w] <= 0)
    }

    ghost function ReadyFor(done: set<Id>): set<Id>
      requires CountsFor(ids, edges, dependencyCount)
      reads this`dependencyCount
    {
      ReadyAfter(ids, edges, dependencyCount, done)
    }

    lemma NoneEmitted()
      requires Counted() && CountsFor(ids, edges, dependencyCount)
      ensures RemainingAfter(dependencyCount, {})
      ensures ReadyFor({}) == ZeroCounts(dependencyCount)
    {
      forall w ensures |Preds(edges, w) * {}| == 0 {
        assert Preds(edges, w) * {} == {};
      }
      hide Preds;
      forall w ensures w in ReadyFor({}) <==> w in ZeroCounts(dependencyCount) {
        assert w in ids <==> w in Elems(ids);
      }
    }

    // The counters after emitting v, given those before.
    ghost predicate EmitsTo(before: map<Id, int>, after: map<Id, int>, v: Id, released: seq<Id>)
      reads this`dependents
    {
      && after.Keys == before.Keys
      && (forall w :: w in after ==> after[w] == before[w] - (if w in Lookup(dependents, v) then 1 else 0))
      && (forall w :: w in released <==> w in Lookup(dependents, v) && w in before && before[w] == 1)
    }

    lemma EmitOne(before: map<Id, int>, after: map<Id, int>, done: set<Id>, v: Id, released: seq<Id>, w: Id)
      requires Represents(dependents, edges) && dependencyCount.Keys == Elems(ids)
      requires CountsFor(ids, edges, dependencyCount)
      requires RemainingAfter(before, done) && EmitsTo(before, after, v, released) && v !in done && w in before
      ensures after[w] == dependencyCount[w] - |Preds(edges, w) * (done + {v})|
      ensures w in ReadyFor(done) <==> w !in done && before[w] <= 0
      ensures w in ReadyFor(done + {v}) <==> w !in done + {v} && after[w] <= 0
    {
      JoinLowers(edges, done, v, w);
      assert w in Lookup(dependents, v) <==> (v, w) in edges;
      assert w in ids <==> w in Elems(ids);
    }

    lemma EmitMember(before: map<Id, int>, after: map<Id, int>, done: set<Id>, v: Id, released: seq<Id>, w: Id)
      requires Represents(dependents, edges) && dependencyCount.Keys == Elems(ids)
      requires CountsFor(ids, edges, dependencyCount)
      requires RemainingAfter(before, done) && EmitsTo(before, after, v, released) && v !in done
      requires v !in Lookup(dependents, v) && before.Keys == Elems(ids)
      ensures w in ReadyFor(done + {v}) <==> w in ReadyFor(done) - {v} || w in released
      ensures w in ReadyFor(done) ==> w !in released
    {
      if w in before {
        EmitOne(before, after, done, v, released, w);
      } else {
        assert w !in Elems(ids);
      }
    }

    // Emitting v lowers its dependents' counters and readies those that reach zero.
    lemma EmitReadies(before: map<Id, int>, after: map<Id, int>, done: set<Id>, v: Id, released: seq<Id>)
      requires Valid() && CountsFor(ids, edges, dependencyCount) && RemainingAfter(before, done)
      requires v in ReadyFor(done) && EmitsTo(before, after, v, released)
      ensures RemainingAfter(after, done + {v})
      ensures ReadyFor(done + {v}) == (ReadyFor(done) - {v}) + Elems(released)
      ensures ReadyFor(done) * Elems(released) == {}
    {
      hide *;
      EmitSetup(before, done, v);
      EmitCounts(before, after, done, v, released);
      forall w
        ensures w in ReadyFor(done + {v}) <==> w in (ReadyFor(done) - {v}) + Elems(released)
        ensures w !in ReadyFor(done) * Elems(released)
      {
        AppendFresh(released, w);
        EmitMember(before, after, done, v, released, w);
      }
    }

    lemma EmitSetup(before: map<Id, int>, done: set<Id>, v: Id)
      requires Valid() && CountsFor(ids, edges, dependencyCount) && RemainingAfter(before, done)
      requires v in ReadyFor(done)
      ensures v !in done && v !in Lookup(dependents, v) && Represents(dependents, edges)
      ensures before.Keys == Elems(ids) && dependencyCount.Keys == Elems(ids)
    {
      NoSelfEdge(v);
    }

    lemma EmitCounts(before: map<Id, int>, after: map<Id, int>, done: set<Id>, v: Id, released: seq<Id>)
      requires Represents(dependents, edges) && dependencyCount.Keys == Elems(ids)
      requires CountsFor(ids, edges, dependencyCount)
      requires RemainingAfter(before, done) && EmitsTo(before, after, v, released)
      requires v !in done && v in ReadyFor(done)
      ensures RemainingAfter(after, done + {v})
    {
      forall w | w in before
        ensures after[w] == dependencyCount[w] - |Preds(edges, w) * (done + {v})|
        ensures w in done + {v} ==> after[w] <= 0
      {
        EmitOne(before, after, done, v, released, w);
      }
    }

    lemma NoSelfEdge(v: Id)
      requires Linked() && Acyclic(edges)
      ensures v !in Lookup(dependents, v)
    {
      assert !IsClosedWalk(edges, [v, v]);
      assert v in Lookup(dependents, v) <==> (v, v) in edges;
    }

    // What a scheduling loop knows between two emissions.
    ghost predicate Emitting(remaining: map<Id, int>, readyIDs: seq<Id>, done: seq<Id>)
      requires CountsFor(ids, edges, dependencyCount)
      reads this`dependencyCount
    {
      RemainingAfter(remaining, Elems(done)) && readyIDs == InOrder(ids, ReadyFor(Elems(done)))
    }

    // The head of the ready list is the greedy choice; the tail holds the others.
    lemma HeadIsGreedy(remaining: map<Id, int>, readyIDs: seq<Id>, done: seq<Id>)
      requires Valid() && CountsFor(ids, edges, dependencyCount)
      requires Emitting(remaining, readyIDs, done) && readyIDs != []
      ensures var v := readyIDs[0];
        && v in ReadyFor(Elems(done)) && v in subtasks
        && Greedy(ids, edges, dependencyCount, done + [v]) == Greedy(ids, edges, dependencyCount, done)
        && Distinct(readyIDs[1..]) && Elems(readyIDs[1..]) == ReadyFor(Elems(done)) - {v}
    {
      var ready, v := ReadyFor(Elems(done)), readyIDs[0];
      InOrderElems(ids, ready);
      InOrderSorted(ids, ready);
      SortedIsDistinct(ids, readyIDs);
      assert Elems(ids) * ready == ready;
      assert v in Elems(readyIDs) && v == First(ids, ready);
      TailElems(readyIDs);
    }

    method Emit(remaining: map<Id, int>, readyIDs: seq<Id>, ghost done: seq<Id>)
      returns (remaining': map<Id, int>, readyIDs': seq<Id>)
      requires Valid() && CountsFor(ids, edges, dependencyCount)
      requires Emitting(remaining, readyIDs, done) && readyIDs != []
      ensures Emitting(remaining', readyIDs', done + [readyIDs[0]])
    {
      var id := readyIDs[0];
      HeadIsGreedy(remaining, readyIDs, done);
      TargetsCounted(remaining, Elems(done), id);
      hide *;
      var released;
      remaining', released := Decrement(remaining, Lookup(dependents, id));
      EmitsToIs(remaining, remaining', id, released);
      EmitReadies(remaining, remaining', Elems(done), id, released);
      TailConcat(readyIDs[1..], released, ReadyFor(Elems(done)), id);
      ReadyWithin(Elems(done) + {id});
      readyIDs' := SortIDs(orderedSubtaskIDs, readyIDs[1..] + released);
      ElemsSnoc(done, id);
    }

    lemma EmitsToIs(before: map<Id, int>, after: map<Id, int>, v: Id, released: seq<Id>)
      requires after.Keys == before.Keys && forall w :: w in Lookup(dependents, v) ==> w in before
      requires forall w :: w in after ==> after[w] == before[w] - (if w in Lookup(dependents, v) then 1 else 0)
      requires forall w :: w in released <==> w in Lookup(dependents, v) && before[w] == 1
      ensures EmitsTo(before, after, v, released)
    {
    }

    lemma ReadyWithin(done: set<Id>)
      requires CountsFor(ids, edges, dependencyCount)
      ensures ReadyFor(done) <= Elems(ids)
    {
    }

    lemma TargetsCounted(remaining: map<Id, int>, done: set<Id>, v: Id)
      requires Valid() && RemainingAfter(remaining, done)
      ensures Distinct(Lookup(dependents, v)) && orderedSubtaskIDs == ids
      ensures forall w :: w in Lookup(dependents, v) ==> w in remaining
    {
      SortedIsDistinct(ids, Lookup(dependents, v));
      forall w | w in Lookup(dependents, v) ensures w in remaining {
        assert (v, w) in edges;
        assert w in Elems(ids);
      }
    }

    // When nothing is ready, the greedy order is complete and lists everything.
    lemma AllEmitted(remaining: map<Id, int>, done: seq<Id>)
      requires Valid() && CountsFor(ids, edges, dependencyCount)
      requires Emitting(remaining, [], done)
      requires Greedy(ids, edges, dependencyCount, done) == Greedy(ids, edges, dependencyCount, [])
      ensures done == Greedy(ids, edges, dependencyCount, []) && |done| == |orderedSubtaskIDs|
    {
      ValidParts();
      NoneReady(remaining, done);
      hide *;
      GreedyLength(ids, edges, dependencyCount);
    }

    lemma NoneReady(remaining: map<Id, int>, done: seq<Id>)
      requires CountsFor(ids, edges, dependencyCount) && Emitting(remaining, [], done)
      ensures ReadyFor(Elems(done)) == {}
      ensures done == Greedy(ids, edges, dependencyCount, done)
    {
      ReadyWithin(Elems(done));
      InOrderElems(ids, ReadyFor(Elems(done)));
      hide InOrder;
      assert Elems([]) == {};
      assert Elems(ids) * ReadyFor(Elems(done)) == ReadyFor(Elems(done));
    }

    lemma StartEmitting()
      requires Valid()
      ensures CountsFor(ids, edges, dependencyCount)
      ensures Emitting(dependencyCount, InOrder(ids, ZeroCounts(dependencyCount)), [])
      ensures orderedSubtaskIDs == ids && Distinct(ids) && dependencyCount.Keys == Elems(ids)
      ensures
        var zeros := InOrder(ids, ZeroCounts(dependencyCount));
        InOrder(ids, Elems(zeros)) == zeros
      ensures Distinct(InOrder(ids, ZeroCounts(dependencyCount)))
      ensures Elems(InOrder(ids, ZeroCounts(dependencyCount))) <= Elems(ids)
    {
      CountsCover();
      NoneEmitted();
      InOrderElems(ids, ZeroCounts(dependencyCount));
      InOrderSorted(ids, ZeroCounts(dependencyCount));
      SortedIsDistinct(ids, InOrder(ids, ZeroCounts(dependencyCount)));
      assert Elems(ids) * ZeroCounts(dependencyCount) == ZeroCounts(dependencyCount);
      assert Elems([]) == {};
    }

    /** Whatever has been completed, the unschedulable branch is never taken and
        the order is the greedy one driven by the current counters. */
    method TopologicalSort() returns (r: SortResult)
      requires Valid()
      ensures CountsFor(ids, edges, dependencyCount)
      ensures r.Ordered? && SubtaskIds(r.order) == Greedy(ids, edges, dependencyCount, [])
      ensures forall t :: t in r.order ==> t in decomposition.subtasks
    {
      StartEmitting();
      hide *;
      var remaining := dependencyCount;
      var readyIDs := CollectZero(orderedSubtaskIDs, remaining);
      readyIDs := SortIDs(orderedSubtaskIDs, readyIDs);
      var ordered: seq<Subtask> := [];
      ghost var done: seq<Id> := [];
      assert SubtaskIds(ordered) == done;
      while |readyIDs| > 0
        invariant SubtaskIds(ordered) == done && Emitting(remaining, readyIDs, done)
        invariant forall t :: t in ordered ==> t in decomposition.subtasks
        invariant Greedy(ids, edges, dependencyCount, done) == Greedy(ids, edges, dependencyCount, [])
        decreases Elems(ids) - Elems(done)
      {
        var id := readyIDs[0];
        HeadIsGreedy(remaining, readyIDs, done);
        EmitShrinks(done, id);
        AppendSubtask(ordered, id);
        ordered := ordered + [subtasks[id]];
        remaining, readyIDs := Emit(remaining, readyIDs, done);
        done := done + [id];
      }
      AllEmitted(remaining, done);
      if |ordered| != |orderedSubtaskIDs| {
        return Unschedulable(decomposition.taskID);
      }
      r := Ordered(ordered);
    }

    lemma EmitShrinks(done: seq<Id>, v: Id)
      requires CountsFor(ids, edges, dependencyCount) && v in ReadyFor(Elems(done))
      ensures Elems(ids) - Elems(done + [v]) < Elems(ids) - Elems(done)
    {
      ElemsSnoc(done, v);
      assert v in Elems(ids) - Elems(done);
    }

    lemma AppendSubtask(ordered: seq<Subtask>, v: Id)
      requires Valid() && v in subtasks
      ensures SubtaskIds(ordered + [subtasks[v]]) == SubtaskIds(ordered) + [v]
      ensures subtasks[v] in decomposition.subtasks
    {
      assert v in Elems(ids);
      SubtaskOf(v);
    }

    /** Every subtask is listed exactly once, in every reachable state. The order
        respects every edge exactly when no counter has run out early. */
    lemma OrderIsComplete()
      requires Valid() && CountsFor(ids, edges, dependencyCount)
      ensures var order := Greedy(ids, edges, dependencyCount, []);
        && Distinct(order) && Elems(order) == Elems(ids)
        && (IsTopological(ids, edges, order) <==> NothingReleasedEarly(ids, edges, dependencyCount))
    {
      GreedyIsComplete(ids, edges, dependencyCount);
      GreedyTopologicalIff(ids, edges, dependencyCount);
    }

    lemma CountsAreInitial()
      requires Counted() && completed == {}
      ensures dependencyCount == FreshCounts(ids, edges)
    {
      var fresh' := FreshCounts(ids, edges);
      assert dependencyCount.Keys == Elems(ids) == fresh'.Keys;
      hide *;
      forall w | w in dependencyCount ensures dependencyCount[w] == fresh'[w] {
      }
    }

    /** Before the first completion the order is topological, and the least such
        order by declaration index. */
    lemma FreshOrderIsLeast(t: seq<Id>)
      requires Valid() && completed == {}
      ensures CountsFor(ids, edges, dependencyCount)
      ensures var order := Greedy(ids, edges, dependencyCount, []);
        && IsTopological(ids, edges, order)
        && (IsTopological(ids, edges, t) ==> order == t || LexLess(ids, order, t))
    {
      assert Distinct(ids) && EdgesWithin(ids, edges) && Acyclic(edges);
      CountsCover();
      CountsAreInitial();
      hide *;
      FreshIsTopological(ids, edges);
      if IsTopological(ids, edges, t) {
        FreshIsLeast(ids, edges, t);
      }
    }
  }

}

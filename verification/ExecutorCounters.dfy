/** The executor's own dependency counting, over edge occurrences rather than
    distinct edges (the sequential parts of executeDecomposition in
    internal/orchestration/orchestrator.go). */
module ExecutorCounters {
  import opened Graph
  import opened Decomposition
  import Spec = SchedulerSpec
  import Scheduler

  // How many occurrences of an edge into v start outside done.
  ghost function Pending(es: seq<Edge>, done: set<Id>, v: Id): nat {
    if es == [] then 0
    else
      var n := |es| - 1;
      Pending(es[..n], done, v) + (if es[n].1 == v && es[n].0 !in done then 1 else 0)
  }

  lemma {:induction false} PendingConcat(a: seq<Edge>, b: seq<Edge>, done: set<Id>, v: Id)
    ensures Pending(a + b, done, v) == Pending(a, done, v) + Pending(b, done, v)
  {
    if b == [] {
      assert a + b == a;
    } else {
      var n := |b| - 1;
      assert (a + b)[..|a + b| - 1] == a + b[..n];
      PendingConcat(a, b[..n], done, v);
    }
  }

  /** A counter over occurrences is zero exactly when every distinct predecessor
      is done: repeated edges do not matter. */
  lemma {:induction false} PendingZeroIff(es: seq<Edge>, done: set<Id>, v: Id)
    ensures Pending(es, done, v) == 0 <==> Preds(EdgeSet(es), v) <= done
  {
    if es != [] {
      var n := |es| - 1;
      PendingZeroIff(es[..n], done, v);
      assert es == es[..n] + [es[n]];
      Scheduler.PredsAdd(EdgeSet(es[..n]), es[n].0, es[n].1, v);
      Scheduler.EdgeSetConcat(es[..n], [es[n]]);
      assert EdgeSet(es) == EdgeSet(es[..n]) + {(es[n].0, es[n].1)};
    }
  }

  // Finishing u lowers each counter by the number of occurrences of its edge from u.
  lemma {:induction false} PendingAfter(es: seq<Edge>, done: set<Id>, u: Id, v: Id)
    requires u !in done
    ensures Pending(es, done + {u}, v) == Pending(es, done, v) - multiset(Targets(es, u))[v]
  {
    if es != [] {
      PendingAfter(es[..|es| - 1], done, u, v);
    }
  }

  // ---------- building the counters ----------

  lemma {:induction false} DepCounts(id: Id, deps: seq<Id>, v: Id, u: Id)
    ensures Pending(DepEdges(id, deps), {}, v) == if v == id then |deps| else 0
    ensures forall x :: x in Targets(DepEdges(id, deps), u) ==> x == id
    decreases |deps|
  {
    var es := DepEdges(id, deps);
    if deps != [] {
      var n := |deps| - 1;
      assert es[..n] == DepEdges(id, deps[..n]);
      DepCounts(id, deps[..n], v, u);
    }
  }

  ghost predicate CountsAre(nodes: set<Id>, es: seq<Edge>, done: set<Id>, remaining: map<Id, int>) {
    remaining.Keys == nodes && forall v :: v in remaining ==> remaining[v] == Pending(es, done, v)
  }

  method AddTargets(dependents0: Adjacency, ghost base: seq<Edge>, s: Subtask) returns (dependents: Adjacency)
    requires TargetsMatch(base, dependents0)
    ensures TargetsMatch(base + DepEdges(s.id, s.dependencies), dependents)
  {
    hide TargetsMatch;
    hide AddArc;
    dependents := dependents0;
    ghost var es := DepEdges(s.id, s.dependencies);
    assert base + es[..0] == base;
    var j := 0;
    while j < |s.dependencies|
      invariant 0 <= j <= |s.dependencies|
      invariant TargetsMatch(base + es[..j], dependents)
    {
      TargetsExtend(base + es[..j], dependents, es[j]);
      assert base + es[..j] + [es[j]] == base + es[..j + 1];
      dependents := AddArc(dependents, s.dependencies[j], s.id);
      j := j + 1;
    }
    assert es[..j] == es;
  }

  // Only declared subtasks have pending occurrences.
  lemma {:induction false} NothingPending(ss: seq<Subtask>, v: Id)
    requires v !in SubtaskIds(ss)
    ensures Pending(SubtaskEdges(ss), {}, v) == 0
  {
    if ss != [] {
      var n := |ss| - 1;
      assert SubtaskIds(ss) == SubtaskIds(ss[..n]) + [ss[n].id];
      NothingPending(ss[..n], v);
      DepCounts(ss[n].id, ss[n].dependencies, v, v);
      PendingConcat(SubtaskEdges(ss[..n]), DepEdges(ss[n].id, ss[n].dependencies), {}, v);
    }
  }

  lemma NextCounts(ss: seq<Subtask>, i: nat, remaining: map<Id, int>)
    requires i < |ss| && Distinct(SubtaskIds(ss))
    requires CountsAre(Elems(SubtaskIds(ss[..i])), SubtaskEdges(ss[..i]), {}, remaining)
    ensures CountsAre(Elems(SubtaskIds(ss[..i + 1])), SubtaskEdges(ss[..i + 1]), {},
      remaining[ss[i].id := |ss[i].dependencies|])
  {
    var s := ss[i];
    assert ss[..i + 1][..i] == ss[..i];
    assert SubtaskIds(ss[..i + 1]) == SubtaskIds(ss[..i]) + [s.id];
    ElemsSnoc(SubtaskIds(ss[..i]), s.id);
    assert s.id !in SubtaskIds(ss[..i]);
    NothingPending(ss[..i], s.id);
    forall v ensures Pending(SubtaskEdges(ss[..i + 1]), {}, v)
      == Pending(SubtaskEdges(ss[..i]), {}, v) + (if v == s.id then |s.dependencies| else 0)
    {
      DepCounts(s.id, s.dependencies, v, v);
      PendingConcat(SubtaskEdges(ss[..i]), DepEdges(s.id, s.dependencies), {}, v);
    }
  }

  method CountDependencies(ss: seq<Subtask>) returns (remaining: map<Id, int>, dependents: Adjacency)
    requires Distinct(SubtaskIds(ss))
    ensures CountsAre(Elems(SubtaskIds(ss)), SubtaskEdges(ss), {}, remaining)
    ensures TargetsMatch(SubtaskEdges(ss), dependents)
  {
    remaining, dependents := map[], map[];
    var i := 0;
    while i < |ss|
      invariant 0 <= i <= |ss|
      invariant CountsAre(Elems(SubtaskIds(ss[..i])), SubtaskEdges(ss[..i]), {}, remaining)
      invariant TargetsMatch(SubtaskEdges(ss[..i]), dependents)
    {
      NextCounts(ss, i, remaining);
      assert ss[..i + 1][..i] == ss[..i];
      remaining := remaining[ss[i].id := |ss[i].dependencies|];
      dependents := AddTargets(dependents, SubtaskEdges(ss[..i]), ss[i]);
      i := i + 1;
    }
    assert ss[..i] == ss;
  }

  /** The counters over occurrences of every edge, and the target lists with their
      repetitions. */
  method BuildCounters(d: TaskDecomposition) returns (remaining: map<Id, int>, dependents: Adjacency)
    requires WellFormed(d)
    ensures CountsAre(Elems(Ids(d)), EdgeList(d), {}, remaining)
    ensures TargetsMatch(EdgeList(d), dependents)
  {
    hide *;
    IdsAreDistinct(d);
    remaining, dependents := CountDependencies(d.subtasks);
    EdgePrefixEnds(d);
    var k := 0;
    while k < |d.dag|
      invariant 0 <= k <= |d.dag|
      invariant CountsAre(Elems(Ids(d)), EdgePrefix(d, k), {}, remaining)
      invariant TargetsMatch(EdgePrefix(d, k), dependents)
    {
      var e := d.dag[k];
      EdgePrefixNext(d, k, remaining);
      if e.typ != PARALLEL_WITH {
        TargetsExtend(EdgePrefix(d, k), dependents, (e.from, e.to));
        CountsExtend(Elems(Ids(d)), EdgePrefix(d, k), remaining, (e.from, e.to));
        remaining := remaining[e.to := remaining[e.to] + 1];
        dependents := AddArc(dependents, e.from, e.to);
      }
      k := k + 1;
    }
  }

  lemma IdsAreDistinct(d: TaskDecomposition)
    requires WellFormed(d)
    ensures Distinct(SubtaskIds(d.subtasks)) && Ids(d) == SubtaskIds(d.subtasks)
  {
  }

  // The occurrences of all listed dependencies and of the first k DAG entries.
  ghost function EdgePrefix(d: TaskDecomposition, k: nat): seq<Edge>
    requires k <= |d.dag|
  {
    SubtaskEdges(d.subtasks) + DagEdges(d.dag[..k])
  }

  lemma EdgePrefixEnds(d: TaskDecomposition)
    ensures EdgePrefix(d, 0) == SubtaskEdges(d.subtasks)
    ensures EdgePrefix(d, |d.dag|) == EdgeList(d)
  {
    assert d.dag[..|d.dag|] == d.dag;
  }

  lemma EdgePrefixNext(d: TaskDecomposition, k: nat, remaining: map<Id, int>)
    requires WellFormed(d) && k < |d.dag|
    requires CountsAre(Elems(Ids(d)), EdgePrefix(d, k), {}, remaining)
    ensures d.dag[k].to in remaining && d.dag[k].to in Elems(Ids(d))
    ensures EdgePrefix(d, k + 1) == if d.dag[k].typ == PARALLEL_WITH then EdgePrefix(d, k)
      else EdgePrefix(d, k) + [(d.dag[k].from, d.dag[k].to)]
  {
    assert d.dag[..k + 1][..k] == d.dag[..k];
    assert d.dag[k] in d.dag;
  }

  lemma CountsExtend(nodes: set<Id>, es: seq<Edge>, remaining: map<Id, int>, e: Edge)
    requires CountsAre(nodes, es, {}, remaining) && e.1 in nodes
    ensures CountsAre(nodes, es + [e], {}, remaining[e.1 := remaining[e.1] + 1])
  {
    assert (es + [e])[..|es|] == es;
  }

  /** The subtasks launched first are exactly those without predecessors, in
      declaration order; an accepted decomposition always has one. */
  method Roots(d: TaskDecomposition, remaining: map<Id, int>) returns (ready: seq<Id>)
    requires WellFormed(d) && Acyclic(Edges(d))
    requires CountsAre(Elems(Ids(d)), EdgeList(d), {}, remaining)
    ensures ready == InOrder(Ids(d), Spec.Init(Ids(d), Edges(d)).ready)
    ensures ready != []
  {
    var ids := Ids(d);
    ready := Scheduler.CollectZero(ids, remaining);
    ghost var roots := Spec.Init(ids, Edges(d)).ready;
    forall v ensures v in Scheduler.ZeroCounts(remaining) <==> v in roots {
      PendingZeroIff(EdgeList(d), {}, v);
      assert v in ids <==> v in Elems(ids);
    }
    assert Scheduler.ZeroCounts(remaining) == roots;
    RootExists(d);
  }

  lemma RootExists(d: TaskDecomposition)
    requires WellFormed(d) && Acyclic(Edges(d))
    ensures InOrder(Ids(d), Spec.Init(Ids(d), Edges(d)).ready) != []
  {
    var ids := Ids(d);
    assert ids[0] in Elems(ids);
    var v := SourceExists(Edges(d), Elems(ids));
    WellFormedEdges(d);
    PredsWithin(ids, Edges(d), v);
    assert Preds(Edges(d), v) == Preds(Edges(d), v) * Elems(ids);
    InOrderMember(ids, Spec.Init(ids, Edges(d)).ready, v);
  }

  // ---------- one received result ----------

  /** What handling the dependents of one finished subtask does to the counters and
      which subtasks it launches: those whose counter reaches zero, once each. */
  ghost predicate CountedDown(targets: seq<Id>, before: map<Id, int>, after: map<Id, int>, launched: seq<Id>) {
    && after.Keys == before.Keys
    && (forall w :: w in before ==> after[w] == before[w] - multiset(targets)[w])
    && Distinct(launched)
    && (forall w :: w in launched <==> w in before && 1 <= before[w] <= multiset(targets)[w])
  }

  lemma NothingCountedDown(targets: seq<Id>, before: map<Id, int>)
    ensures CountedDown(targets[..0], before, before, [])
  {
  }

  lemma CountDownNext(targets: seq<Id>, k: nat, before: map<Id, int>, after: map<Id, int>, launched: seq<Id>)
    requires k < |targets| && targets[k] in before && CountedDown(targets[..k], before, after, launched)
    ensures targets[k] in after
    ensures var w := targets[k];
      CountedDown(targets[..k + 1], before, after[w := after[w] - 1],
        if after[w] - 1 == 0 then launched + [w] else launched)
  {
    var w := targets[k];
    assert targets[..k + 1] == targets[..k] + [w];
    assert forall x :: multiset(targets[..k + 1])[x] == multiset(targets[..k])[x] + (if x == w then 1 else 0);
    if after[w] - 1 == 0 {
      DistinctSnoc(launched, w);
    }
  }

  method ReleaseDependents(before: map<Id, int>, targets: seq<Id>)
    returns (after: map<Id, int>, launched: seq<Id>)
    requires forall w :: w in targets ==> w in before
    ensures CountedDown(targets, before, after, launched)
  {
    NothingCountedDown(targets, before);
    hide CountedDown;
    after, launched := before, [];
    var k := 0;
    while k < |targets|
      invariant 0 <= k <= |targets|
      invariant CountedDown(targets[..k], before, after, launched)
    {
      var w := targets[k];
      CountDownNext(targets, k, before, after, launched);
      after := after[w := after[w] - 1];
      if after[w] == 0 {
        launched := launched + [w];
      }
      k := k + 1;
    }
    assert targets[..k] == targets;
  }

  lemma CountDownMeaning(nodes: set<Id>, es: seq<Edge>, done: set<Id>, u: Id,
                         before: map<Id, int>, after: map<Id, int>, launched: seq<Id>)
    requires CountsAre(nodes, es, done, before) && u !in done
    requires CountedDown(Targets(es, u), before, after, launched)
    ensures CountsAre(nodes, es, done + {u}, after)
    ensures forall w :: w in launched <==>
      w in nodes && Preds(EdgeSet(es), w) <= done + {u} && !(Preds(EdgeSet(es), w) <= done)
  {
    forall w ensures w in before ==> after[w] == Pending(es, done + {u}, w) {
      PendingAfter(es, done, u, w);
    }
    forall w ensures w in launched <==>
      w in nodes && Preds(EdgeSet(es), w) <= done + {u} && !(Preds(EdgeSet(es), w) <= done)
    {
      PendingAfter(es, done, u, w);
      PendingZeroIff(es, done, w);
      PendingZeroIff(es, done + {u}, w);
    }
  }

  /** Counting occurrences refines counting distinct predecessors: from the same
      completions, the executor launches exactly the subtasks the scheduler's
      MarkComplete makes ready. */
  lemma ExecutorRefinesScheduler(ids: seq<Id>, es: seq<Edge>, s: Spec.State, u: Id,
                                 before: map<Id, int>, after: map<Id, int>, launched: seq<Id>)
    requires Spec.Inv(ids, EdgeSet(es), s) && s.completed <= s.scheduled
    requires u in s.scheduled && u !in s.completed && u in ids
    requires CountsAre(Elems(ids), es, s.completed, before)
    requires CountedDown(Targets(es, u), before, after, launched)
    ensures Elems(launched) == Spec.NewlyReady(ids, EdgeSet(es), s, u)
    ensures CountsAre(Elems(ids), es, Spec.AfterComplete(ids, EdgeSet(es), s, u).completed, after)
  {
    CountDownMeaning(Elems(ids), es, s.completed, u, before, after, launched);
    var edges := EdgeSet(es);
    assert Spec.Completes(ids, s, u);
    forall w ensures w in Elems(launched) <==> w in Spec.Unlocked(ids, edges, s, u) {
      assert w in ids <==> w in Elems(ids);
      if w in s.completed + {u} {
        assert w in s.scheduled + s.ready;
        assert Spec.Unblocked(edges, s.completed, w);
      } else if w in s.scheduled + s.ready {
        assert Spec.Unblocked(edges, s.completed, w);
      } else if w in ids {
        assert !Spec.Unblocked(edges, s.completed, w);
      }
    }
  }
}

/** Reference definitions of execution orders and levels of a dependency graph,
    independent of how the scheduler computes them. */
module DagOrder {
  import opened Graph

  // ---------- topological orders ----------

  /** A topological order lists every subtask once, after all its predecessors. */
  ghost predicate IsTopological(ids: seq<Id>, edges: set<Edge>, t: seq<Id>) {
    && Distinct(t) && Elems(t) == Elems(ids)
    && forall i :: 0 <= i < |t| ==> Preds(edges, t[i]) <= Elems(t[..i])
  }

  lemma TopologicalEdges(ids: seq<Id>, edges: set<Edge>, t: seq<Id>, e: Edge)
    requires IsTopological(ids, edges, t) && EdgesWithin(ids, edges) && e in edges
    ensures e.0 in t && e.1 in t && Pos(t, e.0) < Pos(t, e.1)
  {
    assert e.1 in Elems(t);
    var i := Pos(t, e.1);
    PredsIff(edges, e.0, e.1);
    assert e.0 in Elems(t[..i]);
    var k :| 0 <= k < i && t[k] == e.0;
    PosOfIndex(t, k);
  }

  // a comes before b, comparing declaration positions at the first difference.
  ghost predicate LexLess(ids: seq<Id>, a: seq<Id>, b: seq<Id>) {
    exists i :: 0 <= i < |a| && i < |b| && a[..i] == b[..i]
      && a[i] in ids && b[i] in ids && Pos(ids, a[i]) < Pos(ids, b[i])
  }

  // Comparing so is strict: no order comes before itself, nor two before each other.
  lemma LexIsStrict(ids: seq<Id>, a: seq<Id>, b: seq<Id>)
    requires LexLess(ids, a, b)
    ensures a != b && !LexLess(ids, b, a)
  {
    var i :| 0 <= i < |a| && i < |b| && a[..i] == b[..i]
      && a[i] in ids && b[i] in ids && Pos(ids, a[i]) < Pos(ids, b[i]);
    forall j | 0 <= j < |a| && j < |b| && a[..j] == b[..j] && b[j] in ids && a[j] in ids
      ensures Pos(ids, b[j]) >= Pos(ids, a[j])
    {
      SameBefore(a, b, i, j);
      SameBefore(a, b, j, i);
    }
  }

  lemma SameBefore(a: seq<Id>, b: seq<Id>, n: nat, k: nat)
    requires n <= |a| && n <= |b| && a[..n] == b[..n]
    ensures k < n ==> a[k] == b[k]
  {
    assert k < n ==> a[..n][k] == b[..n][k];
  }

  // ---------- greedy orders driven by counters ----------

  ghost predicate CountsFor(ids: seq<Id>, edges: set<Edge>, count: map<Id, int>) {
    forall w :: w in ids ==> w in count && 0 <= count[w] <= |Preds(edges, w)|
  }

  // The subtasks not yet emitted that have count[w] emitted predecessors.
  ghost function ReadyAfter(ids: seq<Id>, edges: set<Edge>, count: map<Id, int>, done: set<Id>): set<Id>
    requires CountsFor(ids, edges, count)
  {
    set w | w in ids && w !in done && count[w] <= |Preds(edges, w) * done|
  }

  // Extends done by the ready subtask declared first, until none is ready.
  ghost function Greedy(ids: seq<Id>, edges: set<Edge>, count: map<Id, int>, done: seq<Id>): seq<Id>
    requires CountsFor(ids, edges, count)
    decreases Elems(ids) - Elems(done)
  {
    var ready := ReadyAfter(ids, edges, count, Elems(done));
    if ready == {} then done
    else
      assert ready <= Elems(ids);
      var next := First(ids, ready);
      ElemsSnoc(done, next);
      assert next in Elems(ids) - Elems(done);
      Greedy(ids, edges, count, done + [next])
  }

  // The counters of a scheduler in which nothing is complete.
  ghost function FreshCounts(ids: seq<Id>, edges: set<Edge>): (count: map<Id, int>)
    ensures CountsFor(ids, edges, count)
  {
    map w | w in ids :: |Preds(edges, w)|
  }

  ghost function FreshOrder(ids: seq<Id>, edges: set<Edge>): seq<Id> {
    Greedy(ids, edges, FreshCounts(ids, edges), [])
  }

  ghost predicate IsFirst(ids: seq<Id>, v: Id, s: set<Id>) {
    v in s && v in ids && forall w :: w in s && w in ids ==> Pos(ids, v) <= Pos(ids, w)
  }

  lemma PosInjective(ids: seq<Id>, v: Id, w: Id)
    requires v in ids && w in ids
    ensures v != w ==> Pos(ids, v) != Pos(ids, w)
  {
    assert ids[Pos(ids, v)] == v && ids[Pos(ids, w)] == w;
  }

  // From position from on, q takes the ready subtask declared first.
  ghost predicate IsGreedy(ids: seq<Id>, edges: set<Edge>, count: map<Id, int>, q: seq<Id>, from: nat)
    requires CountsFor(ids, edges, count)
  {
    && Distinct(q) && Elems(q) <= Elems(ids)
    && forall i :: from <= i < |q| ==> IsFirst(ids, q[i], ReadyAfter(ids, edges, count, Elems(q[..i])))
  }

  lemma GreedyUnfold(ids: seq<Id>, edges: set<Edge>, count: map<Id, int>, done: seq<Id>) returns (next: Id)
    requires CountsFor(ids, edges, count) && Distinct(done) && Elems(done) <= Elems(ids)
    requires ReadyAfter(ids, edges, count, Elems(done)) != {}
    ensures IsFirst(ids, next, ReadyAfter(ids, edges, count, Elems(done)))
    ensures Greedy(ids, edges, count, done) == Greedy(ids, edges, count, done + [next])
    ensures Distinct(done + [next]) && Elems(done + [next]) <= Elems(ids)
    ensures Elems(ids) - Elems(done + [next]) < Elems(ids) - Elems(done)
  {
    var ready := ReadyAfter(ids, edges, count, Elems(done));
    assert ready <= Elems(ids) && ready * Elems(done) == {};
    next := First(ids, ready);
    ElemsSnoc(done, next);
    assert next in Elems(ids) - Elems(done);
    assert next !in done;
  }

  lemma GreedyExtend(ids: seq<Id>, edges: set<Edge>, count: map<Id, int>, done: seq<Id>, next: Id, q: seq<Id>)
    requires CountsFor(ids, edges, count)
    requires done + [next] <= q && IsGreedy(ids, edges, count, q, |done| + 1)
    requires IsFirst(ids, next, ReadyAfter(ids, edges, count, Elems(done)))
    ensures done <= q && IsGreedy(ids, edges, count, q, |done|)
  {
    assert q[..|done|] == (done + [next])[..|done|] == done;
    assert q[|done|] == (done + [next])[|done|] == next;
    hide IsFirst;
    hide ReadyAfter;
    hide Elems;
  }

  lemma GreedyStops(ids: seq<Id>, edges: set<Edge>, count: map<Id, int>, done: seq<Id>)
    requires CountsFor(ids, edges, count) && Distinct(done) && Elems(done) <= Elems(ids)
    requires ReadyAfter(ids, edges, count, Elems(done)) == {}
    ensures Greedy(ids, edges, count, done) == done && IsGreedy(ids, edges, count, done, |done|)
  {
  }

  lemma {:induction false} GreedySteps(ids: seq<Id>, edges: set<Edge>, count: map<Id, int>, done: seq<Id>)
    requires CountsFor(ids, edges, count)
    requires Distinct(done) && Elems(done) <= Elems(ids)
    ensures var q := Greedy(ids, edges, count, done);
      && done <= q && IsGreedy(ids, edges, count, q, |done|)
      && ReadyAfter(ids, edges, count, Elems(q)) == {}
    decreases Elems(ids) - Elems(done)
  {
    hide *;
    if ReadyAfter(ids, edges, count, Elems(done)) == {} {
      GreedyStops(ids, edges, count, done);
    } else {
      var next := GreedyUnfold(ids, edges, count, done);
      GreedySteps(ids, edges, count, done + [next]);
      GreedyExtend(ids, edges, count, done, next, Greedy(ids, edges, count, done + [next]));
    }
  }

  // One step of a greedy order.
  lemma GreedyAt(ids: seq<Id>, edges: set<Edge>, count: map<Id, int>, i: nat)
    requires CountsFor(ids, edges, count) && i < |Greedy(ids, edges, count, [])|
    ensures var q := Greedy(ids, edges, count, []);
      IsFirst(ids, q[i], ReadyAfter(ids, edges, count, Elems(q[..i])))
  {
    GreedySteps(ids, edges, count, []);
  }

  lemma SomeoneIsReady(ids: seq<Id>, edges: set<Edge>, count: map<Id, int>, done: set<Id>)
    requires CountsFor(ids, edges, count) && EdgesWithin(ids, edges) && Acyclic(edges)
    requires done < Elems(ids)
    ensures ReadyAfter(ids, edges, count, done) != {}
  {
    var left := Elems(ids) - done;
    assert Elems(ids) == done + left;
    var v := SourceExists(edges, left);
    PredsWithin(ids, edges, v);
    var p := Preds(edges, v);
    assert p == p * left + p * done;
    assert p * done == p;
    assert v in ReadyAfter(ids, edges, count, done);
  }

  /** No counter can strand a subtask of an acyclic graph: every greedy order
      emits each subtask exactly once. */
  lemma GreedyIsComplete(ids: seq<Id>, edges: set<Edge>, count: map<Id, int>)
    requires CountsFor(ids, edges, count) && EdgesWithin(ids, edges) && Acyclic(edges)
    ensures Distinct(Greedy(ids, edges, count, []))
    ensures Elems(Greedy(ids, edges, count, [])) == Elems(ids)
  {
    GreedySteps(ids, edges, count, []);
    if Elems(Greedy(ids, edges, count, [])) != Elems(ids) {
      SomeoneIsReady(ids, edges, count, Elems(Greedy(ids, edges, count, [])));
    }
  }

  lemma GreedyLength(ids: seq<Id>, edges: set<Edge>, count: map<Id, int>)
    requires Distinct(ids)
    requires CountsFor(ids, edges, count) && EdgesWithin(ids, edges) && Acyclic(edges)
    ensures |Greedy(ids, edges, count, [])| == |ids|
  {
    GreedyIsComplete(ids, edges, count);
    DistinctLength(Greedy(ids, edges, count, []));
    DistinctLength(ids);
  }

  lemma FreshReadyIff(ids: seq<Id>, edges: set<Edge>, done: set<Id>, w: Id)
    ensures w in ReadyAfter(ids, edges, FreshCounts(ids, edges), done)
       <==> w in ids && w !in done && Preds(edges, w) <= done
  {
    var p := Preds(edges, w);
    SubsetLength(p * done, p);
    if |p| <= |p * done| {
      assert p * done == p;
    } else {
      assert p <= done ==> p * done == p;
    }
  }

  lemma FreshIsTopological(ids: seq<Id>, edges: set<Edge>)
    requires EdgesWithin(ids, edges) && Acyclic(edges)
    ensures IsTopological(ids, edges, FreshOrder(ids, edges))
  {
    var count := FreshCounts(ids, edges);
    var q := FreshOrder(ids, edges);
    GreedyIsComplete(ids, edges, count);
    forall i | 0 <= i < |q| ensures Preds(edges, q[i]) <= Elems(q[..i]) {
      GreedyAt(ids, edges, count, i);
      FreshReadyIff(ids, edges, Elems(q[..i]), q[i]);
    }
  }

  lemma {:induction false} FirstDifference(a: seq<Id>, b: seq<Id>) returns (i: nat)
    requires |a| == |b| && a != b
    ensures i < |a| && a[..i] == b[..i] && a[i] != b[i]
  {
    if a[0] != b[0] {
      i := 0;
    } else {
      assert a == [a[0]] + a[1..] && b == [b[0]] + b[1..];
      var k := FirstDifference(a[1..], b[1..]);
      i := k + 1;
      assert a[..i] == [a[0]] + a[1..][..k] && b[..i] == [b[0]] + b[1..][..k];
    }
  }

  lemma TopologicalLength(ids: seq<Id>, edges: set<Edge>, t: seq<Id>)
    requires Distinct(ids) && IsTopological(ids, edges, t)
    ensures |t| == |ids|
  {
    DistinctLength(t);
    DistinctLength(ids);
  }

  // Whatever the counters, the next subtask of a topological order is ready.
  lemma TopologicalNextIsReady(ids: seq<Id>, edges: set<Edge>, count: map<Id, int>, t: seq<Id>, i: nat)
    requires CountsFor(ids, edges, count) && IsTopological(ids, edges, t) && i < |t|
    ensures t[i] in ids && t[i] in ReadyAfter(ids, edges, count, Elems(t[..i]))
  {
    assert t[i] in Elems(t);
    assert t[i] !in t[..i];
    assert Preds(edges, t[i]) * Elems(t[..i]) == Preds(edges, t[i]);
  }

  // Where a greedy order first differs from a topological one, it chose a
  // subtask declared earlier.
  lemma GreedyChoosesFirst(ids: seq<Id>, edges: set<Edge>, count: map<Id, int>, t: seq<Id>, i: nat)
    requires CountsFor(ids, edges, count) && IsTopological(ids, edges, t)
    requires i < |t| && i < |Greedy(ids, edges, count, [])|
    requires Greedy(ids, edges, count, [])[..i] == t[..i]
    ensures var v := Greedy(ids, edges, count, [])[i];
      v in ids && t[i] in ids && Pos(ids, v) <= Pos(ids, t[i])
  {
    GreedyAt(ids, edges, count, i);
    TopologicalNextIsReady(ids, edges, count, t, i);
  }

  /** The fresh order is the least of all topological orders. */
  lemma FreshIsLeast(ids: seq<Id>, edges: set<Edge>, t: seq<Id>)
    requires Distinct(ids) && EdgesWithin(ids, edges) && Acyclic(edges)
    requires IsTopological(ids, edges, t)
    ensures FreshOrder(ids, edges) == t || LexLess(ids, FreshOrder(ids, edges), t)
  {
    var count, q := FreshCounts(ids, edges), FreshOrder(ids, edges);
    GreedyLength(ids, edges, count);
    TopologicalLength(ids, edges, t);
    if q != t {
      var i := FirstDifference(q, t);
      GreedyChoosesFirst(ids, edges, count, t, i);
      PosInjective(ids, q[i], t[i]);
    }
  }

  // ---------- counters that have already been decremented ----------

  /** At no step of the fresh order has the counter of a subtask declared before
      the one due already run out. */
  ghost predicate NothingReleasedEarly(ids: seq<Id>, edges: set<Edge>, count: map<Id, int>)
    requires CountsFor(ids, edges, count)
  {
    forall i, w :: 0 <= i < |FreshOrder(ids, edges)| ==> NotReleasedBefore(ids, edges, count, i, w)
  }

  ghost predicate NotReleasedBefore(ids: seq<Id>, edges: set<Edge>, count: map<Id, int>, i: nat, w: Id)
    requires CountsFor(ids, edges, count) && i < |FreshOrder(ids, edges)|
  {
    var q := FreshOrder(ids, edges);
    q[i] in ids && w in ids && Pos(ids, w) < Pos(ids, q[i]) && w !in q[..i] ==>
      count[w] > |Preds(edges, w) * Elems(q[..i])|
  }

  lemma GreedyFollowsFresh(ids: seq<Id>, edges: set<Edge>, count: map<Id, int>)
    requires Distinct(ids) && EdgesWithin(ids, edges) && Acyclic(edges) && CountsFor(ids, edges, count)
    requires NothingReleasedEarly(ids, edges, count)
    ensures Greedy(ids, edges, count, []) == FreshOrder(ids, edges)
  {
    var q, live := FreshOrder(ids, edges), Greedy(ids, edges, count, []);
    FreshIsTopological(ids, edges);
    GreedyLength(ids, edges, FreshCounts(ids, edges));
    GreedyLength(ids, edges, count);
    if live != q {
      var i := FirstDifference(live, q);
      GreedyChoosesFirst(ids, edges, count, q, i);
      GreedyAt(ids, edges, count, i);
      assert NotReleasedBefore(ids, edges, count, i, live[i]);
      PosInjective(ids, live[i], q[i]);
    }
  }

  lemma TopologicalGreedyIsFresh(ids: seq<Id>, edges: set<Edge>, count: map<Id, int>)
    requires Distinct(ids) && EdgesWithin(ids, edges) && Acyclic(edges) && CountsFor(ids, edges, count)
    requires IsTopological(ids, edges, Greedy(ids, edges, count, []))
    ensures Greedy(ids, edges, count, []) == FreshOrder(ids, edges)
  {
    var q, live := FreshOrder(ids, edges), Greedy(ids, edges, count, []);
    FreshIsTopological(ids, edges);
    TopologicalLength(ids, edges, q);
    TopologicalLength(ids, edges, live);
    if live != q {
      var i := FirstDifference(live, q);
      GreedyChoosesFirst(ids, edges, count, q, i);
      GreedyChoosesFirst(ids, edges, FreshCounts(ids, edges), live, i);
      PosInjective(ids, live[i], q[i]);
    }
  }

  /** With counters that completions have already lowered, the greedy order still
      respects every edge exactly when nothing is released early. */
  lemma GreedyTopologicalIff(ids: seq<Id>, edges: set<Edge>, count: map<Id, int>)
    requires Distinct(ids) && EdgesWithin(ids, edges) && Acyclic(edges) && CountsFor(ids, edges, count)
    ensures IsTopological(ids, edges, Greedy(ids, edges, count, [])) <==> NothingReleasedEarly(ids, edges, count)
  {
    if NothingReleasedEarly(ids, edges, count) {
      GreedyFollowsFresh(ids, edges, count);
      FreshIsTopological(ids, edges);
    }
    if IsTopological(ids, edges, Greedy(ids, edges, count, [])) {
      TopologicalGreedyIsFresh(ids, edges, count);
      forall i, w | 0 <= i < |FreshOrder(ids, edges)| ensures NotReleasedBefore(ids, edges, count, i, w) {
        GreedyAt(ids, edges, count, i);
      }
    }
  }

  /** With a and b both before w, declared as a, w, b, a counter of w that no longer
      counts both makes w come before b. */
  lemma LowCounterBreaksAnEdge(ids: seq<Id>, edges: set<Edge>, count: map<Id, int>)
    requires ids == ["a", "w", "b"] && edges == {("a", "w"), ("b", "w")} && CountsFor(ids, edges, count)
    requires "a" in count && count["a"] == 0 && "w" in count && count["w"] == 1
    ensures !IsTopological(ids, edges, Greedy(ids, edges, count, []))
  {
    hide *;
    var q := Greedy(ids, edges, count, []);
    LateSetup(ids, edges);
    GreedyLength(ids, edges, count);
    GreedyIsComplete(ids, edges, count);
    LateEdges(ids, edges);
    FirstEmitted(ids, edges, count, q);
    SecondEmitted(ids, edges, count, q);
    SecondTooEarly(ids, edges, q);
  }

  lemma LateSetup(ids: seq<Id>, edges: set<Edge>)
    requires ids == ["a", "w", "b"] && edges == {("a", "w"), ("b", "w")}
    ensures Distinct(ids) && EdgesWithin(ids, edges) && Acyclic(edges)
    ensures Pos(ids, "a") == 0 && Pos(ids, "w") == 1
  {
    RankedIsAcyclic(edges, map["a" := 1, "b" := 1, "w" := 0]);
    PosOfIndex(ids, 0);
    PosOfIndex(ids, 1);
  }

  lemma SecondTooEarly(ids: seq<Id>, edges: set<Edge>, q: seq<Id>)
    requires |q| == 3 && q[0] == "a" && q[1] == "w" && "b" in Preds(edges, "w")
    ensures !IsTopological(ids, edges, q)
  {
    assert "b" !in Elems(q[..1]);
  }

  lemma LateEdges(ids: seq<Id>, edges: set<Edge>)
    requires ids == ["a", "w", "b"] && edges == {("a", "w"), ("b", "w")}
    ensures Preds(edges, "w") == {"a", "b"} && Preds(edges, "a") == {}
  {
    forall u ensures u in Preds(edges, "w") <==> u == "a" || u == "b" {
      PredsIff(edges, u, "w");
    }
    forall u ensures u !in Preds(edges, "a") {
      PredsIff(edges, u, "a");
    }
  }

  lemma FirstEmitted(ids: seq<Id>, edges: set<Edge>, count: map<Id, int>, q: seq<Id>)
    requires CountsFor(ids, edges, count) && q == Greedy(ids, edges, count, []) && |q| == 3
    requires |ids| == 3 && ids[0] == "a" && Pos(ids, "a") == 0 && count["a"] == 0
    ensures q[0] == "a"
  {
    GreedyAt(ids, edges, count, 0);
    assert "a" in ReadyAfter(ids, edges, count, Elems(q[..0]));
    PosInjective(ids, q[0], "a");
  }

  lemma SecondEmitted(ids: seq<Id>, edges: set<Edge>, count: map<Id, int>, q: seq<Id>)
    requires CountsFor(ids, edges, count) && q == Greedy(ids, edges, count, []) && |q| == 3 && Distinct(q)
    requires |ids| == 3 && ids[1] == "w" && Pos(ids, "w") == 1 && ids[0] == "a" && q[0] == "a"
    requires count["w"] == 1 && Preds(edges, "w") == {"a", "b"}
    ensures q[1] == "w"
  {
    hide Greedy;
    hide ReadyAfter;
    hide IsFirst;
    GreedyAt(ids, edges, count, 1);
    assert q[..1] == ["a"];
    SecondReady(ids, edges, count);
    assert ids[Pos(ids, q[1])] == q[1];
    hide *;
    EarlierIsFirst(ids, q[1], "w", ReadyAfter(ids, edges, count, Elems(["a"])));
  }

  lemma EarlierIsFirst(ids: seq<Id>, v: Id, w: Id, ready: set<Id>)
    requires IsFirst(ids, v, ready) && w in ready && w in ids
    ensures Pos(ids, v) <= Pos(ids, w) && ids[Pos(ids, v)] == v
  {
  }

  lemma SecondReady(ids: seq<Id>, edges: set<Edge>, count: map<Id, int>)
    requires CountsFor(ids, edges, count) && |ids| == 3 && ids[1] == "w"
    requires count["w"] == 1 && Preds(edges, "w") == {"a", "b"}
    ensures "w" in ReadyAfter(ids, edges, count, Elems(["a"]))
  {
    assert {"a", "b"} * Elems(["a"]) == {"a"};
  }

  // ---------- levels ----------

  // Some dependency chain with k edges ends at v.
  ghost predicate HasChain(edges: set<Edge>, v: Id, k: nat) {
    exists p :: IsWalk(edges, p) && |p| == k + 1 && p[k] == v
  }

  // The subtasks whose longest dependency chain has exactly k edges.
  ghost function Level(ids: seq<Id>, edges: set<Edge>, k: nat): set<Id> {
    set v | v in ids && HasChain(edges, v, k) && !HasChain(edges, v, k + 1)
  }

  // The subtasks all of whose dependency chains have fewer than k edges.
  ghost function Below(ids: seq<Id>, edges: set<Edge>, k: nat): set<Id> {
    set v | v in ids && !HasChain(edges, v, k)
  }

  lemma ChainStep(edges: set<Edge>, v: Id, k: nat)
    ensures HasChain(edges, v, k + 1) <==> exists u :: u in Preds(edges, v) && HasChain(edges, u, k)
  {
    if HasChain(edges, v, k + 1) {
      var p :| IsWalk(edges, p) && |p| == k + 2 && p[k + 1] == v;
      var q := p[..k + 1];
      assert (p[k], p[k + 1]) in edges;
      PredsIff(edges, p[k], v);
      assert IsWalk(edges, q) && q[k] == p[k];
      assert HasChain(edges, p[k], k);
    }
    if u :| u in Preds(edges, v) && HasChain(edges, u, k) {
      var p :| IsWalk(edges, p) && |p| == k + 1 && p[k] == u;
      PredsIff(edges, u, v);
      WalkAppend(edges, p, v);
      assert IsWalk(edges, p + [v]) && (p + [v])[k + 1] == v;
    }
  }

  lemma ChainShorten(edges: set<Edge>, v: Id, k: nat)
    requires HasChain(edges, v, k + 1)
    ensures HasChain(edges, v, k)
  {
    var p :| IsWalk(edges, p) && |p| == k + 2 && p[k + 1] == v;
    var q := p[1..];
    assert IsWalk(edges, q) && |q| == k + 1 && q[k] == v;
  }

  lemma NothingBelowZero(ids: seq<Id>, edges: set<Edge>)
    ensures Below(ids, edges, 0) == {}
  {
    forall v ensures HasChain(edges, v, 0) {
      assert IsWalk(edges, [v]) && [v][0] == v;
    }
  }

  lemma BelowStep(ids: seq<Id>, edges: set<Edge>, k: nat, v: Id)
    requires EdgesWithin(ids, edges) && v in ids
    ensures v in Below(ids, edges, k + 1) <==> Preds(edges, v) <= Below(ids, edges, k)
  {
    ChainStep(edges, v, k);
    PredsWithin(ids, edges, v);
    assert forall u :: u in Preds(edges, v) ==> u in Elems(ids);
  }

  /** A level is what the levels below it have unlocked. */
  lemma LevelIsUnlocked(ids: seq<Id>, edges: set<Edge>, k: nat)
    requires EdgesWithin(ids, edges)
    ensures Below(ids, edges, k + 1) == Below(ids, edges, k) + Level(ids, edges, k)
    ensures Below(ids, edges, k) * Level(ids, edges, k) == {}
    ensures forall v :: v in ids ==>
      (v in Level(ids, edges, k) <==> v !in Below(ids, edges, k) && Preds(edges, v) <= Below(ids, edges, k))
  {
    forall v | v in ids
      ensures v in Below(ids, edges, k + 1) <==> Preds(edges, v) <= Below(ids, edges, k)
      ensures v in Below(ids, edges, k) ==> v in Below(ids, edges, k + 1)
    {
      BelowStep(ids, edges, k, v);
      if HasChain(edges, v, k + 1) {
        ChainShorten(edges, v, k);
      }
    }
  }
}

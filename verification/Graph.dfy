/** Finite directed graphs over subtask identifiers, shared by the decomposition
    checker, the scheduler and the executor. An edge (u, v) says that u must
    finish before v. */
module Graph {

  type Id = string
  type Edge = (Id, Id)

  // ---------- sequences of identifiers ----------

  function Elems(s: seq<Id>): set<Id> {
    set x | x in s
  }

  ghost predicate Distinct(s: seq<Id>) {
    forall i, j :: 0 <= i < j < |s| ==> s[i] != s[j]
  }

  lemma ElemsSnoc(s: seq<Id>, x: Id)
    ensures Elems(s + [x]) == Elems(s) + {x}
  {
  }

  lemma ElemsConcat(s: seq<Id>, t: seq<Id>)
    ensures Elems(s + t) == Elems(s) + Elems(t)
  {
  }

  lemma DistinctSnoc(s: seq<Id>, x: Id)
    requires Distinct(s) && x !in s
    ensures Distinct(s + [x])
  {
  }

  lemma ElemsPrefix(s: seq<Id>, i: nat)
    requires i < |s|
    ensures Elems(s[..i + 1]) == Elems(s[..i]) + {s[i]}
  {
    assert s[..i + 1] == s[..i] + [s[i]];
  }

  // A sequence without repetition is as long as its set of elements.
  lemma {:induction false} DistinctLength(s: seq<Id>)
    requires Distinct(s)
    ensures |Elems(s)| == |s|
  {
    if s != [] {
      var n := |s| - 1;
      DistinctLength(s[..n]);
      assert s == s[..n] + [s[n]];
      ElemsSnoc(s[..n], s[n]);
    }
  }

  lemma SubsetLength(a: set<Id>, b: set<Id>)
    requires a <= b
    ensures |a| <= |b|
    ensures |a| == |b| ==> a == b
  {
    assert b == a + (b - a);
  }

  // Pigeonhole: more positions than values forces a repetition.
  lemma Pigeonhole(s: seq<Id>, u: set<Id>)
    requires Elems(s) <= u && |s| > |u|
    ensures !Distinct(s)
  {
    if Distinct(s) {
      DistinctLength(s);
      SubsetLength(Elems(s), u);
    }
  }

  // ---------- declaration order ----------

  // Position of v in ids, the index every sort of the scheduler compares.
  function Pos(ids: seq<Id>, v: Id): (i: nat)
    requires v in ids
    ensures i < |ids| && ids[i] == v && v !in ids[..i]
  {
    if ids[0] == v then 0
    else
      assert ids == [ids[0]] + ids[1..];
      var k := Pos(ids[1..], v);
      assert ids[..k + 1] == [ids[0]] + ids[1..][..k];
      k + 1
  }

  lemma PosOfIndex(ids: seq<Id>, i: nat)
    requires Distinct(ids) && i < |ids|
    ensures Pos(ids, ids[i]) == i
  {
  }

  ghost predicate InDeclarationOrder(ids: seq<Id>, q: seq<Id>) {
    && (forall x :: x in q ==> x in ids)
    && forall i, j :: 0 <= i < j < |q| ==> Pos(ids, q[i]) < Pos(ids, q[j])
  }

  // The members of s, in the order ids declares them.
  ghost function InOrder(ids: seq<Id>, s: set<Id>): (q: seq<Id>) {
    if ids == [] then []
    else
      var n := |ids| - 1;
      InOrder(ids[..n], s) + (if ids[n] in s && ids[n] !in ids[..n] then [ids[n]] else [])
  }

  lemma {:induction false} InOrderElems(ids: seq<Id>, s: set<Id>)
    ensures Elems(InOrder(ids, s)) == Elems(ids) * s
  {
    if ids != [] {
      var n := |ids| - 1;
      InOrderElems(ids[..n], s);
      assert ids == ids[..n] + [ids[n]];
      ElemsSnoc(ids[..n], ids[n]);
      if ids[n] in s && ids[n] !in ids[..n] {
        ElemsSnoc(InOrder(ids[..n], s), ids[n]);
      } else {
        assert InOrder(ids, s) == InOrder(ids[..n], s);
        assert ids[n] in s ==> ids[n] in Elems(ids[..n]);
      }
    }
  }

  lemma {:induction false} PosOfPrefix(ids: seq<Id>, n: nat, v: Id)
    requires n <= |ids| && v in ids[..n]
    ensures Pos(ids, v) == Pos(ids[..n], v)
  {
    var i := Pos(ids[..n], v);
    assert ids[..n][..i] == ids[..i];
  }

  lemma InOrderMember(ids: seq<Id>, s: set<Id>, x: Id)
    ensures x in InOrder(ids, s) <==> x in ids && x in s
  {
    InOrderElems(ids, s);
    assert x in InOrder(ids, s) <==> x in Elems(InOrder(ids, s));
  }

  lemma {:induction false} InOrderSorted(ids: seq<Id>, s: set<Id>)
    ensures InDeclarationOrder(ids, InOrder(ids, s))
  {
    if ids != [] {
      var n, r := |ids| - 1, InOrder(ids, s);
      var q := InOrder(ids[..n], s);
      InOrderSorted(ids[..n], s);
      forall x | x in r ensures x in ids {
        InOrderMember(ids, s, x);
      }
      forall i, j | 0 <= i < j < |r|
        ensures r[i] in ids && r[j] in ids && Pos(ids, r[i]) < Pos(ids, r[j])
      {
        assert r[i] in r && r[j] in r && r[i] == q[i];
        PosOfPrefix(ids, n, q[i]);
        if j < |q| {
          PosOfPrefix(ids, n, q[j]);
        }
      }
    }
  }

  lemma SortedIsDistinct(ids: seq<Id>, q: seq<Id>)
    requires InDeclarationOrder(ids, q)
    ensures Distinct(q)
  {
  }

  lemma SortedLast(ids: seq<Id>, q: seq<Id>, x: Id)
    requires InDeclarationOrder(ids, q) && x in q
    ensures Pos(ids, x) <= Pos(ids, q[|q| - 1])
    ensures x != q[|q| - 1] ==> x in q[..|q| - 1]
    ensures q[|q| - 1] !in q[..|q| - 1]
  {
    var i :| 0 <= i < |q| && q[i] == x;
    assert i < |q| - 1 ==> q[..|q| - 1][i] == x;
  }

  lemma SortedSameLast(ids: seq<Id>, p: seq<Id>, q: seq<Id>)
    requires InDeclarationOrder(ids, p) && InDeclarationOrder(ids, q)
    requires p != [] && q != [] && forall x :: x in p <==> x in q
    ensures p[|p| - 1] == q[|q| - 1]
  {
    var a, b := p[|p| - 1], q[|q| - 1];
    assert a in p && b in q;
    SortedLast(ids, q, a);
    SortedLast(ids, p, b);
    assert ids[Pos(ids, a)] == a && ids[Pos(ids, b)] == b;
  }

  lemma InitMembers(ids: seq<Id>, q: seq<Id>, x: Id)
    requires InDeclarationOrder(ids, q) && q != []
    ensures x in q[..|q| - 1] <==> x in q && x != q[|q| - 1]
    ensures InDeclarationOrder(ids, q[..|q| - 1])
  {
    if x in q {
      SortedLast(ids, q, x);
    }
  }

  // Declaration order determines the sequence: two sorted sequences over the
  // same members are equal.
  lemma {:induction false} SortedUnique(ids: seq<Id>, p: seq<Id>, q: seq<Id>)
    requires InDeclarationOrder(ids, p) && InDeclarationOrder(ids, q)
    requires forall x :: x in p <==> x in q
    ensures p == q
  {
    assert p != [] ==> p[0] in q;
    assert q != [] ==> q[0] in p;
    if p != [] && q != [] {
      var n, m := |p| - 1, |q| - 1;
      SortedSameLast(ids, p, q);
      forall x ensures x in p[..n] <==> x in q[..m] {
        InitMembers(ids, p, x);
        InitMembers(ids, q, x);
      }
      InitMembers(ids, p, p[n]);
      InitMembers(ids, q, q[m]);
      SortedUnique(ids, p[..n], q[..m]);
      assert p == p[..n] + [p[n]] && q == q[..m] + [q[m]];
    }
  }

  lemma SortedIsInOrder(ids: seq<Id>, q: seq<Id>, s: set<Id>)
    requires InDeclarationOrder(ids, q) && Elems(q) == s
    ensures q == InOrder(ids, s)
  {
    InOrderSorted(ids, s);
    forall x ensures x in q <==> x in InOrder(ids, s) {
      InOrderMember(ids, s, x);
      assert x in q <==> x in Elems(q);
    }
    SortedUnique(ids, q, InOrder(ids, s));
  }

  // The member of s declared first.
  ghost function First(ids: seq<Id>, s: set<Id>): (v: Id)
    requires s != {} && s <= Elems(ids)
    ensures v in s && v in ids
    ensures forall w :: w in s ==> Pos(ids, v) <= Pos(ids, w)
  {
    InOrderElems(ids, s);
    InOrderSorted(ids, s);
    assert s == Elems(InOrder(ids, s));
    assert InOrder(ids, s) != [];
    InOrder(ids, s)[0]
  }

  // ---------- edges, walks and cycles ----------

  ghost function Preds(edges: set<Edge>, v: Id): set<Id> {
    set e | e in edges && e.1 == v :: e.0
  }

  lemma PredsIff(edges: set<Edge>, u: Id, v: Id)
    ensures u in Preds(edges, v) <==> (u, v) in edges
  {
    if (u, v) in edges {
      assert (u, v).1 == v;
    }
  }

  ghost predicate EdgesWithin(ids: seq<Id>, edges: set<Edge>) {
    forall e :: e in edges ==> e.0 in ids && e.1 in ids
  }

  lemma PredsWithin(ids: seq<Id>, edges: set<Edge>, v: Id)
    requires EdgesWithin(ids, edges)
    ensures Preds(edges, v) <= Elems(ids)
  {
  }

  // A walk lists nodes joined by edges; it may be a single node.
  ghost predicate IsWalk(edges: set<Edge>, p: seq<Id>) {
    && p != []
    && forall i, j :: 0 <= i < j < |p| && j == i + 1 ==> (p[i], p[j]) in edges
  }

  ghost predicate IsClosedWalk(edges: set<Edge>, p: seq<Id>) {
    |p| >= 2 && IsWalk(edges, p) && p[0] == p[|p| - 1]
  }

  ghost predicate Acyclic(edges: set<Edge>) {
    forall p :: !IsClosedWalk(edges, p)
  }

  // A rank strictly decreases along every edge.
  ghost predicate IsRank(edges: set<Edge>, rank: map<Id, nat>) {
    forall e :: e in edges ==> e.0 in rank && e.1 in rank && rank[e.1] < rank[e.0]
  }

  lemma {:induction false} RankDropsAlongWalk(edges: set<Edge>, rank: map<Id, nat>, p: seq<Id>)
    requires IsRank(edges, rank) && IsWalk(edges, p) && |p| >= 2
    ensures p[0] in rank && p[|p| - 1] in rank
    ensures rank[p[|p| - 1]] < rank[p[0]]
    decreases |p|
  {
    assert (p[0], p[1]) in edges;
    if |p| > 2 {
      RankDropsAlongWalk(edges, rank, p[1..]);
    }
  }

  lemma RankedIsAcyclic(edges: set<Edge>, rank: map<Id, nat>)
    requires IsRank(edges, rank)
    ensures Acyclic(edges)
  {
    forall p ensures !IsClosedWalk(edges, p) {
      if IsClosedWalk(edges, p) {
        RankDropsAlongWalk(edges, rank, p);
      }
    }
  }

  lemma WalkAppend(edges: set<Edge>, p: seq<Id>, v: Id)
    requires IsWalk(edges, p) && (p[|p| - 1], v) in edges
    ensures IsWalk(edges, p + [v])
  {
  }

  // While every member of u has a predecessor in u, walks inside u have any length.
  lemma {:induction false} WalkInside(edges: set<Edge>, u: set<Id>, n: nat) returns (p: seq<Id>)
    requires u != {}
    requires forall v :: v in u ==> Preds(edges, v) * u != {}
    ensures IsWalk(edges, p) && |p| == n + 1 && Elems(p) <= u
  {
    if n == 0 {
      var v :| v in u;
      p := [v];
    } else {
      var q := WalkInside(edges, u, n - 1);
      assert q[0] in Elems(q);
      var w :| w in Preds(edges, q[0]) * u;
      PredsIff(edges, w, q[0]);
      p := [w] + q;
    }
  }

  /** In an acyclic graph every non-empty set of nodes has a member none of whose
      predecessors lies in the set. This is the fact that keeps the scheduler and
      the executor from getting stuck. */
  lemma SourceExists(edges: set<Edge>, u: set<Id>) returns (v: Id)
    requires Acyclic(edges) && u != {}
    ensures v in u && Preds(edges, v) * u == {}
  {
    if x :| x in u && Preds(edges, x) * u == {} {
      v := x;
    } else {
      forall w | w in u ensures Preds(edges, w) * u != {} {
      }
      var p := WalkInside(edges, u, |u|);
      Pigeonhole(p, u);
      var i, j :| 0 <= i < j < |p| && p[i] == p[j];
      assert IsClosedWalk(edges, p[i..j + 1]);
      assert false;
    }
  }
}

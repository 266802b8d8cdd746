/** The decomposition of a task into subtasks, its structural faults, the edges
    it induces, and the depth-first search that decides whether they form a cycle
    (internal/orchestration/types.go). */
module Decomposition {
  import opened Graph

  const PARALLEL_WITH := "parallel-with"

  predicate ValidType(t: string) {
    t == "depends-on" || t == "sequential" || t == PARALLEL_WITH
  }

  predicate ValidStatus(s: string) {
    s == "pending" || s == "running" || s == "completed" || s == "failed"
  }

  datatype Dependency = Dependency(from: Id, to: Id, typ: string)

  datatype Subtask = Subtask(
    id: Id,
    description: string,
    input: string,
    expectedOutput: string,
    dependencies: seq<Id>,
    status: string)
  {
    // Unsupported statuses default to pending.
    function Normalize(): (s: Subtask)
      ensures s.id == id && s.dependencies == dependencies && ValidStatus(s.status)
      ensures s == if ValidStatus(status) then this else this.(status := "pending")
    {
      this.(status := if ValidStatus(status) then status else "pending")
    }
  }

  datatype TaskDecomposition = TaskDecomposition(
    taskID: string,
    subtasks: seq<Subtask>,
    dag: seq<Dependency>,
    metadata: map<string, string>)

  function SubtaskIds(ss: seq<Subtask>): (ids: seq<Id>)
    ensures |ids| == |ss|
    ensures forall i :: 0 <= i < |ss| ==> ids[i] == ss[i].id
  {
    seq(|ss|, i requires 0 <= i < |ss| => ss[i].id)
  }

  function Ids(d: TaskDecomposition): seq<Id> {
    SubtaskIds(d.subtasks)
  }

  // ---------- edges ----------

  function DepEdges(id: Id, deps: seq<Id>): (es: seq<Edge>)
    ensures |es| == |deps|
    ensures forall i :: 0 <= i < |deps| ==> es[i] == (deps[i], id)
  {
    seq(|deps|, i requires 0 <= i < |deps| => (deps[i], id))
  }

  function SubtaskEdges(ss: seq<Subtask>): seq<Edge> {
    if ss == [] then []
    else
      var n := |ss| - 1;
      SubtaskEdges(ss[..n]) + DepEdges(ss[n].id, ss[n].dependencies)
  }

  function DagEdges(dag: seq<Dependency>): seq<Edge> {
    if dag == [] then []
    else
      var n := |dag| - 1;
      DagEdges(dag[..n]) + (if dag[n].typ == PARALLEL_WITH then [] else [(dag[n].from, dag[n].to)])
  }

  // Every edge occurrence, in the order all three algorithms visit them. An edge
  // named both by a subtask and by the DAG, or repeated in the DAG, occurs as
  // often as it is written.
  function EdgeList(d: TaskDecomposition): seq<Edge> {
    SubtaskEdges(d.subtasks) + DagEdges(d.dag)
  }

  function EdgeSet(es: seq<Edge>): set<Edge> {
    set e | e in es
  }

  function Edges(d: TaskDecomposition): set<Edge> {
    EdgeSet(EdgeList(d))
  }

  lemma {:induction false} SubtaskEdgesIff(ss: seq<Subtask>, u: Id, v: Id)
    ensures (u, v) in SubtaskEdges(ss) <==> exists s :: s in ss && s.id == v && u in s.dependencies
  {
    if ss != [] {
      var n := |ss| - 1;
      SubtaskEdgesIff(ss[..n], u, v);
      assert ss == ss[..n] + [ss[n]];
      var es := DepEdges(ss[n].id, ss[n].dependencies);
      if ss[n].id == v && u in ss[n].dependencies {
        var i :| 0 <= i < |ss[n].dependencies| && ss[n].dependencies[i] == u;
        assert es[i] == (u, v);
      }
    }
  }

  lemma {:induction false} DagEdgesIff(dag: seq<Dependency>, u: Id, v: Id)
    ensures (u, v) in DagEdges(dag)
       <==> exists e :: e in dag && e.typ != PARALLEL_WITH && e.from == u && e.to == v
  {
    if dag != [] {
      var n := |dag| - 1;
      DagEdgesIff(dag[..n], u, v);
      assert dag == dag[..n] + [dag[n]];
    }
  }

  /** What an edge is: a listed dependency, or a DAG entry that is not parallel-with. */
  lemma EdgesIff(d: TaskDecomposition, u: Id, v: Id)
    ensures (u, v) in Edges(d) <==>
      || (exists s :: s in d.subtasks && s.id == v && u in s.dependencies)
      || (exists e :: e in d.dag && e.typ != PARALLEL_WITH && e.from == u && e.to == v)
  {
    SubtaskEdgesIff(d.subtasks, u, v);
    DagEdgesIff(d.dag, u, v);
  }

  // ---------- structural faults ----------

  datatype Fault =
    | MissingTaskID
    | NoSubtasks
    | DuplicateSubtask(id: Id)
    | MissingID
    | MissingDescription(id: Id)
    | UnsupportedStatus(id: Id, status: string)
    | EmptyDependency(id: Id)
    | SelfDependency(id: Id)
    | DuplicateDependency(id: Id, dep: Id)
    | UnknownDependency(id: Id, dep: Id)
    | MissingFrom
    | MissingTo
    | UnsupportedType(typ: string)
    | UnknownEndpoint(id: Id)
    | SelfEdge(id: Id)

  ghost predicate Repeated(s: seq<Id>, x: Id) {
    exists i, j :: 0 <= i < j < |s| && s[i] == x && s[j] == x
  }

  ghost predicate SubtaskFault(s: Subtask, known: set<Id>, f: Fault) {
    match f
    case MissingID => s.id == ""
    case MissingDescription(id) => id == s.id && s.description == ""
    case UnsupportedStatus(id, status) => id == s.id && status == s.status && !ValidStatus(status)
    case EmptyDependency(id) => id == s.id && "" in s.dependencies
    case SelfDependency(id) => id == s.id && id != "" && id in s.dependencies
    case DuplicateDependency(id, dep) => id == s.id && dep != "" && Repeated(s.dependencies, dep)
    case UnknownDependency(id, dep) => id == s.id && dep != "" && dep in s.dependencies && dep !in known
    case _ => false
  }

  ghost predicate EdgeFault(e: Dependency, known: set<Id>, f: Fault) {
    match f
    case MissingFrom => e.from == ""
    case MissingTo => e.to == ""
    case UnsupportedType(typ) => typ == e.typ && !ValidType(typ)
    case UnknownEndpoint(id) => id != "" && id !in known && (id == e.from || id == e.to)
    case SelfEdge(id) => id != "" && id == e.from && id == e.to
    case _ => false
  }

  function NonEmpty(ids: seq<Id>): set<Id> {
    set x | x in ids && x != ""
  }

  ghost predicate TopFault(d: TaskDecomposition, f: Fault) {
    match f
    case MissingTaskID => d.taskID == ""
    case NoSubtasks => d.subtasks == []
    case DuplicateSubtask(id) => id != "" && Repeated(Ids(d), id)
    case _ => false
  }

  ghost predicate HasFault(d: TaskDecomposition, f: Fault) {
    var known := NonEmpty(Ids(d));
    || TopFault(d, f)
    || (exists s :: s in d.subtasks && SubtaskFault(s, known, f))
    || (exists e :: e in d.dag && EdgeFault(e, known, f))
  }

  ghost predicate SubtaskOk(s: Subtask, known: set<Id>) {
    && s.id != "" && s.description != "" && ValidStatus(s.status)
    && Distinct(s.dependencies)
    && forall u :: u in s.dependencies ==> u != s.id && u in known
  }

  ghost predicate EdgeOk(e: Dependency, known: set<Id>) {
    e.from in known && e.to in known && e.from != e.to && ValidType(e.typ)
  }

  ghost predicate WellFormed(d: TaskDecomposition) {
    var known := Elems(Ids(d));
    && d.taskID != "" && d.subtasks != []
    && Distinct(Ids(d))
    && (forall s :: s in d.subtasks ==> SubtaskOk(s, known))
    && (forall e :: e in d.dag ==> EdgeOk(e, known))
  }

  lemma SubtaskOkIff(s: Subtask, known: set<Id>)
    requires "" !in known
    ensures SubtaskOk(s, known) <==> forall f :: !SubtaskFault(s, known, f)
  {
    if forall f :: !SubtaskFault(s, known, f) {
      assert !SubtaskFault(s, known, MissingID);
      assert !SubtaskFault(s, known, MissingDescription(s.id));
      assert !SubtaskFault(s, known, UnsupportedStatus(s.id, s.status));
      assert !SubtaskFault(s, known, EmptyDependency(s.id));
      assert !SubtaskFault(s, known, SelfDependency(s.id));
      forall u | u in s.dependencies ensures u != "" && !Repeated(s.dependencies, u) && u in known {
        assert !SubtaskFault(s, known, DuplicateDependency(s.id, u));
        assert !SubtaskFault(s, known, UnknownDependency(s.id, u));
      }
      forall i, j | 0 <= i < j < |s.dependencies| ensures s.dependencies[i] != s.dependencies[j] {
        assert !Repeated(s.dependencies, s.dependencies[i]);
      }
    }
  }

  lemma EdgeOkIff(e: Dependency, known: set<Id>)
    requires "" !in known
    ensures EdgeOk(e, known) <==> forall f :: !EdgeFault(e, known, f)
  {
    if forall f :: !EdgeFault(e, known, f) {
      assert !EdgeFault(e, known, MissingFrom) && !EdgeFault(e, known, MissingTo);
      assert !EdgeFault(e, known, UnsupportedType(e.typ));
      assert !EdgeFault(e, known, UnknownEndpoint(e.from)) && !EdgeFault(e, known, UnknownEndpoint(e.to));
      assert !EdgeFault(e, known, SelfEdge(e.from));
    }
  }

  lemma IdsAreKnown(d: TaskDecomposition)
    requires forall s :: s in d.subtasks ==> s.id != ""
    ensures NonEmpty(Ids(d)) == Elems(Ids(d))
  {
    forall x | x in Ids(d) ensures x != "" {
      var i :| 0 <= i < |Ids(d)| && Ids(d)[i] == x;
      assert d.subtasks[i] in d.subtasks;
    }
  }

  lemma TopOkIff(d: TaskDecomposition)
    requires "" !in Ids(d)
    ensures d.taskID != "" && d.subtasks != [] && Distinct(Ids(d)) <==> forall f :: !TopFault(d, f)
  {
    if forall f :: !TopFault(d, f) {
      assert !TopFault(d, MissingTaskID) && !TopFault(d, NoSubtasks);
      forall i, j | 0 <= i < j < |Ids(d)| ensures Ids(d)[i] != Ids(d)[j] {
        assert !TopFault(d, DuplicateSubtask(Ids(d)[i]));
      }
    }
  }

  /** A decomposition is well formed exactly when it has no fault. */
  lemma WellFormedIffNoFault(d: TaskDecomposition)
    ensures WellFormed(d) <==> forall f :: !HasFault(d, f)
  {
    var known := NonEmpty(Ids(d));
    forall s ensures SubtaskOk(s, known) <==> forall f :: !SubtaskFault(s, known, f) {
      SubtaskOkIff(s, known);
    }
    forall e ensures EdgeOk(e, known) <==> forall f :: !EdgeFault(e, known, f) {
      EdgeOkIff(e, known);
    }
    if forall f :: !HasFault(d, f) {
      NoFaultWellFormed(d);
    }
    if WellFormed(d) {
      IdsAreKnown(d);
      assert "" !in Elems(Ids(d));
      TopOkIff(d);
    }
  }

  lemma NoFaultWellFormed(d: TaskDecomposition)
    requires forall f :: !HasFault(d, f)
    ensures WellFormed(d)
  {
    var known := NonEmpty(Ids(d));
    forall s | s in d.subtasks ensures SubtaskOk(s, known) {
      SubtaskOkIff(s, known);
      forall f ensures !SubtaskFault(s, known, f) {
        assert !HasFault(d, f);
      }
    }
    forall e | e in d.dag ensures EdgeOk(e, known) {
      EdgeOkIff(e, known);
      forall f ensures !EdgeFault(e, known, f) {
        assert !HasFault(d, f);
      }
    }
    IdsAreKnown(d);
    assert "" !in Elems(Ids(d));
    TopOkIff(d);
    forall f ensures !TopFault(d, f) {
      assert !HasFault(d, f);
    }
  }

  lemma WellFormedEdges(d: TaskDecomposition)
    requires WellFormed(d)
    ensures EdgesWithin(Ids(d), Edges(d))
  {
    forall e | e in Edges(d) ensures e.0 in Ids(d) && e.1 in Ids(d) {
      EdgesIff(d, e.0, e.1);
      if s :| s in d.subtasks && s.id == e.1 && e.0 in s.dependencies {
        assert e.0 in Elems(Ids(d));
        var i :| 0 <= i < |d.subtasks| && d.subtasks[i] == s;
        assert Ids(d)[i] == e.1;
      } else {
        assert e.0 in Elems(Ids(d)) && e.1 in Elems(Ids(d));
      }
    }
  }

  // One of the subtasks has the identifier.
  ghost predicate Declared(d: TaskDecomposition, id: Id) {
    exists i :: 0 <= i < |d.subtasks| && d.subtasks[i].id == id
  }

  lemma DeclaredIff(d: TaskDecomposition, id: Id)
    ensures Declared(d, id) <==> id in Elems(Ids(d))
  {
    if Declared(d, id) {
      var i :| 0 <= i < |d.subtasks| && d.subtasks[i].id == id;
      assert Ids(d)[i] == id;
    }
    if id in Ids(d) {
      var i :| 0 <= i < |Ids(d)| && Ids(d)[i] == id;
      assert d.subtasks[i].id == id;
    }
  }

  // The subtask at i is described, has a known status and sound dependencies.
  ghost predicate SoundSubtask(d: TaskDecomposition, i: nat)
    requires i < |d.subtasks|
  {
    var s := d.subtasks[i];
    && s.id != "" && s.description != "" && s.status in ["pending", "running", "completed", "failed"]
    && (forall j, k :: 0 <= j < k < |s.dependencies| ==> s.dependencies[j] != s.dependencies[k])
    && (forall u :: u in s.dependencies ==> u != s.id && Declared(d, u))
  }

  // The entry at i is of a known type and joins two subtasks.
  ghost predicate SoundEntry(d: TaskDecomposition, i: nat)
    requires i < |d.dag|
  {
    var e := d.dag[i];
    && e.typ in ["depends-on", "sequential", "parallel-with"]
    && e.from != e.to && Declared(d, e.from) && Declared(d, e.to)
  }

  /** What an accepted decomposition looks like, its acyclicity apart. */
  lemma WellFormedMeans(d: TaskDecomposition)
    ensures WellFormed(d) <==>
      && d.taskID != "" && d.subtasks != []
      && (forall i, j :: 0 <= i < j < |d.subtasks| ==> d.subtasks[i].id != d.subtasks[j].id)
      && (forall i :: 0 <= i < |d.subtasks| ==> SoundSubtask(d, i))
      && (forall i :: 0 <= i < |d.dag| ==> SoundEntry(d, i))
  {
    forall id ensures Declared(d, id) <==> id in Elems(Ids(d)) {
      DeclaredIff(d, id);
    }
    var known := Elems(Ids(d));
    assert forall i :: 0 <= i < |d.subtasks| ==> (SoundSubtask(d, i) <==> SubtaskOk(d.subtasks[i], known));
    assert forall i :: 0 <= i < |d.dag| ==> (SoundEntry(d, i) <==> EdgeOk(d.dag[i], known));
    assert (forall s :: s in d.subtasks ==> SubtaskOk(s, known)) <==>
      forall i :: 0 <= i < |d.subtasks| ==> SubtaskOk(d.subtasks[i], known);
    assert (forall e :: e in d.dag ==> EdgeOk(e, known)) <==>
      forall i :: 0 <= i < |d.dag| ==> EdgeOk(d.dag[i], known);
    assert forall i :: 0 <= i < |d.subtasks| ==> Ids(d)[i] == d.subtasks[i].id;
    hide Declared;
    hide SoundSubtask;
    hide SoundEntry;
    hide SubtaskOk;
    hide EdgeOk;
  }

  /** An edge comes from a dependency or from an entry of a type other than
      parallel-with. */
  lemma EdgesMean(d: TaskDecomposition, u: Id, v: Id)
    ensures (u, v) in Edges(d) <==>
      || (exists i :: 0 <= i < |d.subtasks| && d.subtasks[i].id == v && u in d.subtasks[i].dependencies)
      || (exists i :: 0 <= i < |d.dag| && d.dag[i].from == u && d.dag[i].to == v && d.dag[i].typ != "parallel-with")
  {
    EdgesIff(d, u, v);
    hide Edges;
    if s :| s in d.subtasks && s.id == v && u in s.dependencies {
      var i :| 0 <= i < |d.subtasks| && d.subtasks[i] == s;
    }
    if e :| e in d.dag && e.from == u && e.to == v && e.typ != "parallel-with" {
      var i :| 0 <= i < |d.dag| && d.dag[i] == e;
    }
  }

  // ---------- validation ----------

  method ValidateSubtask(s: Subtask, known: set<Id>) returns (faults: seq<Fault>)
    ensures forall f :: f in faults <==> SubtaskFault(s, known, f)
  {
    faults := [];
    if s.id == "" {
      faults := faults + [MissingID];
    }
    if s.description == "" {
      faults := faults + [MissingDescription(s.id)];
    }
    if !ValidStatus(s.status) {
      faults := faults + [UnsupportedStatus(s.id, s.status)];
    }
    var seen: set<Id> := {};
    var i := 0;
    while i < |s.dependencies|
      invariant 0 <= i <= |s.dependencies|
      invariant seen == NonEmpty(s.dependencies[..i])
      invariant forall f :: f in faults <==> SubtaskFault(s.(dependencies := s.dependencies[..i]), known, f)
    {
      var dep := s.dependencies[i];
      ghost var before := faults;
      if dep == "" {
        faults := faults + [EmptyDependency(s.id)];
      } else {
        if dep == s.id {
          faults := faults + [SelfDependency(s.id)];
        }
        if dep in seen {
          faults := faults + [DuplicateDependency(s.id, dep)];
        } else {
          seen := seen + {dep};
          if dep !in known {
            faults := faults + [UnknownDependency(s.id, dep)];
          }
        }
      }
      forall f ensures f in faults <==> SubtaskFault(s.(dependencies := s.dependencies[..i + 1]), known, f) {
        FaultsGrow(s, known, i, f);
      }
      i := i + 1;
    }
    assert s.dependencies[..i] == s.dependencies;
  }

  // What reading one more dependency adds to the faults of a subtask.
  lemma FaultsGrow(s: Subtask, known: set<Id>, i: nat, f: Fault)
    requires i < |s.dependencies|
    ensures var dep := s.dependencies[i];
      SubtaskFault(s.(dependencies := s.dependencies[..i + 1]), known, f) <==>
      || SubtaskFault(s.(dependencies := s.dependencies[..i]), known, f)
      || (dep == "" && f == EmptyDependency(s.id))
      || (dep != "" && dep == s.id && f == SelfDependency(s.id))
      || (dep != "" && dep in s.dependencies[..i] && f == DuplicateDependency(s.id, dep))
      || (dep != "" && dep !in known && f == UnknownDependency(s.id, dep))
  {
    var before, after := s.dependencies[..i], s.dependencies[..i + 1];
    assert after == before + [s.dependencies[i]];
    forall x ensures Repeated(after, x) <==> Repeated(before, x) || (x == s.dependencies[i] && x in before) {
      if x == s.dependencies[i] && x in before {
        var j :| 0 <= j < i && before[j] == x;
        assert after[j] == x && after[i] == x;
      }
    }
  }

  method ValidateEdge(e: Dependency, known: set<Id>) returns (faults: seq<Fault>)
    ensures forall f :: f in faults <==> EdgeFault(e, known, f)
  {
    faults := [];
    if e.from == "" {
      faults := faults + [MissingFrom];
    }
    if e.to == "" {
      faults := faults + [MissingTo];
    }
    if !ValidType(e.typ) {
      faults := faults + [UnsupportedType(e.typ)];
    }
    if e.from != "" && e.from !in known {
      faults := faults + [UnknownEndpoint(e.from)];
    }
    if e.to != "" && e.to !in known {
      faults := faults + [UnknownEndpoint(e.to)];
    }
    if e.from != "" && e.from == e.to {
      faults := faults + [SelfEdge(e.from)];
    }
  }

  datatype Verdict = Accepted | Faulty(faults: seq<Fault>) | Circular(cycle: seq<Id>)

  method CollectIds(d: TaskDecomposition) returns (known: set<Id>, faults: seq<Fault>)
    ensures known == NonEmpty(Ids(d))
    ensures forall f :: f in faults <==> TopFault(d, f)
  {
    faults := [];
    if d.taskID == "" {
      faults := faults + [MissingTaskID];
    }
    if d.subtasks == [] {
      faults := faults + [NoSubtasks];
    }
    ghost var base := faults;
    known := {};
    var i := 0;
    while i < |d.subtasks|
      invariant 0 <= i <= |d.subtasks|
      invariant known == NonEmpty(Ids(d)[..i])
      invariant forall f :: f in faults <==>
        f in base || (f.DuplicateSubtask? && f.id != "" && Repeated(Ids(d)[..i], f.id))
    {
      var id := d.subtasks[i].id;
      RepeatedGrows(Ids(d), i);
      if id != "" {
        if id in known {
          faults := faults + [DuplicateSubtask(id)];
        } else {
          known := known + {id};
        }
      }
      i := i + 1;
    }
    assert Ids(d)[..i] == Ids(d);
  }

  lemma RepeatedGrows(s: seq<Id>, i: nat)
    requires i < |s|
    ensures Elems(s[..i + 1]) == Elems(s[..i]) + {s[i]}
    ensures forall x :: Repeated(s[..i + 1], x) <==> Repeated(s[..i], x) || (x == s[i] && x in s[..i])
  {
    ElemsPrefix(s, i);
    var before, after := s[..i], s[..i + 1];
    assert after == before + [s[i]];
    forall x ensures Repeated(after, x) <==> Repeated(before, x) || (x == s[i] && x in before) {
      if x == s[i] && x in before {
        var j :| 0 <= j < i && before[j] == x;
        assert after[j] == x && after[i] == x;
      }
    }
  }

  /** A decomposition is accepted exactly when it is well formed and its edges
      have no cycle; a fault list holds exactly its faults; a reported cycle is one. */
  method Validate(d: TaskDecomposition) returns (v: Verdict)
    ensures v.Accepted? <==> WellFormed(d) && Acyclic(Edges(d))
    ensures v.Faulty? <==> !WellFormed(d)
    ensures v.Faulty? ==> forall f :: f in v.faults <==> HasFault(d, f)
    ensures v.Circular? ==> IsClosedWalk(Edges(d), v.cycle)
  {
    var known, faults := CollectIds(d);
    ghost var top := faults;
    var i := 0;
    while i < |d.subtasks|
      invariant 0 <= i <= |d.subtasks|
      invariant forall f :: f in faults <==>
        f in top || exists s :: s in d.subtasks[..i] && SubtaskFault(s, known, f)
    {
      var found := ValidateSubtask(d.subtasks[i], known);
      assert d.subtasks[..i + 1] == d.subtasks[..i] + [d.subtasks[i]];
      faults := faults + found;
      i := i + 1;
    }
    assert d.subtasks[..i] == d.subtasks;
    ghost var upper := faults;
    var j := 0;
    while j < |d.dag|
      invariant 0 <= j <= |d.dag|
      invariant forall f :: f in faults <==>
        f in upper || exists e :: e in d.dag[..j] && EdgeFault(e, known, f)
    {
      var found := ValidateEdge(d.dag[j], known);
      assert d.dag[..j + 1] == d.dag[..j] + [d.dag[j]];
      faults := faults + found;
      j := j + 1;
    }
    assert d.dag[..j] == d.dag;
    WellFormedIffNoFault(d);
    assert forall f :: f in faults <==> HasFault(d, f);
    if |faults| > 0 {
      assert HasFault(d, faults[0]);
      return Faulty(faults);
    }
    var cycle := FindCycle(d);
    v := if |cycle| > 0 then Circular(cycle) else Accepted;
  }

  // ---------- depth-first cycle search ----------

  type Adjacency = map<Id, seq<Id>>

  // A missing key reads as the empty list.
  function Lookup(adj: Adjacency, v: Id): seq<Id> {
    if v in adj then adj[v] else []
  }

  function AddArc(adj: Adjacency, u: Id, v: Id): Adjacency {
    adj[u := Lookup(adj, u) + [v]]
  }

  ghost predicate Represents(adj: Adjacency, edges: set<Edge>) {
    forall u, v :: (u, v) in edges <==> v in Lookup(adj, u)
  }

  // The targets of u, one per occurrence, in order.
  ghost function Targets(es: seq<Edge>, u: Id): seq<Id> {
    if es == [] then []
    else
      var n := |es| - 1;
      Targets(es[..n], u) + (if es[n].0 == u then [es[n].1] else [])
  }

  ghost predicate TargetsMatch(es: seq<Edge>, dependents: Adjacency) {
    forall u :: Lookup(dependents, u) == Targets(es, u)
  }

  lemma TargetsExtend(es: seq<Edge>, dependents: Adjacency, e: Edge)
    requires TargetsMatch(es, dependents)
    ensures TargetsMatch(es + [e], AddArc(dependents, e.0, e.1))
  {
    forall u ensures Lookup(AddArc(dependents, e.0, e.1), u) == Targets(es + [e], u) {
      assert (es + [e])[..|es|] == es;
      assert Lookup(dependents, u) == Targets(es, u);
    }
  }

  lemma {:induction false} TargetsIff(es: seq<Edge>, u: Id, v: Id)
    ensures v in Targets(es, u) <==> (u, v) in es
  {
    if es != [] {
      var n := |es| - 1;
      TargetsIff(es[..n], u, v);
      assert es == es[..n] + [es[n]];
    }
  }

  // Lists of the targets of all occurrences represent the edges.
  lemma MatchRepresents(adj: Adjacency, es: seq<Edge>)
    requires TargetsMatch(es, adj)
    ensures Represents(adj, EdgeSet(es))
  {
    forall u, v ensures (u, v) in EdgeSet(es) <==> v in Lookup(adj, u) {
      TargetsIff(es, u, v);
      assert Lookup(adj, u) == Targets(es, u);
    }
  }

  ghost function Nodes(adj: Adjacency): set<Id> {
    adj.Keys + (set u, v | u in adj && v in adj[u] :: v)
  }

  /** A finish order lists nodes so that every successor of a listed node is
      listed earlier. Its positions rank the graph. */
  ghost predicate IsFinishOrder(adj: Adjacency, finished: seq<Id>) {
    && Distinct(finished)
    && forall i, w :: 0 <= i < |finished| && w in Lookup(adj, finished[i]) ==> w in finished[..i]
  }

  ghost function FinishRank(finished: seq<Id>): map<Id, nat> {
    map v | v in finished :: Pos(finished, v)
  }

  lemma FinishOrderRanks(adj: Adjacency, edges: set<Edge>, finished: seq<Id>)
    requires Represents(adj, edges) && IsFinishOrder(adj, finished)
    requires forall v :: v in adj ==> v in finished
    ensures IsRank(edges, FinishRank(finished))
  {
    forall e | e in edges
      ensures e.0 in finished && e.1 in finished && Pos(finished, e.1) < Pos(finished, e.0)
    {
      assert e == (e.0, e.1) && e.1 in Lookup(adj, e.0);
      var i := Pos(finished, e.0);
      assert e.1 in finished[..i];
      var k :| 0 <= k < i && finished[k] == e.1;
      PosOfIndex(finished, k);
    }
  }

  class CycleSearch {
    const adjacency: Adjacency
    ghost const edges: set<Edge>
    var visited: set<Id>
    var inStack: set<Id>
    var path: seq<Id>
    ghost var finished: seq<Id>

    ghost predicate Valid()
      reads this
    {
      && Represents(adjacency, edges)
      && visited <= Nodes(adjacency)
      && Distinct(path) && inStack == Elems(path)
      && (path == [] || IsWalk(edges, path))
      && IsFinishOrder(adjacency, finished)
      && visited == inStack + Elems(finished)
      && inStack * Elems(finished) == {}
    }

    constructor (adjacency: Adjacency, ghost edges: set<Edge>)
      requires Represents(adjacency, edges)
      ensures Valid() && path == [] && finished == []
      ensures this.adjacency == adjacency && this.edges == edges
    {
      this.adjacency := adjacency;
      this.edges := edges;
      visited, inStack, path, finished := {}, {}, [], [];
    }

    /** Visits node and everything reachable from it. Without a cycle the path is
        restored and node has finished after all its successors; otherwise the
        result is a closed walk. */
    method WalkCycle(node: Id) returns (cycle: seq<Id>)
      requires Valid() && node in Nodes(adjacency) && node !in visited
      requires path == [] || (path[|path| - 1], node) in edges
      modifies this
      ensures cycle == [] ==> Valid() && path == old(path) && old(visited) + {node} <= visited
      ensures cycle == [] ==> old(finished) < finished && finished[|finished| - 1] == node
      ensures cycle != [] ==> IsClosedWalk(edges, cycle)
      decreases Nodes(adjacency) - visited
    {
      hide *;
      Enter(node);
      ghost var walk := path;
      var arcs := Lookup(adjacency, node);
      var i := 0;
      while i < |arcs|
        invariant 0 <= i <= |arcs|
        invariant Valid() && path == walk
        invariant old(visited) + {node} <= visited && old(finished) <= finished
        invariant forall k :: 0 <= k < i ==> arcs[k] in finished
      {
        var next := arcs[i];
        ArcTarget(node, next);
        if next !in visited {
          cycle := WalkCycle(next);
          if |cycle| > 0 {
            return;
          }
        } else if next in inStack {
          OnPath(node, next);
          var start := FindFirst(path, next);
          CloseWalk(edges, path, start, next);
          cycle := path[start..] + [next];
          return;
        }
        i := i + 1;
      }
      Leave(node);
      cycle := [];
    }

    // An arc back into the stack closes the path.
    lemma OnPath(node: Id, next: Id)
      requires Valid() && path != [] && path[|path| - 1] == node
      requires next in Lookup(adjacency, node) && next in inStack
      ensures next in path && IsWalk(edges, path) && (node, next) in edges
    {
      ArcTarget(node, next);
      assert next in Elems(path);
    }

    method Enter(node: Id)
      requires Valid() && node in Nodes(adjacency) && node !in visited
      requires path == [] || (path[|path| - 1], node) in edges
      modifies this
      ensures Valid() && path == old(path) + [node]
      ensures visited == old(visited) + {node} && inStack == old(inStack) + {node}
      ensures finished == old(finished)
    {
      visited := visited + {node};
      inStack := inStack + {node};
      path := path + [node];
    }

    method Leave(node: Id)
      requires Valid() && path != [] && path[|path| - 1] == node
      requires forall w :: w in Lookup(adjacency, node) ==> w in finished
      modifies this
      ensures Valid() && path == old(path)[..|old(path)| - 1]
      ensures visited == old(visited) && inStack == old(inStack) - {node}
      ensures finished == old(finished) + [node]
    {
      PopKeepsValid(node);
      inStack := inStack - {node};
      path := path[..|path| - 1];
      finished := finished + [node];
    }

    lemma ArcTarget(u: Id, v: Id)
      requires Valid() && v in Lookup(adjacency, u)
      ensures (u, v) in edges && v in Nodes(adjacency)
      ensures v in visited && v !in inStack ==> v in finished
    {
      assert u in adjacency && v in adjacency[u];
      assert v in Elems(finished) ==> v in finished;
    }

    lemma PopKeepsValid(node: Id)
      requires Valid() && path != [] && path[|path| - 1] == node
      requires forall w :: w in Lookup(adjacency, node) ==> w in finished
      ensures IsFinishOrder(adjacency, finished + [node])
      ensures Elems(finished + [node]) == Elems(finished) + {node}
      ensures Elems(path[..|path| - 1]) == inStack - {node}
      ensures Distinct(path[..|path| - 1])
      ensures |path| > 1 ==> IsWalk(edges, path[..|path| - 1])
    {
      var init := path[..|path| - 1];
      assert path == init + [node];
      ElemsSnoc(init, node);
      ElemsSnoc(finished, node);
      assert node !in init;
      assert node !in Elems(init);
      assert node in Elems(path);
      assert node in inStack && node !in inStack * Elems(finished);
      assert node !in Elems(finished);
      FinishOrderSnoc(adjacency, finished, node);
    }
  }

  lemma FinishOrderSnoc(adj: Adjacency, finished: seq<Id>, v: Id)
    requires IsFinishOrder(adj, finished) && v !in finished
    requires forall w :: w in Lookup(adj, v) ==> w in finished
    ensures IsFinishOrder(adj, finished + [v])
  {
    var after := finished + [v];
    forall i, w | 0 <= i < |after| && w in Lookup(adj, after[i]) ensures w in after[..i] {
      assert i < |finished| ==> after[..i] == finished[..i];
      assert i == |finished| ==> after[..i] == finished;
    }
  }

  method FindFirst(path: seq<Id>, x: Id) returns (start: nat)
    requires x in path
    ensures start < |path| && path[start] == x && x !in path[..start]
  {
    start := 0;
    var i := 0;
    while i < |path|
      invariant 0 <= i <= |path|
      invariant start == 0 && x !in path[..i]
    {
      if path[i] == x {
        start := i;
        break;
      }
      i := i + 1;
    }
    assert path[..|path|] == path;
  }

  lemma CloseWalk(edges: set<Edge>, path: seq<Id>, start: nat, next: Id)
    requires IsWalk(edges, path) && start < |path| && path[start] == next
    requires (path[|path| - 1], next) in edges
    ensures IsClosedWalk(edges, path[start..] + [next])
  {
    assert IsWalk(edges, path[start..]);
    WalkAppend(edges, path[start..], next);
  }

  method AddSubtaskArcs(adj0: Adjacency, ghost base: seq<Edge>, s: Subtask) returns (adj: Adjacency)
    requires TargetsMatch(base, adj0)
    ensures TargetsMatch(base + DepEdges(s.id, s.dependencies), adj)
  {
    adj := adj0[s.id := Lookup(adj0, s.id)];
    SameLookups(base, adj0, adj);
    hide *;
    DepEdgesFrom(base, s);
    var j := 0;
    while j < |s.dependencies|
      invariant 0 <= j <= |s.dependencies|
      invariant TargetsMatch(base + DepEdges(s.id, s.dependencies[..j]), adj)
    {
      DepEdgesSnoc(base, s, j);
      TargetsExtend(base + DepEdges(s.id, s.dependencies[..j]), adj, (s.dependencies[j], s.id));
      adj := AddArc(adj, s.dependencies[j], s.id);
      j := j + 1;
    }
    assert s.dependencies[..j] == s.dependencies;
  }

  lemma DepEdgesFrom(base: seq<Edge>, s: Subtask)
    ensures base + DepEdges(s.id, s.dependencies[..0]) == base
  {
  }

  lemma DepEdgesSnoc(base: seq<Edge>, s: Subtask, j: nat)
    requires j < |s.dependencies|
    ensures base + DepEdges(s.id, s.dependencies[..j + 1])
      == base + DepEdges(s.id, s.dependencies[..j]) + [(s.dependencies[j], s.id)]
  {
    assert DepEdges(s.id, s.dependencies[..j + 1])
      == DepEdges(s.id, s.dependencies[..j]) + [(s.dependencies[j], s.id)];
  }

  lemma SameLookups(es: seq<Edge>, adj: Adjacency, after: Adjacency)
    requires TargetsMatch(es, adj) && forall u :: Lookup(after, u) == Lookup(adj, u)
    ensures TargetsMatch(es, after)
  {
    hide Lookup;
  }

  method AddDagArcs(adj0: Adjacency, ghost base: seq<Edge>, dag: seq<Dependency>) returns (adj: Adjacency)
    requires TargetsMatch(base, adj0)
    ensures TargetsMatch(base + DagEdges(dag), adj)
  {
    hide TargetsMatch;
    hide AddArc;
    adj := adj0;
    assert base + DagEdges(dag[..0]) == base;
    var k := 0;
    while k < |dag|
      invariant 0 <= k <= |dag|
      invariant TargetsMatch(base + DagEdges(dag[..k]), adj)
    {
      DagEdgesSnoc(base, dag, k);
      if dag[k].typ != PARALLEL_WITH {
        TargetsExtend(base + DagEdges(dag[..k]), adj, (dag[k].from, dag[k].to));
        adj := AddArc(adj, dag[k].from, dag[k].to);
      }
      k := k + 1;
    }
    assert dag[..k] == dag;
  }

  lemma DagEdgesSnoc(base: seq<Edge>, dag: seq<Dependency>, k: nat)
    requires k < |dag|
    ensures
      var now, next := base + DagEdges(dag[..k]), base + DagEdges(dag[..k + 1]);
      next == if dag[k].typ == PARALLEL_WITH then now else now + [(dag[k].from, dag[k].to)]
  {
    assert dag[..k + 1][..k] == dag[..k];
  }

  /** The adjacency lists hold the targets of every occurrence of an edge, in order. */
  method BuildAdjacency(d: TaskDecomposition) returns (adj: Adjacency)
    ensures TargetsMatch(EdgeList(d), adj) && Represents(adj, Edges(d))
  {
    adj := map[];
    var i := 0;
    NothingAdded(d.subtasks);
    hide *;
    while i < |d.subtasks|
      invariant 0 <= i <= |d.subtasks|
      invariant TargetsMatch(SubtaskEdges(d.subtasks[..i]), adj)
    {
      SubtaskEdgesSnoc(d.subtasks, i);
      adj := AddSubtaskArcs(adj, SubtaskEdges(d.subtasks[..i]), d.subtasks[i]);
      i := i + 1;
    }
    assert d.subtasks[..i] == d.subtasks;
    adj := AddDagArcs(adj, SubtaskEdges(d.subtasks), d.dag);
    EdgeListIs(d);
    MatchRepresents(adj, EdgeList(d));
  }

  lemma NothingAdded(ss: seq<Subtask>)
    ensures TargetsMatch(SubtaskEdges(ss[..0]), map[])
  {
  }

  lemma SubtaskEdgesSnoc(ss: seq<Subtask>, i: nat)
    requires i < |ss|
    ensures SubtaskEdges(ss[..i + 1]) == SubtaskEdges(ss[..i]) + DepEdges(ss[i].id, ss[i].dependencies)
  {
    assert ss[..i + 1][..i] == ss[..i];
  }

  lemma EdgeListIs(d: TaskDecomposition)
    ensures EdgeList(d) == SubtaskEdges(d.subtasks) + DagEdges(d.dag) && Edges(d) == EdgeSet(EdgeList(d))
  {
  }

  /** The search is sound and complete, for every decomposition, whatever order
      the start nodes are taken in: it reports nothing exactly when the edges are
      acyclic, and what it reports is a closed walk. */
  method FindCycle(d: TaskDecomposition) returns (cycle: seq<Id>)
    ensures cycle == [] <==> Acyclic(Edges(d))
    ensures cycle != [] ==> IsClosedWalk(Edges(d), cycle)
    ensures cycle == [] ==> exists rank :: IsRank(Edges(d), rank)
  {
    var adj := BuildAdjacency(d);
    var search := new CycleSearch(adj, Edges(d));
    var keys := adj.Keys;
    while keys != {}
      invariant search.Valid() && search.path == []
      invariant search.adjacency == adj && search.edges == Edges(d)
      invariant keys <= adj.Keys && adj.Keys - keys <= search.visited
      decreases keys
    {
      var id :| id in keys;
      keys := keys - {id};
      if id !in search.visited {
        cycle := search.WalkCycle(id);
        if |cycle| > 0 {
          return;
        }
      }
    }
    cycle := [];
    assert Elems(search.path) == {};
    forall v | v in adj ensures v in search.finished {
      assert v in Elems(search.finished);
    }
    FinishOrderRanks(adj, Edges(d), search.finished);
    RankedIsAcyclic(Edges(d), FinishRank(search.finished));
  }
}

/** What the scheduler does, stated on sets of subtasks without counters or queue,
    and what that guarantees over whole runs. */
module SchedulerSpec {
  import opened Graph
  import opened DagOrder

  datatype State = State(completed: set<Id>, scheduled: set<Id>, ready: set<Id>)

  ghost predicate Unblocked(edges: set<Edge>, done: set<Id>, v: Id) {
    Preds(edges, v) <= done
  }

  ghost function Init(ids: seq<Id>, edges: set<Edge>): State {
    State({}, {}, set v | v in ids && Unblocked(edges, {}, v))
  }

  ghost function AfterSchedule(s: State): State {
    State(s.completed, s.scheduled + s.ready, {})
  }

  // The subtasks that completing v makes ready.
  ghost function Unlocked(ids: seq<Id>, edges: set<Edge>, s: State, v: Id): set<Id> {
    set w | w in ids && w !in s.completed + {v} && w !in s.scheduled && w !in s.ready
      && Unblocked(edges, s.completed + {v}, w)
  }

  ghost predicate Completes(ids: seq<Id>, s: State, v: Id) {
    v in ids && v !in s.completed
  }

  ghost function NewlyReady(ids: seq<Id>, edges: set<Edge>, s: State, v: Id): set<Id> {
    if Completes(ids, s, v) then Unlocked(ids, edges, s, v) else {}
  }

  ghost function AfterComplete(ids: seq<Id>, edges: set<Edge>, s: State, v: Id): State {
    if Completes(ids, s, v)
    then State(s.completed + {v}, s.scheduled, s.ready + Unlocked(ids, edges, s, v))
    else s
  }

  // ---------- any sequence of calls, with any identifiers ----------

  datatype Call = Schedule | MarkComplete(id: Id)

  ghost function StateAfter(ids: seq<Id>, edges: set<Edge>, calls: seq<Call>): State {
    if calls == [] then Init(ids, edges)
    else
      var n := |calls| - 1;
      var s := StateAfter(ids, edges, calls[..n]);
      match calls[n]
      case Schedule => AfterSchedule(s)
      case MarkComplete(v) => AfterComplete(ids, edges, s, v)
  }

  // Everything the Schedule calls returned, in order.
  ghost function Returned(ids: seq<Id>, edges: set<Edge>, calls: seq<Call>): seq<Id> {
    if calls == [] then []
    else
      var n := |calls| - 1;
      Returned(ids, edges, calls[..n]) +
      (if calls[n].Schedule? then InOrder(ids, StateAfter(ids, edges, calls[..n]).ready) else [])
  }

  ghost predicate Inv(ids: seq<Id>, edges: set<Edge>, s: State) {
    && s.completed <= Elems(ids) && s.scheduled + s.ready <= Elems(ids)
    && s.scheduled * s.ready == {}
    && (forall v :: v in s.scheduled + s.ready ==> Unblocked(edges, s.completed, v))
    && (forall v :: v in ids && v !in s.completed && Unblocked(edges, s.completed, v)
          ==> v in s.scheduled + s.ready)
  }

  lemma InvSchedule(ids: seq<Id>, edges: set<Edge>, s: State)
    requires Inv(ids, edges, s)
    ensures Inv(ids, edges, AfterSchedule(s))
  {
  }

  lemma InvComplete(ids: seq<Id>, edges: set<Edge>, s: State, v: Id)
    requires Inv(ids, edges, s)
    ensures Inv(ids, edges, AfterComplete(ids, edges, s, v))
  {
    var t := AfterComplete(ids, edges, s, v);
    assert forall w :: Unblocked(edges, s.completed, w) ==> Unblocked(edges, t.completed, w);
    assert forall w :: w in t.completed ==> w in Elems(ids);
  }

  lemma {:induction false} InvHolds(ids: seq<Id>, edges: set<Edge>, calls: seq<Call>)
    ensures Inv(ids, edges, StateAfter(ids, edges, calls))
  {
    if calls != [] {
      var n := |calls| - 1;
      InvHolds(ids, edges, calls[..n]);
      if calls[n].MarkComplete? {
        InvComplete(ids, edges, StateAfter(ids, edges, calls[..n]), calls[n].id);
      }
    }
  }

  lemma DistinctConcat(a: seq<Id>, b: seq<Id>)
    requires Distinct(a) && Distinct(b) && Elems(a) * Elems(b) == {}
    ensures Distinct(a + b) && Elems(a + b) == Elems(a) + Elems(b)
  {
    forall i, j | 0 <= i < j < |a + b| ensures (a + b)[i] != (a + b)[j] {
      if i < |a| <= j {
        assert a[i] in Elems(a) && a[i] !in Elems(a) * Elems(b);
      }
    }
  }

  /** Over every sequence of calls: no subtask is returned twice, what was returned
      is exactly what is marked scheduled, each returned subtask had all its
      predecessors complete, and every unfinished subtask whose predecessors are
      complete has been returned or is queued. */
  lemma {:induction false} RunsAreSafe(ids: seq<Id>, edges: set<Edge>, calls: seq<Call>)
    requires Distinct(ids)
    ensures Distinct(Returned(ids, edges, calls))
    ensures Elems(Returned(ids, edges, calls)) == StateAfter(ids, edges, calls).scheduled
    ensures Inv(ids, edges, StateAfter(ids, edges, calls))
  {
    InvHolds(ids, edges, calls);
    if calls != [] {
      var n := |calls| - 1;
      RunsAreSafe(ids, edges, calls[..n]);
      var s := StateAfter(ids, edges, calls[..n]);
      InOrderElems(ids, s.ready);
      InOrderSorted(ids, s.ready);
      assert Elems(ids) * s.ready == s.ready;
      if calls[n].Schedule? {
        SortedIsDistinct(ids, InOrder(ids, s.ready));
        DistinctConcat(Returned(ids, edges, calls[..n]), InOrder(ids, s.ready));
      } else {
        assert Returned(ids, edges, calls) == Returned(ids, edges, calls[..n]);
      }
    }
  }

  /** While work is unfinished, some unfinished subtask is queued or has been
      returned and is awaited: the scheduler never gets stuck. */
  lemma Progress(ids: seq<Id>, edges: set<Edge>, calls: seq<Call>) returns (v: Id)
    requires Acyclic(edges) && EdgesWithin(ids, edges)
    requires StateAfter(ids, edges, calls).completed != Elems(ids)
    ensures var s := StateAfter(ids, edges, calls);
      v in ids && v !in s.completed && v in s.scheduled + s.ready
  {
    InvHolds(ids, edges, calls);
    var s := StateAfter(ids, edges, calls);
    var left := Elems(ids) - s.completed;
    assert Elems(ids) == s.completed + left;
    v := SourceExists(edges, left);
    PredsWithin(ids, edges, v);
    var p := Preds(edges, v);
    assert p == p * left + p * s.completed;
    assert Unblocked(edges, s.completed, v);
  }

  // ---------- clients that complete only what they were given ----------

  ghost predicate Honest(ids: seq<Id>, edges: set<Edge>, calls: seq<Call>) {
    forall n :: 0 <= n < |calls| && calls[n].MarkComplete? ==>
      calls[n].id in StateAfter(ids, edges, calls[..n]).scheduled
  }

  // An honest client may schedule at any time, and complete exactly what was scheduled.
  lemma HonestCalls(ids: seq<Id>, edges: set<Edge>, calls: seq<Call>, v: Id)
    ensures Honest(ids, edges, [])
    ensures Honest(ids, edges, calls + [Schedule]) <==> Honest(ids, edges, calls)
    ensures Honest(ids, edges, calls + [MarkComplete(v)]) <==>
      Honest(ids, edges, calls) && v in StateAfter(ids, edges, calls).scheduled
  {
    HonestLast(ids, edges, calls, Schedule);
    HonestLast(ids, edges, calls, MarkComplete(v));
  }

  lemma HonestLast(ids: seq<Id>, edges: set<Edge>, calls: seq<Call>, c: Call)
    ensures Honest(ids, edges, calls + [c]) <==>
      Honest(ids, edges, calls) && (c.MarkComplete? ==> c.id in StateAfter(ids, edges, calls).scheduled)
  {
    var more, n := calls + [c], |calls|;
    assert more[..n] == calls && more[n] == c;
    forall k | 0 <= k < n ensures more[..k] == calls[..k] && more[k] == calls[k] {
    }
  }

  lemma HonestPrefix(ids: seq<Id>, edges: set<Edge>, calls: seq<Call>)
    requires calls != [] && Honest(ids, edges, calls)
    ensures Honest(ids, edges, calls[..|calls| - 1])
  {
    var init := calls[..|calls| - 1];
    forall n | 0 <= n < |init| && init[n].MarkComplete?
      ensures init[n].id in StateAfter(ids, edges, init[..n]).scheduled
    {
      assert init[..n] == calls[..n] && init[n] == calls[n];
    }
  }

  // Every returned subtask comes after all its predecessors.
  ghost predicate PredsFirst(edges: set<Edge>, r: seq<Id>) {
    forall i :: 0 <= i < |r| ==> Preds(edges, r[i]) <= Elems(r[..i])
  }

  lemma PredsFirstConcat(edges: set<Edge>, r: seq<Id>, batch: seq<Id>)
    requires PredsFirst(edges, r)
    requires forall v :: v in batch ==> Preds(edges, v) <= Elems(r)
    ensures PredsFirst(edges, r + batch)
  {
    var q := r + batch;
    forall i | 0 <= i < |q| ensures Preds(edges, q[i]) <= Elems(q[..i]) {
      if i < |r| {
        assert q[..i] == r[..i];
      } else {
        assert q[i] in batch;
        assert q[..i] == r + batch[..i - |r|];
        assert Elems(r) <= Elems(q[..i]);
      }
    }
  }

  lemma {:induction false} HonestRun(ids: seq<Id>, edges: set<Edge>, calls: seq<Call>)
    requires Distinct(ids) && Honest(ids, edges, calls)
    ensures StateAfter(ids, edges, calls).completed <= StateAfter(ids, edges, calls).scheduled
    ensures PredsFirst(edges, Returned(ids, edges, calls))
  {
    if calls != [] {
      var n := |calls| - 1;
      HonestPrefix(ids, edges, calls);
      HonestRun(ids, edges, calls[..n]);
      RunsAreSafe(ids, edges, calls[..n]);
      var s, r := StateAfter(ids, edges, calls[..n]), Returned(ids, edges, calls[..n]);
      if calls[n].Schedule? {
        var batch := InOrder(ids, s.ready);
        forall v | v in batch ensures Preds(edges, v) <= Elems(r) {
          InOrderMember(ids, s.ready, v);
          assert Unblocked(edges, s.completed, v);
        }
        PredsFirstConcat(edges, r, batch);
      } else {
        assert Returned(ids, edges, calls) == r;
      }
    }
  }

  /** A run that completes everything, completing only what was returned, returns
      each subtask exactly once and in a topological order. */
  lemma FullRunIsTopological(ids: seq<Id>, edges: set<Edge>, calls: seq<Call>)
    requires Distinct(ids) && Honest(ids, edges, calls)
    requires StateAfter(ids, edges, calls).completed == Elems(ids)
    ensures IsTopological(ids, edges, Returned(ids, edges, calls))
  {
    HonestRun(ids, edges, calls);
    RunsAreSafe(ids, edges, calls);
  }

  /** A queued subtask is one not yet complete, unless a client completes it while it
      is queued: exactly then Schedule goes on to return it although complete. */
  lemma CompletedWhileQueued(ids: seq<Id>, edges: set<Edge>, s: State, v: Id)
    requires Inv(ids, edges, s) && s.ready * s.completed == {}
    ensures var t := AfterComplete(ids, edges, s, v);
      t.ready * t.completed == {} <==> v !in s.ready
  {
    var t := AfterComplete(ids, edges, s, v);
    if v in s.ready {
      assert v in ids && v !in s.completed by { assert v in Elems(ids); assert v !in s.ready * s.completed; }
      assert v in t.ready * t.completed;
    }
  }

  // Some call completes a subtask while it is queued.
  ghost predicate CompletesQueued(ids: seq<Id>, edges: set<Edge>, calls: seq<Call>) {
    exists n :: 0 <= n < |calls| && calls[n].MarkComplete?
      && calls[n].id in StateAfter(ids, edges, calls[..n]).ready
  }

  // No state on the way has a completed subtask queued.
  ghost predicate NeverStale(ids: seq<Id>, edges: set<Edge>, calls: seq<Call>) {
    forall n :: 0 <= n <= |calls| ==>
      var s := StateAfter(ids, edges, calls[..n]); s.ready * s.completed == {}
  }

  lemma NeverStaleLast(ids: seq<Id>, edges: set<Edge>, calls: seq<Call>)
    requires calls != []
    ensures var s := StateAfter(ids, edges, calls);
      NeverStale(ids, edges, calls) <==> NeverStale(ids, edges, calls[..|calls| - 1]) && s.ready * s.completed == {}
  {
    hide StateAfter;
    var init := calls[..|calls| - 1];
    assert forall n :: 0 <= n <= |init| ==> init[..n] == calls[..n];
    assert calls[..|calls|] == calls;
  }

  lemma CompletesQueuedLast(ids: seq<Id>, edges: set<Edge>, calls: seq<Call>)
    requires calls != []
    ensures var n := |calls| - 1;
      CompletesQueued(ids, edges, calls) <==>
        || CompletesQueued(ids, edges, calls[..n])
        || (calls[n].MarkComplete? && calls[n].id in StateAfter(ids, edges, calls[..n]).ready)
  {
    hide StateAfter;
    var init := calls[..|calls| - 1];
    assert forall n :: 0 <= n < |init| ==> init[..n] == calls[..n] && init[n] == calls[n];
  }

  /** Over every sequence of calls: a completed subtask is queued at some point if and
      only if some call completes a subtask while it is queued. Schedule then returns
      the completed subtask. */
  lemma {:induction false} StaleIffCompletedWhileQueued(ids: seq<Id>, edges: set<Edge>, calls: seq<Call>)
    ensures NeverStale(ids, edges, calls) <==> !CompletesQueued(ids, edges, calls)
  {
    if calls == [] {
      assert forall n :: 0 <= n <= |calls| ==> calls[..n] == calls;
    } else {
      var n := |calls| - 1;
      var s := StateAfter(ids, edges, calls[..n]);
      StaleIffCompletedWhileQueued(ids, edges, calls[..n]);
      NeverStaleLast(ids, edges, calls);
      CompletesQueuedLast(ids, edges, calls);
      InvHolds(ids, edges, calls[..n]);
      if NeverStale(ids, edges, calls[..n]) {
        assert calls[..n][..n] == calls[..n];
        assert s.ready * s.completed == {};
        if calls[n].MarkComplete? {
          CompletedWhileQueued(ids, edges, s, calls[n].id);
        }
      }
    }
  }

  /** A client that completes only what it was given is never given a completed one. */
  lemma HonestBatchIsUnfinished(ids: seq<Id>, edges: set<Edge>, calls: seq<Call>)
    requires Distinct(ids) && Honest(ids, edges, calls)
    ensures StateAfter(ids, edges, calls).ready * StateAfter(ids, edges, calls).completed == {}
  {
    HonestRun(ids, edges, calls);
    InvHolds(ids, edges, calls);
  }

  // ---------- clients that complete each batch before asking for the next ----------

  ghost function CompleteAll(ids: seq<Id>, edges: set<Edge>, s: State, order: seq<Id>): State {
    if order == [] then s
    else
      var n := |order| - 1;
      AfterComplete(ids, edges, CompleteAll(ids, edges, s, order[..n]), order[n])
  }

  // The state after one round per element of orders: schedule, then complete the
  // batch in the given order.
  ghost function AfterRounds(ids: seq<Id>, edges: set<Edge>, orders: seq<seq<Id>>): State {
    if orders == [] then Init(ids, edges)
    else
      var n := |orders| - 1;
      CompleteAll(ids, edges, AfterSchedule(AfterRounds(ids, edges, orders[..n])), orders[n])
  }

  // Each round completes exactly its own batch, in any order.
  ghost predicate CompletesBatches(ids: seq<Id>, edges: set<Edge>, orders: seq<seq<Id>>) {
    forall n :: 0 <= n < |orders| ==>
      Distinct(orders[n]) && Elems(orders[n]) == AfterRounds(ids, edges, orders[..n]).ready
  }

  // Any order of the batch that is ready goes on with rounds that complete each batch.
  lemma OneMoreBatch(ids: seq<Id>, edges: set<Edge>, orders: seq<seq<Id>>, order: seq<Id>)
    ensures CompletesBatches(ids, edges, [])
    ensures CompletesBatches(ids, edges, orders + [order]) <==>
      && CompletesBatches(ids, edges, orders)
      && Distinct(order) && Elems(order) == AfterRounds(ids, edges, orders).ready
  {
    var more, n := orders + [order], |orders|;
    assert more[..n] == orders && more[n] == order;
    forall k | 0 <= k < n ensures more[..k] == orders[..k] && more[k] == orders[k] {
    }
    hide Distinct;
  }

  // Inside a round whose batch is level, the order of completion does not matter.
  lemma {:induction false} CompleteAllState(ids: seq<Id>, edges: set<Edge>, done: set<Id>, level: set<Id>,
                                            order: seq<Id>)
    requires done + level <= Elems(ids) && done * level == {}
    requires Distinct(order) && Elems(order) <= level
    requires forall w :: w in ids && w !in done && Unblocked(edges, done, w) ==> w in level
    ensures CompleteAll(ids, edges, State(done, done + level, {}), order)
      == State(done + Elems(order), done + level,
               set w | w in ids && w !in done + level && Unblocked(edges, done + Elems(order), w))
  {
    if order != [] {
      var n := |order| - 1;
      CompleteAllState(ids, edges, done, level, order[..n]);
      assert order == order[..n] + [order[n]];
      ElemsSnoc(order[..n], order[n]);
      assert order[n] in Elems(order);
      assert order[n] !in order[..n];
      var s := CompleteAll(ids, edges, State(done, done + level, {}), order[..n]);
      assert order[n] in Elems(ids) && order[n] !in s.completed;
      assert s.completed + {order[n]} == done + Elems(order);
      assert forall w :: Unblocked(edges, s.completed, w) ==> Unblocked(edges, done + Elems(order), w);
    } else {
      assert forall w :: Unblocked(edges, done + Elems(order), w) ==> Unblocked(edges, done, w);
    }
  }

  /** Batch k is exactly the subtasks whose longest dependency chain has length k,
      in declaration order, however earlier batches were completed. */
  lemma {:induction false} BatchesAreLevels(ids: seq<Id>, edges: set<Edge>, orders: seq<seq<Id>>)
    requires Distinct(ids) && EdgesWithin(ids, edges)
    requires CompletesBatches(ids, edges, orders)
    ensures var k := |orders|;
      AfterRounds(ids, edges, orders) == State(Below(ids, edges, k), Below(ids, edges, k), Level(ids, edges, k))
  {
    if orders == [] {
      NothingBelowZero(ids, edges);
      LevelIsUnlocked(ids, edges, 0);
    } else {
      var n := |orders| - 1;
      forall m | 0 <= m < n ensures orders[..n][..m] == orders[..m] {
      }
      BatchesAreLevels(ids, edges, orders[..n]);
      LevelIsUnlocked(ids, edges, n);
      LevelIsUnlocked(ids, edges, n + 1);
      CompleteAllState(ids, edges, Below(ids, edges, n), Level(ids, edges, n), orders[n]);
    }
  }
}

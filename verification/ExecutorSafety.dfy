/** What holds over every run of the executor, in every interleaving. */
module ExecutorSafety {
  import opened Graph
  import opened Decomposition
  import opened ExecutorCounters
  import opened Executor
  import opened ExecutorInvariant
  import Spec = SchedulerSpec

  // The state after i steps of a run.
  ghost predicate Reached(c: Config, states: seq<State>, steps: seq<Step>, i: nat) {
    c.Ok() && IsRun(c, states, steps) && i <= |steps|
  }

  lemma InvAt(c: Config, states: seq<State>, steps: seq<Step>, i: nat)
    requires Reached(c, states, steps, i)
    ensures Inv(c, states[i]) && states[i].taken <= |states[i].log|
    ensures states[i].phase.Keys == Elems(c.ids)
  {
    InvRun(c, states, steps, i);
  }

  lemma StepAt(c: Config, states: seq<State>, steps: seq<Step>, i: nat)
    requires Reached(c, states, steps, i + 1)
    ensures Reached(c, states, steps, i) && Reached(c, states, steps, 0)
    ensures c.Ok() && |states| == |steps| + 1 && i < |steps| && Next(c, states[i], steps[i], states[i + 1])
  {
    hide Next;
    hide Config.Ok;
    hide IsInit;
  }

  // ---------- safety ----------

  lemma StartedHasPredecessors(c: Config, s: State, u: Id, v: Id)
    requires s.taken <= |s.log| && Shape(c, s) && Launches(c, s)
    requires v in s.phase && !s.phase[v].Idle? && (u, v) in c.Edges()
    ensures (u, true) in Received(s)
  {
    assert v in s.started;
    PredsIff(c.Edges(), u, v);
    assert u in Successes(Received(s));
  }

  /** A subtask leaves Idle only when the successful result of each of its
      predecessors has been received. */
  lemma StartsAfterPredecessors(c: Config, states: seq<State>, steps: seq<Step>, i: nat, u: Id, v: Id)
    requires Reached(c, states, steps, i) && (u, v) in c.Edges()
    requires v in states[i].phase && !states[i].phase[v].Idle?
    ensures states[i].taken <= |states[i].log| && (u, true) in Received(states[i])
  {
    InvAt(c, states, steps, i);
    StartedHasPredecessors(c, states[i], u, v);
  }

  lemma WorkersHoldTokens(c: Config, s: State)
    requires Shape(c, s) && Slots(c, s)
    ensures |s.workers| <= |Holders(s.phase)| <= c.maxWorkers
  {
    SubsetLength(s.workers, Holders(s.phase));
  }

  /** At most maxWorkers goroutines hold a token, and the registered workers are
      among them. */
  lemma BoundedWorkers(c: Config, states: seq<State>, steps: seq<Step>, i: nat)
    requires Reached(c, states, steps, i)
    ensures |states[i].workers| <= |Holders(states[i].phase)| <= c.maxWorkers
    ensures
      var phase := states[i].phase;
      Holders(phase) == set v | v in phase
        && (phase[v] == Acquired || phase[v] == Running || phase[v].HasResult? || phase[v].Sent?)
  {
    HoldersAre(states[i].phase);
    InvAt(c, states, steps, i);
    WorkersHoldTokens(c, states[i]);
    hide Holders;
    hide Inv;
  }

  lemma HoldersAre(phase: map<Id, Phase>)
    ensures Holders(phase) == set v | v in phase
        && (phase[v] == Acquired || phase[v] == Running || phase[v].HasResult? || phase[v].Sent?)
  {
  }

  lemma RoomToSend(c: Config, s: State, v: Id)
    requires c.Ok() && Shape(c, s) && Mail(s) && v in s.phase && s.phase[v].HasResult?
    ensures |s.log| < |c.ids|
  {
    Unsent(s, v);
    NamesWithin(s);
    KeysLength(c, s);
    SubsetLength(Names(s.log) + {v}, s.phase.Keys);
  }

  /** A goroutine with a result always finds room in the channel. */
  lemma SendNeverBlocks(c: Config, states: seq<State>, steps: seq<Step>, i: nat, v: Id)
    requires Reached(c, states, steps, i) && v in states[i].phase && states[i].phase[v].HasResult?
    ensures CanGo(c, states[i], v, Sent(states[i].phase[v].ok))
  {
    InvAt(c, states, steps, i);
    RoomToSend(c, states[i], v);
  }

  lemma {:induction false} UnfinishedBlocks(c: Config, s: State, p: seq<Id>)
    requires s.taken <= |s.log| && Shape(c, s) && Launches(c, s) && Mail(s)
    requires IsWalk(c.Edges(), p) && |p| >= 2 && (p[0], true) !in Received(s)
    ensures p[|p| - 1] in s.phase ==> s.phase[p[|p| - 1]].Idle?
    decreases |p|
  {
    var n := |p| - 1;
    assert (p[n - 1], p[n]) in c.Edges();
    if n > 1 {
      UnfinishedBlocks(c, s, p[..n]);
      assert p[..n][0] == p[0] && p[..n][n - 1] == p[n - 1];
    }
    if p[n] in s.phase && !s.phase[p[n]].Idle? {
      StartedHasPredecessors(c, s, p[n - 1], p[n]);
    }
  }

  /** No transitive successor of a subtask whose success has not been received,
      in particular of one that failed, has ever been launched. */
  lemma FailureBlocksSuccessors(c: Config, states: seq<State>, steps: seq<Step>, i: nat, p: seq<Id>)
    requires Reached(c, states, steps, i)
    requires IsWalk(c.Edges(), p) && |p| >= 2
    requires states[i].taken <= |states[i].log| && (p[0], true) !in Received(states[i])
    ensures p[|p| - 1] in states[i].phase ==> states[i].phase[p[|p| - 1]].Idle?
  {
    InvAt(c, states, steps, i);
    UnfinishedBlocks(c, states[i], p);
  }

  // ---------- each goroutine only advances ----------

  function Weight(p: Phase): nat {
    match p
    case Idle => 7
    case Launched => 6
    case Acquired => 5
    case Running => 4
    case HasResult(_) => 3
    case Sent(_) => 2
    case Released(_) => 1
    case Abandoned => 1
    case Exited(_) => 0
  }

  lemma StepKeepsLog(c: Config, s: State, step: Step, t: State)
    requires Next(c, s, step, t)
    ensures s.log <= t.log
  {
  }

  lemma {:induction false} LogGrows(c: Config, states: seq<State>, steps: seq<Step>, i: nat, j: nat)
    requires Reached(c, states, steps, j) && i <= j && |states| == |steps| + 1 && j <= |steps|
    ensures states[i].log <= states[j].log
    decreases j - i
  {
    hide *;
    if i < j {
      StepAt(c, states, steps, j - 1);
      LogGrows(c, states, steps, i, j - 1);
      StepKeepsLog(c, states[j - 1], steps[j - 1], states[j]);
    }
  }

  /** Once a subtask has sent a failed result, none of its transitive successors is
      launched, then or at any later point. */
  lemma FailedSuccessorsStayIdle(c: Config, states: seq<State>, steps: seq<Step>, i: nat, j: nat, p: seq<Id>)
    requires Reached(c, states, steps, j) && i <= j && |states| == |steps| + 1 && j <= |steps|
    requires IsWalk(c.Edges(), p) && |p| >= 2 && (p[0], false) in states[i].log
    ensures p[|p| - 1] in states[j].phase ==> states[j].phase[p[|p| - 1]].Idle?
  {
    LogGrows(c, states, steps, i, j);
    InvAt(c, states, steps, j);
    LogParts(c, states[j]);
    FailedNotReceived(states[j], p[0]);
    hide *;
    FailureBlocksSuccessors(c, states, steps, j, p);
  }

  lemma LogParts(c: Config, s: State)
    requires Inv(c, s)
    ensures s.taken <= |s.log| && DistinctNames(s.log)
  {
  }

  // A subtask that sent a failed result never sends a success.
  lemma FailedNotReceived(s: State, u: Id)
    requires s.taken <= |s.log| && DistinctNames(s.log) && (u, false) in s.log
    ensures (u, true) !in Received(s)
  {
    var i :| 0 <= i < |s.log| && s.log[i] == (u, false);
    forall j | 0 <= j < s.taken ensures s.log[j] != (u, true) {
      assert s.log[j] == (u, true) ==> j != i;
    }
  }

  lemma GoLightens(c: Config, s: State, v: Id, p: Phase)
    requires v in s.phase && CanGo(c, s, v, p)
    ensures Weight(p) < Weight(s.phase[v])
  {
  }

  // A step leaves the phases alone or takes one of them forward.
  ghost predicate Advances(before: map<Id, Phase>, after: map<Id, Phase>) {
    || after == before
    || exists v, p :: v in before && Weight(p) < Weight(before[v]) && after == before[v := p]
  }

  lemma AdvanceBy(before: map<Id, Phase>, v: Id, p: Phase)
    requires v in before && Weight(p) < Weight(before[v])
    ensures Advances(before, before[v := p])
  {
  }

  lemma StepAdvances(c: Config, s: State, step: Step, t: State)
    requires Inv(c, s) && Next(c, s, step, t)
    ensures Advances(s.phase, t.phase)
  {
    InvParts(c, s);
    hide Inv;
    match step
    case Launch =>
      LaunchAdvances(c, s);
    case Go(v, p) =>
      GoLightens(c, s, v, p);
      hide CanGo;
      AdvanceBy(s.phase, v, p);
    case _ =>
      assert t.phase == s.phase;
  }

  lemma LaunchAdvances(c: Config, s: State)
    requires Shape(c, s) && Mail(s) && s.taken <= |s.log| && Launches(c, s) && s.toLaunch != []
    ensures Advances(s.phase, AfterLaunch(s).phase)
  {
    LaunchIsFirst(c, s);
    hide Launches;
    hide Shape;
    hide Mail;
    AdvanceBy(s.phase, s.toLaunch[0], Launched);
  }

  lemma {:induction false} StaysStarted(c: Config, states: seq<State>, steps: seq<Step>, i: nat, j: nat, v: Id)
    requires Reached(c, states, steps, j) && i <= j && |states| == |steps| + 1 && j <= |steps|
    requires v in states[i].phase
    ensures v in states[j].phase && Weight(states[j].phase[v]) <= Weight(states[i].phase[v])
    decreases j - i
  {
    hide *;
    if i < j {
      StepAt(c, states, steps, j - 1);
      StaysStarted(c, states, steps, i, j - 1, v);
      InvAt(c, states, steps, j - 1);
      StepAdvances(c, states[j - 1], steps[j - 1], states[j]);
      AdvancesAt(states[j - 1].phase, states[j].phase, v);
    }
  }

  lemma AdvancesAt(before: map<Id, Phase>, after: map<Id, Phase>, v: Id)
    requires Advances(before, after) && v in before
    ensures v in after && Weight(after[v]) <= Weight(before[v])
  {
  }

  /** Each subtask is launched at most once. */
  lemma LaunchedOnce(c: Config, states: seq<State>, steps: seq<Step>, i: nat, j: nat, v: Id)
    requires Reached(c, states, steps, |steps|) && i < |steps| && j < |steps|
    requires i + 1 < |states| && v in states[i].phase && v in states[i + 1].phase
    requires states[i].phase[v] == Idle && states[i + 1].phase[v] != Idle
    requires j + 1 < |states| && v in states[j].phase && v in states[j + 1].phase
    requires states[j].phase[v] == Idle && states[j + 1].phase[v] != Idle
    ensures i == j
  {
    if i < j {
      StaysStarted(c, states, steps, i + 1, j, v);
    } else if j < i {
      StaysStarted(c, states, steps, j + 1, i, v);
    }
  }

  // ---------- progress ----------

  // So far everything is as when the worker is to succeed, or to fail.
  ghost predicate As(p: Phase, good: bool) {
    match p
    case HasResult(ok) => ok == good
    case Sent(ok) => ok == good
    case Released(ok) => ok == good
    case Exited(ok) => ok == good
    case Abandoned => false
    case _ => true
  }

  // Every subtask that was as good says still is.
  ghost predicate StaysAs(before: map<Id, Phase>, after: map<Id, Phase>, good: Id -> bool) {
    forall v :: v in before ==> v in after && (As(before[v], good(v)) ==> As(after[v], good(v)))
  }

  lemma HolderMoves(c: Config, s: State, v: Id, good: bool) returns (p: Phase)
    requires c.Ok() && Shape(c, s) && Mail(s) && v in s.phase && Holding(s.phase[v])
    ensures CanGo(c, s, v, p) && (As(s.phase[v], good) ==> As(p, good))
  {
    match s.phase[v]
    case Acquired => p := Running;
    case Running => p := HasResult(good);
    case HasResult(ok) =>
      RoomToSend(c, s, v);
      p := Sent(ok);
    case Sent(ok) => p := Released(ok);
  }

  // An unfinished goroutine can move, or one holding a token can.
  lemma SomeoneMoves(c: Config, s: State, v: Id, good: Id -> bool) returns (w: Id, p: Phase)
    requires c.Ok() && Shape(c, s) && Slots(c, s) && Mail(s)
    requires v in s.phase && !s.phase[v].Idle? && !s.phase[v].Exited?
    ensures w in s.phase && CanGo(c, s, w, p) && (As(s.phase[w], good(w)) ==> As(p, good(w)))
  {
    w := v;
    if Holding(s.phase[v]) {
      p := HolderMoves(c, s, v, good(v));
    } else if s.phase[v].Released? {
      p := Exited(s.phase[v].ok);
    } else if s.phase[v].Abandoned? {
      p := Exited(false);
    } else if s.tokens < c.maxWorkers {
      p := Acquired;
    } else {
      assert Holders(s.phase) != {};
      w :| w in Holders(s.phase);
      p := HolderMoves(c, s, w, good(w));
    }
  }

  /** While results are outstanding and nothing has been cancelled, some subtask
      about to be launched or already launched has not reported. */
  lemma WorkOutstanding(c: Config, s: State) returns (v: Id)
    requires c.Ok() && Shape(c, s) && Mail(s) && Launches(c, s) && Coordination(c, s)
    requires s.coord.Looping? && s.taken < |c.ids|
    ensures v in c.ids && v !in Names(Received(s)) && (v in s.toLaunch || v in s.started)
  {
    var done := Successes(Received(s));
    ReceivedAreSuccesses(c, s);
    var left := Elems(c.ids) - done;
    assert Elems(c.ids) == done + left;
    v := SourceExists(c.Edges(), left);
    PredsWithin(c.ids, c.Edges(), v);
    var p := Preds(c.Edges(), v);
    assert p == p * left + p * done;
    assert p <= done;
  }

  lemma ReceivedAreSuccesses(c: Config, s: State)
    requires c.Ok() && Shape(c, s) && Mail(s) && Coordination(c, s) && s.coord.Looping? && s.taken < |c.ids|
    ensures Successes(Received(s)) == Names(Received(s)) <= Elems(c.ids)
    ensures Successes(Received(s)) != Elems(c.ids)
  {
    var r := Received(s);
    assert forall p :: p in r ==> p in s.log;
    forall x | x in Names(r) ensures x in Successes(r) {
      var p :| p in r && p.0 == x;
      assert p.1;
    }
    assert Successes(r) == Names(r);
    NamesCount(r);
    DistinctLength(c.ids);
  }

  // Without a cancellation, a launched subtask whose result was not sent is unfinished.
  lemma Unfinished(s: State, v: Id)
    requires Mail(s) && Cancellation(s) && !s.cancelled
    requires v in s.phase && !s.phase[v].Idle? && v !in Names(s.log)
    ensures !s.phase[v].Exited?
  {
    assert s.phase[v] != Exited(false);
    assert s.phase[v] == Exited(true) ==> (v, true).0 in Names(s.log);
  }

  lemma LoopingMoves(c: Config, s: State, good: Id -> bool) returns (step: Step, t: State)
    requires c.Ok() && Inv(c, s) && s.coord.Looping? && s.toLaunch == []
    ensures Next(c, s, step, t) && !step.CancelParent? && StaysAs(s.phase, t.phase, good)
  {
    InvParts(c, s);
    InvSlots(c, s);
    InvNodes(c, s);
    hide *;
    if s.taken == |c.ids| || s.cancelled || s.taken < |s.log| {
      step, t := CoordinatorMoves(c, s);
      SameIsAs(s.phase, good);
    } else {
      step, t := OutstandingMoves(c, s, good);
    }
  }

  lemma CoordinatorMoves(c: Config, s: State) returns (step: Step, t: State)
    requires s.coord.Looping? && s.toLaunch == [] && s.taken <= |c.ids| && s.taken <= |s.log|
    requires s.taken == |c.ids| || s.cancelled || s.taken < |s.log|
    ensures Next(c, s, step, t) && !step.CancelParent? && t.phase == s.phase
  {
    if s.taken == |c.ids| {
      step, t := FinishLoop, s.(coord := WaitingDone);
    } else if s.cancelled {
      step, t := ObserveCancel, s.(coord := WaitingCancelled);
    } else {
      step := Receive;
      t := ReceiveWitness(c, s);
    }
  }

  // With every sent result received and none left to send but some outstanding.
  lemma OutstandingMoves(c: Config, s: State, good: Id -> bool) returns (step: Step, t: State)
    requires c.Ok() && s.taken <= |s.log| && Shape(c, s) && Slots(c, s) && Mail(s) && Launches(c, s)
    requires Coordination(c, s) && Cancellation(s)
    requires s.coord.Looping? && s.toLaunch == [] && s.taken < |c.ids| && !s.cancelled && s.taken == |s.log|
    ensures Next(c, s, step, t) && !step.CancelParent? && StaysAs(s.phase, t.phase, good)
  {
    var v := WorkOutstanding(c, s);
    assert Received(s) == s.log;
    LaunchedOutstanding(c, s, v);
    Unfinished(s, v);
    hide Launches;
    hide Coordination;
    hide Cancellation;
    var w, p := SomeoneMoves(c, s, v, good);
    GoIsNext(c, s, w, p);
    GoStaysAs(s, w, p, good);
    step, t := Go(w, p), AfterGo(s, w, p);
    hide *;
  }

  lemma SameIsAs(phase: map<Id, Phase>, good: Id -> bool)
    ensures StaysAs(phase, phase, good)
  {
  }

  lemma GoStaysAs(s: State, w: Id, p: Phase, good: Id -> bool)
    requires w in s.phase && (As(s.phase[w], good(w)) ==> As(p, good(w)))
    ensures StaysAs(s.phase, AfterGo(s, w, p).phase, good)
  {
  }

  lemma LaunchStaysAs(s: State, good: Id -> bool)
    requires s.toLaunch != []
    ensures StaysAs(s.phase, AfterLaunch(s).phase, good)
  {
  }

  lemma GoIsNext(c: Config, s: State, v: Id, p: Phase)
    requires v in s.phase && CanGo(c, s, v, p)
    ensures Next(c, s, Go(v, p), AfterGo(s, v, p))
  {
    hide CanGo;
  }

  lemma InvSlots(c: Config, s: State)
    requires Inv(c, s)
    ensures Slots(c, s)
  {
  }

  lemma LaunchedOutstanding(c: Config, s: State, v: Id)
    requires Shape(c, s) && v in s.started
    ensures v in s.phase && !s.phase[v].Idle?
  {
  }

  // The loop over the dependents of a received success always has an outcome.
  lemma ReceiveWitness(c: Config, s: State) returns (t: State)
    requires s.coord.Looping? && s.toLaunch == [] && s.taken < |c.ids| && s.taken < |s.log|
    ensures ReceiveStep(c, s, t)
  {
    var p := s.log[s.taken];
    if !p.1 {
      t := s.(taken := s.taken + 1, coord := WaitingFailed);
    } else {
      var targets := Targets(c.occurrences, p.0);
      var after, launched := CountDownExists(targets, s.remaining);
      t := s.(taken := s.taken + 1, remaining := after, toLaunch := launched);
    }
  }

  lemma CountDownExists(targets: seq<Id>, before: map<Id, int>) returns (after: map<Id, int>, launched: seq<Id>)
    ensures CountedDown(targets, before, after, launched)
  {
    after := map w | w in before :: before[w] - multiset(targets)[w];
    var zero := set w | w in before && 1 <= before[w] <= multiset(targets)[w];
    launched := AsSequence(zero);
  }

  lemma {:induction false} AsSequence(u: set<Id>) returns (q: seq<Id>)
    ensures Distinct(q) && forall w :: w in q <==> w in u
  {
    if u == {} {
      q := [];
    } else {
      var x :| x in u;
      var r := AsSequence(u - {x});
      q := r + [x];
    }
  }

  // The same with the outcome of every worker given.
  lemma NeverStuckAs(c: Config, s: State, good: Id -> bool) returns (step: Step, t: State)
    requires c.Ok() && Inv(c, s) && !s.coord.Returned?
    ensures Next(c, s, step, t) && !step.CancelParent? && StaysAs(s.phase, t.phase, good)
  {
    InvParts(c, s);
    if s.toLaunch != [] {
      LaunchStaysAs(s, good);
      step, t := Launch, AfterLaunch(s);
    } else if s.coord.Looping? {
      step, t := LoopingMoves(c, s, good);
    } else if Quiet(s.phase) {
      SameIsAs(s.phase, good);
      step, t := WaitReturn, s.(coord := Returned(!s.coord.WaitingCancelled? && !s.groupFailed));
    } else {
      var v :| v in s.phase && !s.phase[v].Idle? && !s.phase[v].Exited?;
      InvSlots(c, s);
      var w, p := SomeoneMoves(c, s, v, good);
      GoIsNext(c, s, w, p);
      GoStaysAs(s, w, p, good);
      step, t := Go(w, p), AfterGo(s, w, p);
    }
    hide Inv;
    hide StaysAs;
  }

  /** Deadlock freedom: until the executor has returned, some step other than an
      outside cancellation is possible, provided running workers can finish. */
  lemma NeverStuck(c: Config, s: State) returns (step: Step, t: State)
    requires c.Ok() && Inv(c, s) && !s.coord.Returned?
    ensures Next(c, s, step, t) && !step.CancelParent?
  {
    step, t := NeverStuckAs(c, s, v => true);
  }

  // ---------- termination ----------

  ghost function Work(ids: seq<Id>, phase: map<Id, Phase>): nat {
    if ids == [] then 0
    else
      var n := |ids| - 1;
      Work(ids[..n], phase) + (if ids[n] in phase then Weight(phase[ids[n]]) else 0)
  }

  lemma {:induction false} WorkMove(ids: seq<Id>, phase: map<Id, Phase>, v: Id, p: Phase)
    requires Distinct(ids) && v in phase
    ensures Work(ids, phase[v := p])
      == Work(ids, phase) + (if v in ids then Weight(p) - Weight(phase[v]) else 0)
  {
    if ids != [] {
      var n := |ids| - 1;
      WorkMove(ids[..n], phase, v, p);
      assert ids == ids[..n] + [ids[n]];
    }
  }

  ghost function CoordinatorWork(coord: Coordinator): nat {
    if coord.Looping? then 2 else if coord.Returned? then 0 else 1
  }

  ghost function Measure(c: Config, s: State): int {
    Work(c.ids, s.phase) + |c.ids| - s.taken + CoordinatorWork(s.coord) + (if s.parentCancelled then 0 else 1)
  }

  lemma WorkDrops(ids: seq<Id>, before: map<Id, Phase>, after: map<Id, Phase>)
    requires Distinct(ids) && before.Keys == Elems(ids) && Advances(before, after)
    ensures Work(ids, after) < Work(ids, before) || after == before
  {
    if after != before {
      var v, p :| v in before && Weight(p) < Weight(before[v]) && after == before[v := p];
      assert v in Elems(ids);
      WorkMove(ids, before, v, p);
    }
  }

  // What a step does to the rest of the measure.
  lemma CoordinatorDrops(c: Config, s: State, step: Step, t: State)
    requires Next(c, s, step, t)
    ensures var before: int := CoordinatorWork(s.coord) + (if s.parentCancelled then 0 else 1) - s.taken;
            var after: int := CoordinatorWork(t.coord) + (if t.parentCancelled then 0 else 1) - t.taken;
      if step.Launch? || step.Go? then after == before else after < before && t.phase == s.phase
  {
    hide CanGo;
    hide Quiet;
    hide CountedDown;
  }

  lemma PhaseChanges(c: Config, s: State, step: Step, t: State)
    requires Inv(c, s) && Next(c, s, step, t) && (step.Launch? || step.Go?)
    ensures t.phase != s.phase
  {
    InvParts(c, s);
    match step
    case Launch =>
      LaunchIsFirst(c, s);
      assert t.phase[s.toLaunch[0]] != s.phase[s.toLaunch[0]];
    case Go(v, p) =>
      GoLightens(c, s, v, p);
      assert t.phase[v] == p != s.phase[v];
  }

  lemma MeasureDrops(c: Config, s: State, step: Step, t: State)
    requires c.Ok() && Inv(c, s) && Next(c, s, step, t)
    ensures Measure(c, t) < Measure(c, s)
  {
    CoordinatorDrops(c, s, step, t);
    InvNodes(c, s);
    StepAdvances(c, s, step, t);
    WorkDrops(c.ids, s.phase, t.phase);
    if step.Launch? || step.Go? {
      PhaseChanges(c, s, step, t);
    }
    hide Next;
    hide Inv;
    hide CoordinatorWork;
  }

  lemma InvNodes(c: Config, s: State)
    requires c.Ok() && Inv(c, s)
    ensures Distinct(c.ids) && s.phase.Keys == Elems(c.ids) && s.taken <= |c.ids|
  {
  }

  lemma MeasureBounded(c: Config, s: State)
    requires c.Ok() && Inv(c, s)
    ensures Measure(c, s) >= 0
  {
    InvNodes(c, s);
    hide Inv;
  }

  /** Every run is finite: no run takes more steps than the measure of its first
      state. With NeverStuck, every maximal run returns. */
  lemma {:induction false} RunsAreFinite(c: Config, states: seq<State>, steps: seq<Step>, i: nat)
    requires Reached(c, states, steps, i) && |states| == |steps| + 1 && i <= |steps|
    ensures Measure(c, states[i]) + i <= Measure(c, states[0]) && Measure(c, states[i]) >= 0
    ensures i <= Measure(c, states[0])
  {
    hide *;
    InvAt(c, states, steps, i);
    ReachedOk(c, states, steps, i);
    MeasureBounded(c, states[i]);
    if i > 0 {
      StepAt(c, states, steps, i - 1);
      RunsAreFinite(c, states, steps, i - 1);
      InvAt(c, states, steps, i - 1);
      MeasureDrops(c, states[i - 1], steps[i - 1], states[i]);
    }
  }

  lemma ReachedOk(c: Config, states: seq<State>, steps: seq<Step>, i: nat)
    requires Reached(c, states, steps, i)
    ensures c.Ok()
  {
  }

  // ---------- the outcome ----------

  ghost predicate AllSucceeded(c: Config, s: State) {
    forall v :: v in c.ids ==> (v, true) in s.log
  }

  lemma SucceededIsOk(c: Config, s: State)
    requires s.taken <= |s.log| && Shape(c, s) && Mail(s) && AllSucceeded(c, s)
    ensures AllOk(Received(s))
  {
    forall p | p in Received(s) ensures p.1 {
      assert p in s.log;
      assert p.0 in Elems(c.ids);
      assert (p.0, true) in s.log;
    }
  }

  lemma OutcomeAt(c: Config, s: State)
    requires c.Ok() && Inv(c, s) && s.coord.Returned?
    ensures s.coord.ok ==> AllSucceeded(c, s)
    ensures !s.parentCancelled ==> (s.coord.ok <==> AllSucceeded(c, s))
    ensures !s.coord.ok && !s.parentCancelled ==> !AllOk(s.log)
    ensures s.taken <= |s.log| && (s.coord.ok <==> s.taken == |c.ids| && AllOk(Received(s)))
    ensures AllSucceeded(c, s) ==> (s.coord.ok <==> s.taken == |c.ids|)
    ensures Quiet(s.phase)
  {
    InvParts(c, s);
    if AllSucceeded(c, s) {
      SucceededIsOk(c, s);
    }
    if s.coord.ok {
      AllDeliveredOk(c, s);
      forall v | v in c.ids ensures (v, true) in s.log {
        assert v in Elems(c.ids);
        assert v in Names(s.log);
        var p :| p in s.log && p.0 == v;
        assert p.1;
      }
    }
  }

  /** The executor returns without error exactly when it received every result and
      all were successful, so only if every worker succeeded. Unless the caller
      cancels, it returns without error exactly then, and otherwise some worker
      really failed; if every worker succeeded, it returns an error exactly when it
      saw the cancellation before the last result. No goroutine is left running. */
  lemma Outcome(c: Config, states: seq<State>, steps: seq<Step>, i: nat)
    requires Reached(c, states, steps, i) && states[i].coord.Returned?
    ensures var s := states[i];
      && (s.coord.ok ==> AllSucceeded(c, s))
      && (!s.parentCancelled ==> (s.coord.ok <==> AllSucceeded(c, s)))
      && (!s.coord.ok && !s.parentCancelled ==> !AllOk(s.log))
      && s.taken <= |s.log| && (s.coord.ok <==> s.taken == |c.ids| && AllOk(Received(s)))
      && (AllSucceeded(c, s) ==> (s.coord.ok <==> s.taken == |c.ids|))
      && forall v :: v in s.phase ==> s.phase[v] == Idle || s.phase[v].Exited?
  {
    InvAt(c, states, steps, i);
    OutcomeAt(c, states[i]);
  }

  // ---------- a cancellation that hides a success ----------

  // Nothing has failed or been cancelled, and some result is not received.
  ghost predicate Fair(c: Config, s: State) {
    && s.coord.Looping? && !s.parentCancelled && !s.cancelled && s.taken < |c.ids|
    && forall v :: v in s.phase ==> As(s.phase[v], true)
  }

  // Every subtask has sent its result, and its goroutine is over.
  ghost predicate AllSent(c: Config, s: State) {
    s.toLaunch == [] && Quiet(s.phase) && |s.log| == |c.ids|
  }

  lemma Start(c: Config) returns (s: State)
    requires c.Ok()
    ensures IsInit(c, s) && Fair(c, s)
  {
    var phase := map v | v in c.ids :: Idle;
    var remaining := map v | v in Elems(c.ids) :: Pending(c.occurrences, {}, v) as int;
    s := State(phase, [], 0, 0, {}, false, false, false, Looping, remaining, {},
               InOrder(c.ids, Spec.Init(c.ids, c.Edges()).ready));
  }

  lemma Extended(c: Config, states: seq<State>, steps: seq<Step>, step: Step, t: State)
    requires Reached(c, states, steps, |steps|) && |states| == |steps| + 1
    requires Next(c, states[|steps|], step, t)
    ensures Reached(c, states + [t], steps + [step], |steps| + 1)
  {
    hide Next;
    hide Config.Ok;
    hide IsInit;
    var states', steps' := states + [t], steps + [step];
    assert states'[0] == states[0];
    forall i | 0 <= i < |steps'| ensures Next(c, states'[i], steps'[i], states'[i + 1]) {
      if i < |steps| {
        assert Next(c, states[i], steps[i], states[i + 1]);
      }
    }
  }

  lemma FairGo(c: Config, s: State, v: Id, p: Phase)
    requires Fair(c, s) && v in s.phase && CanGo(c, s, v, p) && As(p, true)
    ensures Next(c, s, Go(v, p), AfterGo(s, v, p)) && Fair(c, AfterGo(s, v, p))
  {
    hide CanGo;
  }

  lemma FairReceive(c: Config, s: State) returns (t: State)
    requires Fair(c, s) && Mail(s) && s.toLaunch == [] && s.taken < |s.log| < |c.ids|
    ensures Next(c, s, Receive, t) && Fair(c, t)
  {
    t := ReceiveWitness(c, s);
    assert s.log[s.taken] in s.log;
  }

  lemma FairLaunch(c: Config, s: State)
    requires Fair(c, s) && s.toLaunch != []
    ensures Next(c, s, Launch, AfterLaunch(s)) && Fair(c, AfterLaunch(s))
  {
  }

  // With every goroutine idle or over, all sent results received and some not sent,
  // there would be no outstanding work.
  lemma NotAllQuiet(c: Config, s: State)
    requires c.Ok() && s.taken <= |s.log| && Shape(c, s) && Mail(s) && Launches(c, s)
    requires Coordination(c, s) && Cancellation(s) && Fair(c, s)
    requires s.toLaunch == [] && s.taken == |s.log|
    ensures !Quiet(s.phase)
  {
    var v := WorkOutstanding(c, s);
    assert Received(s) == s.log;
    LaunchedOutstanding(c, s, v);
    Unfinished(s, v);
  }

  // Until everything is sent there is a step that keeps the run fair.
  lemma FairStep(c: Config, s: State) returns (step: Step, t: State)
    requires c.Ok() && Inv(c, s) && Fair(c, s) && !AllSent(c, s)
    ensures Next(c, s, step, t) && Fair(c, t)
  {
    InvParts(c, s);
    InvSlots(c, s);
    hide Inv;
    hide Next;
    hide CanGo;
    hide Shape;
    hide Slots;
    hide Mail;
    hide Launches;
    hide Coordination;
    hide Cancellation;
    if s.toLaunch != [] {
      FairLaunch(c, s);
      step, t := Launch, AfterLaunch(s);
    } else if !Quiet(s.phase) {
      var v :| v in s.phase && !s.phase[v].Idle? && !s.phase[v].Exited?;
      var w, p := SomeoneMoves(c, s, v, w => true);
      FairGo(c, s, w, p);
      step, t := Go(w, p), AfterGo(s, w, p);
    } else {
      if s.taken == |s.log| {
        NotAllQuiet(c, s);
      }
      SentWithin(c, s);
      step := Receive;
      t := FairReceive(c, s);
    }
  }

  lemma SentWithin(c: Config, s: State)
    requires c.Ok() && Shape(c, s) && Mail(s)
    ensures s.taken <= |s.log| <= |c.ids|
  {
    NamesWithin(s);
    KeysLength(c, s);
  }

  lemma {:induction false} FairRun(c: Config, states: seq<State>, steps: seq<Step>)
    returns (states': seq<State>, steps': seq<Step>)
    requires Reached(c, states, steps, |steps|) && |states| == |steps| + 1 && Fair(c, states[|steps|])
    ensures |states'| == |steps'| + 1 && Reached(c, states', steps', |steps'|)
    ensures Fair(c, states'[|steps'|]) && AllSent(c, states'[|steps'|])
    decreases Measure(c, states[|steps|])
  {
    hide *;
    var s := states[|steps|];
    if AllSent(c, s) {
      states', steps' := states, steps;
    } else {
      InvAt(c, states, steps, |steps|);
      ReachedOk(c, states, steps, |steps|);
      var step, t := FairStep(c, s);
      Extended(c, states, steps, step, t);
      MeasureDrops(c, s, step, t);
      MeasureBounded(c, s);
      states', steps' := FairRun(c, states + [t], steps + [step]);
    }
  }

  lemma SentSucceeded(c: Config, s: State)
    requires c.Ok() && Shape(c, s) && Mail(s) && Fair(c, s) && |s.log| == |c.ids|
    ensures AllSucceeded(c, s)
  {
    NamesWithin(s);
    KeysLength(c, s);
    SubsetLength(Names(s.log), s.phase.Keys);
    forall v | v in c.ids ensures (v, true) in s.log {
      assert v in Elems(c.ids);
      assert v in Names(s.log);
      var p :| p in s.log && p.0 == v;
      assert Reported(s.phase[v], p.1) && As(s.phase[v], true);
      assert p == (v, true);
    }
  }

  // The caller cancels, the coordinator sees it and returns.
  function GivenUp(s: State, k: nat): State {
    var cancelled := s.(parentCancelled := true, cancelled := true);
    if k == 0 then cancelled
    else cancelled.(coord := if k == 1 then WaitingCancelled else Returned(false))
  }

  lemma GivesUp(c: Config, s: State)
    requires Fair(c, s) && AllSent(c, s)
    ensures Next(c, s, CancelParent, GivenUp(s, 0)) && Next(c, GivenUp(s, 0), ObserveCancel, GivenUp(s, 1))
    ensures Next(c, GivenUp(s, 1), WaitReturn, GivenUp(s, 2))
    ensures GivenUp(s, 2).log == s.log && GivenUp(s, 2).coord == Returned(false)
  {
  }

  /** Whatever is to be executed, the caller can cancel so late that every worker has
      succeeded and the executor still returns an error: without the caller's
      cancellation, by Outcome, that never happens. */
  lemma CancellationHidesSuccess(c: Config) returns (states: seq<State>, steps: seq<Step>)
    requires c.Ok()
    ensures |states| == |steps| + 1 && Reached(c, states, steps, |steps|)
    ensures states[|steps|].coord == Returned(false) && AllSucceeded(c, states[|steps|])
  {
    var first := Start(c);
    states, steps := [first], [];
    assert Reached(c, states, steps, 0);
    hide *;
    states, steps := FairRun(c, states, steps);
    var s := states[|steps|];
    InvAt(c, states, steps, |steps|);
    GivesUp(c, s);
    AllSentSucceeded(c, s);
    Extended(c, states, steps, CancelParent, GivenUp(s, 0));
    states, steps := states + [GivenUp(s, 0)], steps + [CancelParent];
    Extended(c, states, steps, ObserveCancel, GivenUp(s, 1));
    states, steps := states + [GivenUp(s, 1)], steps + [ObserveCancel];
    Extended(c, states, steps, WaitReturn, GivenUp(s, 2));
    states, steps := states + [GivenUp(s, 2)], steps + [WaitReturn];
  }

  lemma AllSentSucceeded(c: Config, s: State)
    requires c.Ok() && Inv(c, s) && Fair(c, s) && AllSent(c, s)
    ensures AllSucceeded(c, s)
  {
    InvParts(c, s);
    SentSucceeded(c, s);
  }

  // ---------- what a submitted decomposition provides ----------

  ghost function ConfigOf(d: TaskDecomposition, maxWorkers: nat): Config {
    Config(Ids(d), EdgeList(d), maxWorkers)
  }

  /** An accepted decomposition meets everything the executor relies on. */
  lemma AcceptedConfig(d: TaskDecomposition, maxWorkers: nat)
    requires WellFormed(d) && Acyclic(Edges(d)) && maxWorkers >= 1
    ensures ConfigOf(d, maxWorkers).Ok() && ConfigOf(d, maxWorkers).Edges() == Edges(d)
  {
    WellFormedEdges(d);
  }

  // ---------- the executor follows the scheduler ----------

  // The scheduler state an executor state stands for: everything enabled counts as
  // scheduled, since the executor launches it at once.
  ghost function SchedulerView(s: State): Spec.State
    requires s.taken <= |s.log|
  {
    Spec.State(Successes(Received(s)), s.started + Elems(s.toLaunch), {})
  }

  lemma ViewIsValid(c: Config, s: State)
    requires s.taken <= |s.log| && Shape(c, s) && Mail(s) && Launches(c, s)
    ensures Spec.Inv(c.ids, c.Edges(), SchedulerView(s))
    ensures SchedulerView(s).completed <= SchedulerView(s).scheduled
    ensures forall p :: p in s.log ==> p.0 in s.started && p.0 in c.ids
  {
    var view := SchedulerView(s);
    forall p | p in s.log ensures p.0 in s.started && p.0 in c.ids {
      assert p.0 in s.phase && !s.phase[p.0].Idle?;
      assert p.0 in Elems(c.ids);
    }
    assert forall p :: p in Received(s) ==> p in s.log;
    assert view.completed <= s.started;
    hide Preds;
    hide Successes;
    hide Mail;
    hide Shape;
    assert forall v :: v in view.scheduled <==> v in s.started || v in s.toLaunch;
    assert forall v :: v in c.ids ==> v in Elems(c.ids);
  }

  /** Receiving a success is the scheduler's MarkComplete followed by Schedule: the
      subtasks the executor enables are the ones MarkComplete makes ready. */
  lemma ReceiveFollowsScheduler(c: Config, s: State, t: State)
    requires c.Ok() && Inv(c, s) && ReceiveStep(c, s, t) && s.log[s.taken].1
    ensures s.taken <= |s.log| && t.taken <= |t.log|
    ensures Elems(t.toLaunch) == Spec.NewlyReady(c.ids, c.Edges(), SchedulerView(s), s.log[s.taken].0)
    ensures SchedulerView(t)
      == Spec.AfterSchedule(Spec.AfterComplete(c.ids, c.Edges(), SchedulerView(s), s.log[s.taken].0))
  {
    InvParts(c, s);
    ViewIsValid(c, s);
    NextReceived(s);
    NotYetReceived(s);
    var u := s.log[s.taken].0;
    assert s.log[s.taken] in s.log;
    assert u in s.started + Elems(s.toLaunch);
    hide *;
    ViewFields(s);
    ExecutorRefinesScheduler(c.ids, c.occurrences, SchedulerView(s), u, s.remaining, t.remaining, t.toLaunch) by {
      EdgesAre(c);
    }
    EdgesAre(c);
    ViewAfter(c, s, t, u);
  }

  lemma EdgesAre(c: Config)
    ensures c.Edges() == EdgeSet(c.occurrences)
  {
  }

  lemma ViewFields(s: State)
    requires s.taken <= |s.log|
    ensures SchedulerView(s) == Spec.State(Successes(s.log[..s.taken]), s.started + Elems(s.toLaunch), {})
    ensures Received(s) == s.log[..s.taken]
  {
  }

  lemma ViewAfter(c: Config, s: State, t: State, u: Id)
    requires s.taken < |s.log| && t.log == s.log && t.taken == s.taken + 1
    requires s.toLaunch == [] && t.started == s.started
    requires Successes(t.log[..t.taken]) == Successes(s.log[..s.taken]) + {u}
    requires Elems(t.toLaunch) == Spec.NewlyReady(c.ids, c.Edges(), SchedulerView(s), u)
    requires u in c.ids && u !in SchedulerView(s).completed
    ensures SchedulerView(t) == Spec.AfterSchedule(Spec.AfterComplete(c.ids, c.Edges(), SchedulerView(s), u))
  {
    assert Elems(s.toLaunch) == {};
    hide Successes;
    hide Spec.Unlocked;
    assert SchedulerView(t).scheduled == SchedulerView(s).scheduled + Elems(t.toLaunch);
  }
}

/** What can happen in a run of the executor: the bounds proved for every run are reached
    by some, and no outcome of a worker is ruled out. */
module ExecutorRuns {
  import opened Graph
  import opened Decomposition
  import opened ExecutorCounters
  import opened Executor
  import opened ExecutorInvariant
  import opened ExecutorSafety
  import Spec = SchedulerSpec

  // A run and what its last state is.
  ghost predicate RunTo(c: Config, states: seq<State>, steps: seq<Step>) {
    |states| == |steps| + 1 && Reached(c, states, steps, |steps|)
  }

  lemma Started(c: Config) returns (states: seq<State>, steps: seq<Step>)
    requires c.Ok()
    ensures RunTo(c, states, steps) && IsInit(c, states[|steps|]) && |steps| == 0
  {
    var s := Start(c);
    states, steps := [s], [];
  }

  lemma StepOn(c: Config, states: seq<State>, steps: seq<Step>, step: Step, t: State)
    returns (states': seq<State>, steps': seq<Step>)
    requires RunTo(c, states, steps) && Next(c, states[|steps|], step, t)
    ensures RunTo(c, states', steps') && states <= states' && |steps'| == |steps| + 1 && states'[|steps'|] == t
  {
    Extended(c, states, steps, step, t);
    states', steps' := states + [t], steps + [step];
  }

  lemma LastInv(c: Config, states: seq<State>, steps: seq<Step>)
    requires RunTo(c, states, steps)
    ensures c.Ok() && Inv(c, states[|steps|])
  {
    InvAt(c, states, steps, |steps|);
    ReachedOk(c, states, steps, |steps|);
  }

  // ---------- workers side by side ----------

  ghost predicate IsRoot(c: Config, v: Id) {
    v in c.ids && forall u :: (u, v) !in c.Edges()
  }

  // Nothing but launching has happened, and some goroutines have got to running.
  ghost predicate Warming(c: Config, s: State) {
    && s.coord.Looping? && !s.parentCancelled && !s.cancelled && s.log == [] && s.tokens == |s.workers|
    && forall v :: v in s.phase ==>
      s.phase[v] == if v in s.workers then Running else if v in s.started then Launched else Idle
  }

  lemma {:induction false} LaunchAll(c: Config, states: seq<State>, steps: seq<Step>)
    returns (states': seq<State>, steps': seq<Step>)
    requires RunTo(c, states, steps) && Warming(c, states[|steps|]) && states[|steps|].workers == {}
    ensures RunTo(c, states', steps') && Warming(c, states'[|steps'|])
    ensures states'[|steps'|].toLaunch == [] && states'[|steps'|].workers == {}
    decreases |states[|steps|].toLaunch|
  {
    var s := states[|steps|];
    if s.toLaunch == [] {
      states', steps' := states, steps;
    } else {
      LastInv(c, states, steps);
      WarmLaunch(c, s);
      states', steps' := StepOn(c, states, steps, Launch, AfterLaunch(s));
      hide *;
      states', steps' := LaunchAll(c, states', steps');
    }
  }

  lemma WarmLaunch(c: Config, s: State)
    requires Inv(c, s) && Warming(c, s) && s.toLaunch != []
    ensures
      var t := AfterLaunch(s);
      Next(c, s, Launch, t) && Warming(c, t) && t.workers == s.workers && |t.toLaunch| < |s.toLaunch|
  {
    InvParts(c, s);
    LaunchIsFirst(c, s);
    hide Inv;
    hide Launches;
    hide Mail;
    hide Shape;
    hide Coordination;
    hide Cancellation;
    StartedAre(c, s);
  }

  lemma StartedAre(c: Config, s: State)
    requires Shape(c, s)
    ensures s.workers <= s.started
  {
    assert forall v :: v in s.workers ==> v in s.phase && s.phase[v].Running?;
  }

  lemma RootsLaunched(c: Config, s: State, v: Id)
    requires Inv(c, s) && s.toLaunch == [] && IsRoot(c, v)
    ensures v in s.started && v in s.phase
  {
    InvParts(c, s);
    assert Preds(c.Edges(), v) == {};
    assert v in Elems(c.ids);
    hide Mail;
    hide Coordination;
    hide Cancellation;
  }

  // One more goroutine gets a token and its worker.
  lemma OneMoreRuns(c: Config, states: seq<State>, steps: seq<Step>, v: Id)
    returns (states': seq<State>, steps': seq<Step>)
    requires RunTo(c, states, steps) && Warming(c, states[|steps|])
    requires
      var s := states[|steps|];
      v in s.phase && v in s.started && v !in s.workers && |s.workers| < c.maxWorkers
    ensures RunTo(c, states', steps') && Warming(c, states'[|steps'|])
    ensures
      var s, t := states[|steps|], states'[|steps'|];
      t.workers == s.workers + {v} && t.started == s.started && t.phase.Keys == s.phase.Keys
  {
    var s := states[|steps|];
    var acquired := AfterGo(s, v, Acquired);
    var t := AfterGo(acquired, v, Running);
    WarmGo(c, s, v);
    states', steps' := StepOn(c, states, steps, Go(v, Acquired), acquired);
    states', steps' := StepOn(c, states', steps', Go(v, Running), t);
    hide *;
  }

  lemma WarmGo(c: Config, s: State, v: Id)
    requires Warming(c, s) && v in s.phase && v in s.started && v !in s.workers && |s.workers| < c.maxWorkers
    ensures
      var a := AfterGo(s, v, Acquired);
      var t := AfterGo(a, v, Running);
      && Next(c, s, Go(v, Acquired), a) && Next(c, a, Go(v, Running), t) && Warming(c, t)
      && t.workers == s.workers + {v} && t.started == s.started && t.phase.Keys == s.phase.Keys
  {
    var a := AfterGo(s, v, Acquired);
    var t := AfterGo(a, v, Running);
    assert a.phase == s.phase[v := Acquired] && t.phase == s.phase[v := Running];
    assert |s.workers + {v}| == |s.workers| + 1;
  }

  lemma {:induction false} TheseRun(c: Config, states: seq<State>, steps: seq<Step>, u: set<Id>)
    returns (states': seq<State>, steps': seq<Step>)
    requires RunTo(c, states, steps) && Warming(c, states[|steps|])
    requires
      var s := states[|steps|];
      u <= s.started && u <= s.phase.Keys && u !! s.workers && |s.workers| + |u| <= c.maxWorkers
    ensures RunTo(c, states', steps') && Warming(c, states'[|steps'|])
    ensures states'[|steps'|].workers == states[|steps|].workers + u
    decreases |u|
  {
    hide Reached;
    hide Warming;
    var workers := states[|steps|].workers;
    if u == {} {
      states', steps' := states, steps;
    } else {
      var v :| v in u;
      OneLess(workers, u, v);
      states', steps' := OneMoreRuns(c, states, steps, v);
      states', steps' := TheseRun(c, states', steps', u - {v});
    }
  }

  lemma OneLess(workers: set<Id>, u: set<Id>, v: Id)
    requires v in u && u !! workers
    ensures |u - {v}| == |u| - 1 && |workers + {v}| == |workers| + 1
    ensures u - {v} !! workers + {v} && workers + {v} + (u - {v}) == workers + u
  {
  }

  /** Any subtasks without predecessors, as many as there are tokens, can run side by side:
      from the start of every configuration a run without cancellation leads to exactly
      them being at work. */
  lemma SideBySide(c: Config, u: set<Id>) returns (states: seq<State>, steps: seq<Step>)
    requires c.Ok() && (forall v :: v in u ==> v in c.ids && forall w :: (w, v) !in c.Edges())
    requires |u| <= c.maxWorkers
    ensures |states| == |steps| + 1 && Reached(c, states, steps, |steps|)
    ensures
      var s := states[|steps|];
      && s.workers == u && !s.cancelled && !s.parentCancelled
      && forall v :: v in u ==> v in s.phase && s.phase[v] == Running
  {
    AreRoots(c, u);
    hide *;
    states, steps := Started(c);
    StartsWarm(c, states[|steps|]);
    states, steps := LaunchAll(c, states, steps);
    LastInv(c, states, steps);
    RootsAreLaunched(c, states[|steps|], u);
    NoneRuns(c, states[|steps|], u);
    states, steps := TheseRun(c, states, steps, u);
    LastInv(c, states, steps);
    WorkersRun(c, states[|steps|]);
  }

  lemma AreRoots(c: Config, u: set<Id>)
    requires forall v :: v in u ==> v in c.ids && forall w :: (w, v) !in c.Edges()
    ensures forall v :: v in u ==> IsRoot(c, v)
  {
  }

  lemma RootsAreLaunched(c: Config, s: State, u: set<Id>)
    requires Inv(c, s) && s.toLaunch == [] && forall v :: v in u ==> IsRoot(c, v)
    ensures u <= s.started && u <= s.phase.Keys
  {
    hide *;
    forall v | v in u ensures v in s.started && v in s.phase {
      RootsLaunched(c, s, v);
    }
  }

  lemma NoneRuns(c: Config, s: State, u: set<Id>)
    requires s.workers == {}
    ensures u !! s.workers && |s.workers| == 0 && s.workers + u == u
  {
  }

  lemma StartsWarm(c: Config, s: State)
    requires IsInit(c, s)
    ensures Warming(c, s) && s.workers == {}
  {
  }

  lemma WorkersRun(c: Config, s: State)
    requires Inv(c, s) && Warming(c, s)
    ensures forall v :: v in s.workers ==> v in s.phase && s.phase[v] == Running
    ensures !s.cancelled && !s.parentCancelled
  {
  }

  // ---------- every outcome ----------

  ghost predicate AllAs(s: State, good: Id -> bool) {
    !s.parentCancelled && forall v :: v in s.phase ==> As(s.phase[v], good(v))
  }

  lemma StepAllAs(c: Config, s: State, step: Step, t: State, good: Id -> bool)
    requires AllAs(s, good) && StaysAs(s.phase, t.phase, good) && Next(c, s, step, t) && !step.CancelParent?
    requires t.phase.Keys == s.phase.Keys
    ensures AllAs(t, good)
  {
    assert t.parentCancelled == s.parentCancelled;
    forall v | v in t.phase ensures As(t.phase[v], good(v)) {
      assert v in s.phase.Keys;
    }
    hide CanGo;
    hide CountedDown;
    hide As;
  }

  lemma SameKeys(c: Config, s: State, t: State)
    requires Inv(c, s) && Inv(c, t)
    ensures s.phase.Keys == t.phase.Keys
  {
  }

  lemma {:induction false} ToTheEnd(c: Config, states: seq<State>, steps: seq<Step>, good: Id -> bool)
    returns (states': seq<State>, steps': seq<Step>)
    requires RunTo(c, states, steps) && AllAs(states[|steps|], good)
    ensures RunTo(c, states', steps') && AllAs(states'[|steps'|], good) && states'[|steps'|].coord.Returned?
    decreases Measure(c, states[|steps|])
  {
    var s := states[|steps|];
    LastInv(c, states, steps);
    if s.coord.Returned? {
      states', steps' := states, steps;
    } else {
      var step, t := NeverStuckAs(c, s, good);
      InvNext(c, s, step, t);
      SameKeys(c, s, t);
      StepAllAs(c, s, step, t, good);
      MeasureDrops(c, s, step, t);
      MeasureBounded(c, s);
      states', steps' := StepOn(c, states, steps, step, t);
      states', steps' := ToTheEnd(c, states', steps', good);
    }
    hide *;
  }

  /** Whatever outcome each worker is to have, there is a run without cancellation in which
      those that are launched have it; it returns without an error if and only if all
      outcomes are good. */
  lemma EveryOutcome(c: Config, good: Id -> bool) returns (states: seq<State>, steps: seq<Step>)
    requires c.Ok()
    ensures |states| == |steps| + 1 && Reached(c, states, steps, |steps|)
    ensures
      var s := states[|steps|];
      && s.coord.Returned? && !s.parentCancelled
      && (forall p :: p in s.log ==> p.1 == good(p.0))
      && (s.coord.ok <==> forall v :: v in c.ids ==> good(v))
  {
    states, steps := Started(c);
    StartsAs(c, states[|steps|], good);
    states, steps := ToTheEnd(c, states, steps, good);
    LastInv(c, states, steps);
    LogAs(c, states[|steps|], good);
    hide *;
  }

  lemma StartsAs(c: Config, s: State, good: Id -> bool)
    requires IsInit(c, s)
    ensures AllAs(s, good)
  {
  }

  lemma LogAs(c: Config, s: State, good: Id -> bool)
    requires c.Ok() && Inv(c, s) && s.coord.Returned? && AllAs(s, good)
    ensures forall p :: p in s.log ==> p.1 == good(p.0)
    ensures s.coord.ok <==> forall v :: v in c.ids ==> good(v)
  {
    OutcomeAt(c, s);
    InvParts(c, s);
    ResultsAs(c, s, good);
    hide Inv;
    hide Launches;
    hide Shape;
    hide Mail;
    hide As;
    if s.coord.ok {
      forall v | v in c.ids ensures good(v) {
        assert (v, true) in s.log;
      }
    } else {
      var p :| p in s.log && !p.1;
      assert p.0 in c.ids && !good(p.0);
    }
  }

  lemma ResultsAs(c: Config, s: State, good: Id -> bool)
    requires Shape(c, s) && Mail(s) && AllAs(s, good)
    ensures forall p :: p in s.log ==> p.1 == good(p.0) && p.0 in c.ids
  {
    forall p | p in s.log ensures p.1 == good(p.0) && p.0 in c.ids {
      assert p.0 in s.phase && Reported(s.phase[p.0], p.1) && As(s.phase[p.0], good(p.0));
      assert p.0 in Elems(c.ids);
    }
  }

  // ---------- failures before a worker, and cancellation ----------

  /** Selecting the worker of a subtask without predecessors can fail: its failure is then
      reported though no worker has been at work. */
  lemma SelectionFails(c: Config, v: Id) returns (states: seq<State>, steps: seq<Step>)
    requires c.Ok() && v in c.ids && forall w :: (w, v) !in c.Edges()
    ensures |states| == |steps| + 1 && Reached(c, states, steps, |steps|)
    ensures states[|steps|].log == [(v, false)] && !states[|steps|].parentCancelled
    ensures forall i :: 0 <= i < |states| ==> states[i].workers == {}
  {
    states, steps := Started(c);
    StartsWarm(c, states[|steps|]);
    states, steps := LaunchQuietly(c, states, steps);
    LastInv(c, states, steps);
    assert IsRoot(c, v);
    var s := states[|steps|];
    RootsLaunched(c, s, v);
    FailsEarly(c, s, v);
    var a := AfterGo(s, v, Acquired);
    var b := AfterGo(a, v, HasResult(false));
    var t := AfterGo(b, v, Sent(false));
    states, steps := StepIdle(c, states, steps, Go(v, Acquired), a);
    states, steps := StepIdle(c, states, steps, Go(v, HasResult(false)), b);
    states, steps := StepIdle(c, states, steps, Go(v, Sent(false)), t);
    hide *;
  }

  ghost predicate NobodyWorks(states: seq<State>) {
    forall i :: 0 <= i < |states| ==> states[i].workers == {}
  }

  lemma StepIdle(c: Config, states: seq<State>, steps: seq<Step>, step: Step, t: State)
    returns (states': seq<State>, steps': seq<Step>)
    requires RunTo(c, states, steps) && Next(c, states[|steps|], step, t) && NobodyWorks(states) && t.workers == {}
    ensures RunTo(c, states', steps') && NobodyWorks(states') && |steps'| == |steps| + 1 && states'[|steps'|] == t
  {
    Extended(c, states, steps, step, t);
    states', steps' := states + [t], steps + [step];
  }

  lemma {:induction false} LaunchQuietly(c: Config, states: seq<State>, steps: seq<Step>)
    returns (states': seq<State>, steps': seq<Step>)
    requires RunTo(c, states, steps) && Warming(c, states[|steps|]) && NobodyWorks(states)
    ensures RunTo(c, states', steps') && Warming(c, states'[|steps'|]) && NobodyWorks(states')
    ensures states'[|steps'|].toLaunch == []
    decreases |states[|steps|].toLaunch|
  {
    var s := states[|steps|];
    if s.toLaunch == [] {
      states', steps' := states, steps;
    } else {
      LastInv(c, states, steps);
      WarmLaunch(c, s);
      states', steps' := StepIdle(c, states, steps, Launch, AfterLaunch(s));
      states', steps' := LaunchQuietly(c, states', steps');
    }
    hide *;
  }

  lemma FailsEarly(c: Config, s: State, v: Id)
    requires c.Ok() && Warming(c, s) && s.workers == {} && v in s.phase && v in s.started && s.taken <= |s.log|
    ensures
      var a := AfterGo(s, v, Acquired);
      var b := AfterGo(a, v, HasResult(false));
      var t := AfterGo(b, v, Sent(false));
      && Next(c, s, Go(v, Acquired), a) && Next(c, a, Go(v, HasResult(false)), b)
      && Next(c, b, Go(v, Sent(false)), t)
      && a.workers == b.workers == t.workers == {} && t.log == [(v, false)] && !t.parentCancelled
  {
  }

  // The caller has cancelled and nobody waits for a token any more who got none.
  ghost predicate Leaving(s: State) {
    && s.coord == WaitingCancelled && s.cancelled && s.log == []
    && forall v :: v in s.phase ==> s.phase[v] == Idle || s.phase[v] == Launched || s.phase[v] == Exited(false)
  }

  lemma LeaveOne(c: Config, s: State, v: Id)
    requires Leaving(s) && v in s.phase && s.phase[v] == Launched
    ensures
      var a := AfterGo(s, v, Abandoned);
      var t := AfterGo(a, v, Exited(false));
      && Next(c, s, Go(v, Abandoned), a) && Next(c, a, Go(v, Exited(false)), t) && Leaving(t)
      && a.workers == t.workers == s.workers
  {
    var a := AfterGo(s, v, Abandoned);
    var t := AfterGo(a, v, Exited(false));
    assert a.phase == s.phase[v := Abandoned] && t.phase == s.phase[v := Exited(false)];
  }

  lemma {:induction false} LeaveAll(c: Config, states: seq<State>, steps: seq<Step>)
    returns (states': seq<State>, steps': seq<Step>)
    requires RunTo(c, states, steps) && Leaving(states[|steps|]) && NobodyWorks(states)
    ensures RunTo(c, states', steps') && Leaving(states'[|steps'|]) && NobodyWorks(states')
    ensures Quiet(states'[|steps'|].phase)
    decreases Measure(c, states[|steps|])
  {
    var s := states[|steps|];
    if v :| v in s.phase && s.phase[v] == Launched {
      var a := AfterGo(s, v, Abandoned);
      var t := AfterGo(a, v, Exited(false));
      LeaveOne(c, s, v);
      LastInv(c, states, steps);
      MeasureDrops(c, s, Go(v, Abandoned), a);
      InvNext(c, s, Go(v, Abandoned), a);
      MeasureDrops(c, a, Go(v, Exited(false)), t);
      MeasureBounded(c, s);
      states', steps' := StepIdle(c, states, steps, Go(v, Abandoned), a);
      states', steps' := StepIdle(c, states', steps', Go(v, Exited(false)), t);
      states', steps' := LeaveAll(c, states', steps');
    } else {
      states', steps' := states, steps;
    }
    hide *;
  }

  lemma LeavingStarts(c: Config, s: State)
    requires c.Ok() && Inv(c, s) && Warming(c, s) && s.workers == {} && s.toLaunch == []
    ensures
      var cancelled := s.(parentCancelled := true, cancelled := true);
      var t := cancelled.(coord := WaitingCancelled);
      && Next(c, s, CancelParent, cancelled) && Next(c, cancelled, ObserveCancel, t)
      && Leaving(t) && t.workers == cancelled.workers == {}
  {
    InvParts(c, s);
    hide Launches;
    hide Mail;
  }

  lemma LeavingEnds(c: Config, s: State)
    requires Leaving(s) && Quiet(s.phase)
    ensures Next(c, s, WaitReturn, s.(coord := Returned(false)))
  {
  }

  /** A caller that cancels before anyone has a token can get an error with no worker ever
      at work and no result sent. */
  lemma CancelledBeforeWork(c: Config) returns (states: seq<State>, steps: seq<Step>)
    requires c.Ok()
    ensures |states| == |steps| + 1 && Reached(c, states, steps, |steps|)
    ensures states[|steps|].coord == Returned(false) && states[|steps|].log == []
    ensures forall i :: 0 <= i < |states| ==> states[i].workers == {}
  {
    states, steps := Started(c);
    StartsWarm(c, states[|steps|]);
    states, steps := LaunchQuietly(c, states, steps);
    var s := states[|steps|];
    LastInv(c, states, steps);
    assert s.workers == {};
    LeavingStarts(c, s);
    var cancelled := s.(parentCancelled := true, cancelled := true);
    states, steps := StepIdle(c, states, steps, CancelParent, cancelled);
    states, steps := StepIdle(c, states, steps, ObserveCancel, cancelled.(coord := WaitingCancelled));
    states, steps := LeaveAll(c, states, steps);
    var last := states[|steps|];
    LeavingEnds(c, last);
    states, steps := StepIdle(c, states, steps, WaitReturn, last.(coord := Returned(false)));
    hide *;
  }

  /** The caller can cancel at any point of a run that it has not cancelled. */
  lemma CancelAnytime(c: Config, states: seq<State>, steps: seq<Step>)
    requires |states| == |steps| + 1 && Reached(c, states, steps, |steps|) && !states[|steps|].parentCancelled
    ensures
      var t := states[|steps|].(parentCancelled := true, cancelled := true);
      Reached(c, states + [t], steps + [CancelParent], |steps| + 1)
  {
    var t := states[|steps|].(parentCancelled := true, cancelled := true);
    Extended(c, states, steps, CancelParent, t);
  }
}

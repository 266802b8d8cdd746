/** What becomes of requests, actors and calls of Shutdown over whole runs of the session
    manager, and what can become of them (internal/runtime/session_manager.go). */
module SessionManagerLives {
  import opened Common
  import opened SessionManagerSpec
  import opened SessionManagerRuns

  lemma StepIs(run: seq<State>, events: seq<Event>, k: nat)
    requires IsRun(run, events) && k < |events|
    ensures |run| == |events| + 1 && Inv(run[k]) && Enabled(run[k], events[k]) && run[k + 1] == After(run[k], events[k])
    ensures Inv(run[k + 1])
  {
    RunInv(run, events, k);
    RunInv(run, events, k + 1);
  }

  // ---------- requests ----------

  // A registered actor has the session.
  ghost predicate Taken(s: State, id: SessionId) {
    exists i :: 0 <= i < |s.actors| && s.actors[i].id == id
      && s.actors[i].stage != Removed && s.actors[i].stage != Exited
  }

  ghost function Unremoved(s: State): set<nat> {
    set i: nat | i < |s.actors| && s.actors[i].stage != Removed && s.actors[i].stage != Exited
  }

  ghost predicate Admissible(s: State, req: Request) {
    && req.hasRunner && req.taskID == req.sessionID != "" && s.calls == []
    && !Taken(s, req.sessionID) && |Unremoved(s)| < s.cap
  }

  lemma TakenIff(s: State, id: SessionId)
    requires Inv(s)
    ensures Taken(s, id) <==> id in s.live
  {
    if id in s.live {
      assert s.actors[s.live[id]].id == id;
    }
  }

  lemma UnremovedCount(s: State)
    requires Inv(s)
    ensures |Unremoved(s)| == s.activeCount
  {
    LiveAreRegistered(s.actors, s.live);
    assert Unremoved(s) == RegisteredOf(s.actors);
  }

  lemma AdmissibleIff(s: State, req: Request)
    requires Inv(s)
    ensures Admissible(s, req) <==> Admit(s, req).StartedActor?
  {
    TakenIff(s, req.sessionID);
    UnremovedCount(s);
    hide LiveIff;
    hide ActorsOk;
    hide CallsOk;
  }

  /** At every point of every run a request is admitted if and only if it has a runner and
      one identifier for task and session, no shutdown has begun, no registered actor has
      the session and fewer than the cap are registered. Then one pending actor is added;
      else nothing happens. */
  lemma AdmittedIff(run: seq<State>, events: seq<Event>, k: nat, req: Request)
    requires IsRun(run, events) && k < |events| && events[k] == Start(req)
    ensures k + 1 < |run|
    ensures Admissible(run[k], req) ==>
      && run[k + 1].actors
        == run[k].actors + [Actor(req.sessionID, Launched, Pending, false, false, false, false)]
      && Taken(run[k + 1], req.sessionID)
    ensures !Admissible(run[k], req) ==> run[k + 1] == run[k]
  {
    StepIs(run, events, k);
    AdmissibleIff(run[k], req);
    hide Inv;
    hide Admissible;
    if Admit(run[k], req).StartedActor? {
      assert run[k + 1].actors[|run[k].actors|].id == req.sessionID;
    }
  }

  // ---------- final states ----------

  /** The state an actor whose run ended so is left in, for good: cancelled if it was
      cancelled before the end, or the end is a context error or an interrupted session;
      else failed on any other error or a failing status, and else completed. */
  lemma EndsAs(run: seq<State>, events: seq<Event>, j: nat, k: nat, i: nat, end: RunEnd)
    requires IsRun(run, events) && j < k < |run| && events[j] == Finish(i, end)
    ensures i < |run[j].actors| && i < |run[k].actors|
    ensures
      var cancelled, state := run[j].actors[i].cancelled, run[k].actors[i].state;
      && (state == Cancelled <==> cancelled || end.error == ContextError || end.status == Interrupted)
      && (state == Failed <==>
        && !cancelled && end.error != ContextError && end.status != Interrupted
        && (end.error == OtherError || end.status in [FatalError, VerificationFailed, BudgetExceeded]))
      && (state == Completed <==>
        && !cancelled && end.error == NoError && end.status in [Succeeded, Blocked, OtherStatus])
  {
    hide Inv;
    hide After;
    hide Enabled;
    StepIs(run, events, j);
    FinishIs(run[j], i, end);
    FinalState(run, events, j + 1, k, i);
  }

  lemma FinishIs(s: State, i: nat, end: RunEnd)
    requires Enabled(s, Finish(i, end))
    ensures i < |s.actors| && i < |After(s, Finish(i, end)).actors|
    ensures
      var cancelled, a := s.actors[i].cancelled, After(s, Finish(i, end)).actors[i];
      && a.finalized
      && (a.state == Cancelled <==> cancelled || end.error == ContextError || end.status == Interrupted)
      && (a.state == Failed <==>
        && !cancelled && end.error != ContextError && end.status != Interrupted
        && (end.error == OtherError || end.status in [FatalError, VerificationFailed, BudgetExceeded]))
      && (a.state == Completed <==>
        && !cancelled && end.error == NoError && end.status in [Succeeded, Blocked, OtherStatus])
  {
  }

  // ---------- cancels ----------

  // Someone cancels the actor.
  predicate Cancels(e: Event, i: nat) {
    e == Cancel(i) || (e.CancelTarget? && e.i == i)
  }

  ghost predicate CancelledBefore(events: seq<Event>, k: nat, i: nat)
    requires k <= |events|
  {
    exists j :: 0 <= j < k && Cancels(events[j], i)
  }

  // Someone cancels the actor when its context is attached.
  ghost predicate InterruptedBefore(run: seq<State>, events: seq<Event>, k: nat, i: nat)
    requires k <= |events| < |run|
  {
    exists j :: 0 <= j < k && Cancels(events[j], i) && i < |run[j].actors| && run[j].actors[i].stage != Launched
  }

  lemma CancelStep(s: State, e: Event, i: nat)
    requires Inv(s) && Enabled(s, e) && i < |After(s, e).actors|
    ensures
      var a := After(s, e).actors[i];
      && (i < |s.actors| ==>
        && (a.cancelled <==> s.actors[i].cancelled || Cancels(e, i))
        && (a.interrupted <==> s.actors[i].interrupted || (Cancels(e, i) && s.actors[i].stage != Launched)))
      && (i >= |s.actors| ==> !a.cancelled && !a.interrupted && !Cancels(e, i))
  {
    if i < |s.actors| {
      ActorAt(s.actors, i);
      if Cancels(e, i) {
        CancelIs(s, e, i);
      } else {
        OtherIs(s, e, i);
      }
    }
    hide Inv;
    hide Classify;
  }

  lemma CancelIs(s: State, e: Event, i: nat)
    requires Enabled(s, e) && i < |s.actors| && Cancels(e, i)
    ensures i < |After(s, e).actors| && After(s, e).actors[i] == MarkCancelled(s.actors[i])
  {
  }

  lemma OtherIs(s: State, e: Event, i: nat)
    requires Enabled(s, e) && i < |s.actors| && !Cancels(e, i)
    ensures i < |After(s, e).actors|
    ensures
      var a := After(s, e).actors[i];
      a.cancelled == s.actors[i].cancelled && a.interrupted == s.actors[i].interrupted
  {
    hide Classify;
  }

  lemma CancelsInRange(s: State, e: Event, i: nat)
    requires Enabled(s, e) && Cancels(e, i)
    ensures i < |s.actors|
  {
  }

  // Nobody has cancelled an actor that is not there yet.
  lemma NotYet(run: seq<State>, events: seq<Event>, k: nat, i: nat)
    requires IsRun(run, events) && k <= |events| < |run| && |run[k].actors| <= i
    ensures !CancelledBefore(events, k, i) && !InterruptedBefore(run, events, k, i)
  {
    forall j | 0 <= j < k ensures !Cancels(events[j], i) {
      StepIs(run, events, j);
      RunEvolves(run, events, j, k);
      if Cancels(events[j], i) {
        CancelsInRange(run[j], events[j], i);
      }
    }
    hide Inv;
  }

  lemma {:induction false} CancelledSoFar(run: seq<State>, events: seq<Event>, k: nat, i: nat)
    requires IsRun(run, events) && k <= |events| < |run| && i < |run[k].actors|
    ensures run[k].actors[i].cancelled <==> CancelledBefore(events, k, i)
    ensures run[k].actors[i].interrupted <==> InterruptedBefore(run, events, k, i)
  {
    hide *;
    if k > 0 {
      StepIs(run, events, k - 1);
      CancelStep(run[k - 1], events[k - 1], i);
      OneBefore(run, events, k, i);
      if i < |run[k - 1].actors| {
        CancelledSoFar(run, events, k - 1, i);
      } else {
        NotYet(run, events, k - 1, i);
      }
    } else {
      NoneAtFirst(run, events);
    }
  }

  lemma NoneAtFirst(run: seq<State>, events: seq<Event>)
    requires IsRun(run, events)
    ensures |run| > 0 && run[0].actors == []
  {
  }

  /** An actor is marked as cancelled if and only if someone has cancelled it, and its
      context is interrupted if and only if someone did when it was attached. */
  lemma CancelledIff(run: seq<State>, events: seq<Event>, k: nat, i: nat)
    requires IsRun(run, events) && k < |run| && i < |run[k].actors|
    ensures k <= |events| < |run|
    ensures run[k].actors[i].cancelled <==>
      exists j :: 0 <= j < k && (events[j] == Cancel(i) || (events[j].CancelTarget? && events[j].i == i))
    ensures run[k].actors[i].interrupted <==>
      exists j :: 0 <= j < k && (events[j] == Cancel(i) || (events[j].CancelTarget? && events[j].i == i))
        && i < |run[j].actors| && run[j].actors[i].stage != Launched
  {
    CancelledSoFar(run, events, k, i);
  }

  lemma OneBefore(run: seq<State>, events: seq<Event>, k: nat, i: nat)
    requires 0 < k <= |events| < |run|
    ensures CancelledBefore(events, k, i) <==> CancelledBefore(events, k - 1, i) || Cancels(events[k - 1], i)
    ensures InterruptedBefore(run, events, k, i) <==>
      || InterruptedBefore(run, events, k - 1, i)
      || (Cancels(events[k - 1], i) && i < |run[k - 1].actors| && run[k - 1].actors[i].stage != Launched)
  {
  }

  // ---------- calls of Shutdown ----------

  lemma CallStepIs(s: State, e: Event, c: nat)
    requires Inv(s) && Enabled(s, e) && c < |After(s, e).calls|
    ensures
      var b := After(s, e).calls[c];
      && (c >= |s.calls| ==> e == BeginShutdown && b == Call(First, {}, {}, false))
      && (c < |s.calls| ==>
        var a := s.calls[c];
        && (b.phase == a.phase
            || (e == TimeOut(c) && a.phase == First && b.phase == Second)
            || (e == ContextOver(c) && a.phase == First && b.phase == Draining)
            || (e == ReturnFrom(c, true) && b.phase == Returned(true) && a.drained && a.phase in [First, Second])
            || (e == ReturnFrom(c, false) && b.phase == Returned(false)
                && (a.phase == Second || (a.phase == Draining && a.drained))))
        && (b.drained <==> a.drained || e == SeeDrained(c)))
  {
    hide LiveIff;
    hide ActorsOk;
    hide CallsOk;
  }

  // The c-th call has timed out, or its context has ended, before step k.
  ghost predicate TurnedBefore(events: seq<Event>, k: nat, c: nat)
    requires k <= |events|
  {
    exists j :: 0 <= j < k && (events[j] == TimeOut(c) || events[j] == ContextOver(c))
  }

  lemma TurnedLater(events: seq<Event>, k: nat, c: nat)
    requires 0 < k <= |events|
    ensures TurnedBefore(events, k - 1, c) ==> TurnedBefore(events, k, c)
    ensures events[k - 1] == TimeOut(c) || events[k - 1] == ContextOver(c) ==> TurnedBefore(events, k, c)
  {
  }

  /** A call of Shutdown is back with an error only after its timeout or the end of its
      context, and without one only when no goroutine is left. */
  lemma {:induction false} ReturnsAfter(run: seq<State>, events: seq<Event>, k: nat, c: nat)
    requires IsRun(run, events) && k < |run| && c < |run[k].calls|
    ensures k <= |events|
    ensures run[k].calls[c].phase == Returned(true) ==> run[k].waiting == 0
    ensures run[k].calls[c].phase in [Second, Draining, Returned(false)] ==> TurnedBefore(events, k, c)
  {
    assert |run| == |events| + 1;
    RunInv(run, events, k);
    CallAt(run[k], c);
    if k > 0 {
      StepIs(run, events, k - 1);
      CallStepIs(run[k - 1], events[k - 1], c);
      TurnedLater(events, k, c);
      if c < |run[k - 1].calls| {
        ReturnsAfter(run, events, k - 1, c);
      }
    }
  }

  lemma {:induction false} WaitsAfter(run: seq<State>, events: seq<Event>, j: nat, k: nat, c: nat)
    requires IsRun(run, events) && j < k <= |events| && |run| == |events| + 1 && events[j] == ContextOver(c)
    ensures c < |run[k].calls| && WaitsOn(run[k].calls[c])
    decreases k
  {
    hide *;
    StepIs(run, events, k - 1);
    if j < k - 1 {
      WaitsAfter(run, events, j, k - 1, c);
      CallsStay(run[k - 1], events[k - 1], c);
    } else {
      TurnsTo(run[j], c);
    }
  }

  /** A call whose context ends while it waits for the first time keeps waiting for the
      actors: it is back only when none is left, with an error. */
  lemma ContextEndWaits(run: seq<State>, events: seq<Event>, j: nat, k: nat, c: nat)
    requires IsRun(run, events) && j < k < |run| && events[j] == ContextOver(c)
    ensures c < |run[k].calls|
    ensures run[k].calls[c].phase.Returned? ==> run[k].calls[c].phase == Returned(false) && run[k].waiting == 0
  {
    WaitsAfter(run, events, j, k, c);
    RunInv(run, events, k);
    CallAt(run[k], c);
    hide Inv;
  }

  // Waiting for the actors after the end of its context, or back since they are gone.
  predicate WaitsOn(call: Call) {
    call.phase == Draining || (call.phase == Returned(false) && call.drained)
  }

  lemma TurnsTo(s: State, c: nat)
    requires Enabled(s, ContextOver(c))
    ensures c < |After(s, ContextOver(c)).calls| && WaitsOn(After(s, ContextOver(c)).calls[c])
  {
  }

  lemma CallsStay(s: State, e: Event, c: nat)
    requires Inv(s) && Enabled(s, e) && c < |s.calls| && WaitsOn(s.calls[c])
    ensures c < |After(s, e).calls| && WaitsOn(After(s, e).calls[c])
  {
    hide Inv;
  }

  // ---------- what can happen ----------

  lemma Extend(run: seq<State>, events: seq<Event>, e: Event) returns (run': seq<State>, events': seq<Event>)
    requires IsRun(run, events) && |run| == |events| + 1 && Enabled(run[|events|], e)
    ensures IsRun(run', events') && |run'| == |events'| + 1 && |events'| == |events| + 1
    ensures run <= run' && events <= events' && run'[|events'|] == After(run[|events|], e)
    ensures events' == events + [e]
  {
    hide Enabled;
    hide After;
    hide Initial;
    run', events' := run + [After(run[|events|], e)], events + [e];
    forall k | 0 <= k < |events'| ensures Enabled(run'[k], events'[k]) && run'[k + 1] == After(run'[k], events'[k]) {
      if k < |events| {
        assert Enabled(run[k], events[k]);
      }
    }
  }

  /** Every admissible request can get an actor whose run ends in any way, cancelled
      before it or not; it is then in the state its end calls for and deregistered. */
  lemma LifeOfActor(run: seq<State>, events: seq<Event>, req: Request, cancel: bool, end: RunEnd)
    returns (run': seq<State>, events': seq<Event>)
    requires IsRun(run, events) && |run| == |events| + 1 && Admissible(run[|events|], req)
    ensures IsRun(run', events') && |run'| == |events'| + 1 && run <= run'
    ensures
      var i, t := |run[|events|].actors|, run'[|events'|];
      && |t.actors| == i + 1 && t.actors[i].id == req.sessionID && t.actors[i].finalized
      && t.actors[i].cancelled == t.actors[i].interrupted == cancel
      && t.actors[i].stage == Exited && !Taken(t, req.sessionID)
      && (t.actors[i].state == Completed <==>
        !cancel && end.error == NoError && end.status in [Succeeded, Blocked, OtherStatus])
  {
    hide IsRun;
    hide Taken;
    hide Admissible;
    run', events' := LifeBegins(run, events, req);
    run', events' := LifeGoesOn(run', events', |run[|events|].actors|, cancel, end);
  }

  lemma LifeBegins(run: seq<State>, events: seq<Event>, req: Request)
    returns (run': seq<State>, events': seq<Event>)
    requires IsRun(run, events) && |run| == |events| + 1 && Admissible(run[|events|], req)
    ensures IsRun(run', events') && |run'| == |events'| + 1 && run <= run'
    ensures
      var i, t := |run[|events|].actors|, run'[|events'|];
      && |t.actors| == i + 1
      && t.actors[i] == Actor(req.sessionID, Started, Running, false, false, true, false)
  {
    var s, i := run[|events|], |run[|events|].actors|;
    RunInv(run, events, |events|);
    AdmissibleIff(s, req);
    Starting(s, req);
    hide IsRun;
    hide Inv;
    hide After;
    hide Enabled;
    hide Admissible;
    hide Admit;
    run', events' := Extend(run, events, Start(req));
    run', events' := Moves(run', events', Attach(i), i);
    run', events' := Moves(run', events', Run(i), i);
  }

  lemma LifeGoesOn(run: seq<State>, events: seq<Event>, i: nat, cancel: bool, end: RunEnd)
    returns (run': seq<State>, events': seq<Event>)
    requires IsRun(run, events) && |run| == |events| + 1 && i < |run[|events|].actors|
    requires
      var a := run[|events|].actors[i];
      a.stage == Started && a.hasCancel && !a.cancelled && !a.interrupted
    ensures IsRun(run', events') && |run'| == |events'| + 1 && run <= run'
    ensures
      var s, t := run[|events|], run'[|events'|];
      && |t.actors| == |s.actors| && t.actors[i].id == s.actors[i].id && t.actors[i].finalized
      && t.actors[i].cancelled == t.actors[i].interrupted == cancel
      && t.actors[i].stage == Exited && !Taken(t, t.actors[i].id) && t.actors[i].state == Classify(end, cancel)
  {
    hide IsRun;
    hide Taken;
    hide Classify;
    hide Inv;
    hide After;
    hide Enabled;
    run', events' := run, events;
    if cancel {
      run', events' := Moves(run, events, Cancel(i), i);
    }
    run', events' := Moves(run', events', Finish(i, end), i);
    run', events' := LifeEnds(run', events', i);
  }

  lemma LifeEnds(run: seq<State>, events: seq<Event>, i: nat) returns (run': seq<State>, events': seq<Event>)
    requires IsRun(run, events) && |run| == |events| + 1 && i < |run[|events|].actors|
    requires run[|events|].actors[i].stage == Finished
    ensures IsRun(run', events') && |run'| == |events'| + 1 && run <= run'
    ensures
      var s, t := run[|events|], run'[|events'|];
      && t.actors == s.actors[i := s.actors[i].(stage := Exited)] && !Taken(t, t.actors[i].id)
  {
    hide IsRun;
    hide Taken;
    hide Inv;
    hide After;
    hide Enabled;
    run', events' := Moves(run, events, Complete(i), i);
    RunInv(run', events', |events'|);
    NotTaken(run'[|events'|], i);
    run', events' := Moves(run', events', Exit(i), i);
    StillFree(run'[|events'| - 1], run'[|events'|], i);
  }

  // A removed actor's session is free.
  lemma NotTaken(s: State, i: nat)
    requires Inv(s) && i < |s.actors| && s.actors[i].id !in s.live
    ensures !Taken(s, s.actors[i].id)
  {
    TakenIff(s, s.actors[i].id);
  }

  lemma StillFree(s: State, t: State, i: nat)
    requires i < |s.actors| && t.actors == s.actors[i := s.actors[i].(stage := Exited)]
    requires !Taken(s, s.actors[i].id)
    ensures !Taken(t, s.actors[i].id)
  {
    forall j | 0 <= j < |t.actors| && t.actors[j].id == s.actors[i].id
      ensures t.actors[j].stage == Removed || t.actors[j].stage == Exited
    {
      assert s.actors[j].id == t.actors[j].id;
    }
  }

  lemma Starting(s: State, req: Request)
    requires Admit(s, req).StartedActor?
    ensures
      var t, i := After(s, Start(req)), |s.actors|;
      && Enabled(s, Start(req)) && |t.actors| == i + 1
      && t.actors[i] == Actor(req.sessionID, Launched, Pending, false, false, false, false)
  {
  }

  // What a step of its goroutine, or a cancel, makes of an actor.
  function Moved(a: Actor, e: Event): Actor {
    match e
    case Attach(_) => a.(stage := Attached, hasCancel := true)
    case Run(_) => a.(stage := Started, state := Running)
    case Finish(_, end) => a.(stage := Finished, state := Classify(end, a.cancelled), finalized := true)
    case Complete(_) => a.(stage := Removed)
    case Exit(_) => a.(stage := Exited)
    case _ => a.(cancelled := true, interrupted := a.interrupted || a.hasCancel)
  }

  predicate Next(a: Actor, e: Event) {
    match a.stage
    case Launched => e.Attach?
    case Attached => e.Run?
    case Started => e.Finish?
    case Finished => e.Complete?
    case Removed => e.Exit?
    case Exited => false
  }

  lemma MoveIs(s: State, e: Event, i: nat)
    requires i < |s.actors|
    requires e == Cancel(i) || (Next(s.actors[i], e) && !e.CancelTarget? && e.i == i)
    ensures
      && Enabled(s, e) && After(s, e).actors == s.actors[i := Moved(s.actors[i], e)]
      && (e.Complete? ==> After(s, e).live == s.live - {s.actors[i].id})
  {
    hide Classify;
  }

  lemma Moves(run: seq<State>, events: seq<Event>, e: Event, i: nat) returns (run': seq<State>, events': seq<Event>)
    requires IsRun(run, events) && |run| == |events| + 1 && i < |run[|events|].actors|
    requires e == Cancel(i) || (Next(run[|events|].actors[i], e) && !e.CancelTarget? && e.i == i)
    ensures IsRun(run', events') && |run'| == |events'| + 1 && |events'| == |events| + 1 && run <= run'
    ensures
      var s, t := run[|events|], run'[|events'|];
      && run'[|events|] == s && t.actors == s.actors[i := Moved(s.actors[i], e)]
      && (e.Complete? ==> t.live == s.live - {s.actors[i].id})
  {
    var s := run[|events|];
    MoveIs(s, e, i);
    hide *;
    run', events' := Extend(run, events, e);
  }

  /** A call of Shutdown can always run into its timeout and be back with an error, every
      registered actor marked and none of them a step further. */
  lemma ShutdownGivesUp(run: seq<State>, events: seq<Event>, c: nat)
    returns (run': seq<State>, events': seq<Event>)
    requires IsRun(run, events) && |run| == |events| + 1
    requires c < |run[|events|].calls| && run[|events|].calls[c].phase == First
    ensures IsRun(run', events') && |run'| == |events'| + 1 && run <= run'
    ensures
      var s, t := run[|events|], run'[|events'|];
      && c < |t.calls| && t.calls[c].phase == Returned(false)
      && |t.actors| == |s.actors|
      && forall i :: 0 <= i < |s.actors| ==>
        && t.actors[i].stage == s.actors[i].stage
        && (s.actors[i].stage != Removed && s.actors[i].stage != Exited ==> t.actors[i].cancelled)
  {
    RunInv(run, events, |events|);
    run', events' := Extend(run, events, TimeOut(c));
    var j := |events|;
    run', events' := MarkAll(run', events', c);
    var t := run'[|events'|];
    assert events'[j] == TimeOut(c) && run'[j] == run[|events|];
    run', events' := Extend(run', events', ReturnFrom(c, false));
    forall i | 0 <= i < |run[j].actors| && run[j].actors[i].stage != Removed && run[j].actors[i].stage != Exited
      ensures i < |run'[|events'|].actors| && run'[|events'|].actors[i].cancelled
    {
      ShutdownCancels(run', events', j, |events'|, c, i);
    }
  }

  /** And its context can always end in the meantime: it has then marked every registered
      actor and waits for them, none of them a step further. */
  lemma ShutdownWaits(run: seq<State>, events: seq<Event>, c: nat)
    returns (run': seq<State>, events': seq<Event>)
    requires IsRun(run, events) && |run| == |events| + 1
    requires c < |run[|events|].calls| && run[|events|].calls[c].phase == First
    ensures IsRun(run', events') && |run'| == |events'| + 1 && run <= run'
    ensures
      var s, t := run[|events|], run'[|events'|];
      && c < |t.calls| && t.calls[c].phase == Draining && t.calls[c].pending == {}
      && t.calls[c].targets == s.live.Values && |t.actors| == |s.actors|
      && forall i :: 0 <= i < |s.actors| ==> t.actors[i].stage == s.actors[i].stage
  {
    run', events' := Extend(run, events, ContextOver(c));
    run', events' := MarkAll(run', events', c);
  }

  // What is pending is marked, one after the other.
  lemma {:induction false} MarkAll(run: seq<State>, events: seq<Event>, c: nat)
    returns (run': seq<State>, events': seq<Event>)
    requires IsRun(run, events) && |run| == |events| + 1 && c < |run[|events|].calls|
    requires run[|events|].calls[c].phase == Second || run[|events|].calls[c].phase == Draining
    ensures IsRun(run', events') && |run'| == |events'| + 1 && run <= run' && events <= events'
    ensures
      var s, t := run[|events|], run'[|events'|];
      && c < |t.calls| && t.calls[c].phase == s.calls[c].phase && t.calls[c].pending == {}
      && t.calls[c].targets == s.calls[c].targets
      && |t.actors| == |s.actors|
      && forall i :: 0 <= i < |s.actors| ==> t.actors[i].stage == s.actors[i].stage
    decreases |run[|events|].calls[c].pending|
  {
    var s := run[|events|];
    RunInv(run, events, |events|);
    CallAt(s, c);
    if s.calls[c].pending == {} {
      run', events' := run, events;
    } else {
      var i :| i in s.calls[c].pending;
      run', events' := Extend(run, events, CancelTarget(c, i));
      hide Inv;
      run', events' := MarkAll(run', events', c);
    }
  }
}

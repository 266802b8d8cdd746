/** The session manager and its actors as objects (internal/runtime/session_manager.go).
    Each method is one critical section; the ghost field spec is the state of the
    transition system, in which the runs are reasoned about. */
module SessionManager {
  import opened Common

  import opened SessionManagerSpec
  import opened SessionManagerRuns

  const DEFAULT_CAP := 8

  class SessionActor {
    const sessionID: SessionId
    var state: ActorState
    var finalized: bool
    var cancelled: bool
    var hasCancel: bool
    var interrupted: bool
    ghost var stage: Stage

    ghost function View(): Actor
      reads this
    {
      Actor(sessionID, stage, state, finalized, cancelled, hasCancel, interrupted)
    }

    constructor (sessionID: SessionId)
      ensures View() == NewActor(sessionID)
    {
      this.sessionID := sessionID;
      stage, state := Launched, Pending;
      finalized, cancelled, hasCancel, interrupted := false, false, false, false;
    }

    method AttachCancel()
      modifies this
      ensures View() == old(View()).(stage := Attached, hasCancel := true)
    {
      hasCancel := true;
      stage := Attached;
    }

    method TransitionToRunning()
      modifies this
      ensures View() == old(View()).(stage := Started, state := Running)
    {
      state := Running;
      stage := Started;
    }

    // Before the cancel function is attached there is no context to cancel.
    method MarkAsCancelled()
      modifies this
      ensures View() == MarkCancelled(old(View()))
      ensures View() == old(View()).(cancelled := true, interrupted := old(interrupted) || old(hasCancel))
    {
      cancelled := true;
      if hasCancel {
        interrupted := true;
      }
    }

    method FinishRun(end: RunEnd)
      modifies this
      ensures View() == old(View()).(stage := Finished, state := Classify(end, old(cancelled)), finalized := true)
    {
      if cancelled || end.error == ContextError || end.status == Interrupted {
        state := Cancelled;
      } else if end.error != NoError {
        state := Failed;
      } else if end.status == FatalError || end.status == VerificationFailed || end.status == BudgetExceeded {
        state := Failed;
      } else {
        state := Completed;
      }
      finalized := true;
      stage := Finished;
    }
  }

  class SessionManager {
    const activeSessionCap: int
    var actors: map<SessionId, SessionActor>
    var activeCount: int
    var accepting: bool
    var waiting: int                     // the wait group's counter
    ghost var started: seq<SessionActor>
    ghost var spec: State

    ghost predicate Mirrors()
      reads this
    {
      && spec.activeCount == activeCount && spec.accepting == accepting && spec.waiting == waiting
      && spec.cap == activeSessionCap
      && |spec.actors| == |started|
      && SameActors(actors, spec.live, started)
      && (forall i, j :: 0 <= i < j < |started| ==> started[i] != started[j])
    }

    ghost predicate Valid()
      reads this, started
    {
      && Mirrors() && Inv(spec)
      && forall i :: 0 <= i < |started| ==> started[i].View() == spec.actors[i]
    }

    constructor (requestedCap: int)
      ensures Valid() && fresh(started) && Initial(spec)
      ensures activeSessionCap == (if requestedCap <= 0 then 8 else requestedCap) == spec.cap
    {
      activeSessionCap := if requestedCap <= 0 then DEFAULT_CAP else requestedCap;
      actors, activeCount, accepting, waiting := map[], 0, true, 0;
      started := [];
      spec := State([], map[], 0, true, 0, if requestedCap <= 0 then DEFAULT_CAP else requestedCap, []);
    }

    /** Admits an actor when the request is valid, starts are accepted, no actor has
        the session and the cap leaves room, these being checked in this order. */
    method Start(req: Request) returns (outcome: StartOutcome, actor: SessionActor?)
      requires Valid()
      modifies this
      ensures Valid() && outcome == Admit(old(spec), req)
      ensures spec == After(old(spec), SessionManagerSpec.Start(req))
      ensures outcome.StartedActor? <==> actor != null
      ensures actor != null <==>
        && req.hasRunner && req.taskID == req.sessionID != "" && old(accepting)
        && req.sessionID !in old(actors) && old(activeCount) < activeSessionCap
      ensures actor != null ==>
        fresh(actor) && started == old(started) + [actor] && actors == old(actors)[req.sessionID := actor]
      ensures actor == null ==> started == old(started) && actors == old(actors)
    {
      var id := req.sessionID;
      hide Inv;
      assert id in spec.live <==> id in actors by { assert id in spec.live.Keys <==> id in actors.Keys; }
      actor := null;
      assert !Admit(spec, req).StartedActor? ==> After(spec, SessionManagerSpec.Start(req)) == spec;
      hide After;
      var fault := ValidateRequest(req);
      if fault.Some? {
        return Invalid(fault.value), null;
      }
      if !accepting {
        return Closed, null;
      }
      if id in actors {
        return AlreadyActive, null;
      }
      if activeCount >= activeSessionCap {
        return LimitReached, null;
      }
      actor := Register(req);
      outcome := StartedActor;
    }

    method ValidateRequest(req: Request) returns (fault: Option<RequestFault>)
      ensures fault == FaultOf(req)
    {
      if !req.hasRunner {
        return Some(NoRunner);
      }
      if req.taskID == "" {
        return Some(NoTaskId);
      }
      if req.sessionID == "" {
        return Some(NoSessionId);
      }
      if req.taskID != req.sessionID {
        return Some(IdsDiffer);
      }
      return None;
    }

    // Adds an actor for an admitted request.
    method Register(req: Request) returns (actor: SessionActor)
      requires Valid() && Admit(spec, req).StartedActor?
      modifies this
      ensures Valid() && spec == After(old(spec), SessionManagerSpec.Start(req))
      ensures fresh(actor) && started == old(started) + [actor] && actors == old(actors)[req.sessionID := actor]
    {
      hide Inv;
      InvNext(spec, SessionManagerSpec.Start(req));
      spec := After(spec, SessionManagerSpec.Start(req));
      actor := new SessionActor(req.sessionID);
      SamePlusOne(actors, old(spec).live, started, req.sessionID, actor);
      hide SameActors;
      actors := actors[req.sessionID := actor];
      activeCount := activeCount + 1;
      waiting := waiting + 1;
      started := started + [actor];
    }

    method Lookup(id: SessionId) returns (actor: SessionActor?)
      requires Valid()
      ensures actor != null <==> id in spec.live
      ensures actor != null ==> actor.sessionID == id && !actor.stage.Removed? && !actor.stage.Exited?
    {
      assert id in spec.live <==> id in actors by { assert id in spec.live.Keys <==> id in actors.Keys; }
      if id in actors {
        assert actors[id].View() == spec.actors[spec.live[id]];
        return actors[id];
      }
      return null;
    }

    method AttachCancel(actor: SessionActor, ghost i: nat)
      requires Valid() && i < |started| && started[i] == actor && Enabled(spec, Attach(i))
      modifies this`spec, actor
      ensures Valid() && spec == After(old(spec), Attach(i))
    {
      hide Inv;
      InvNext(spec, Attach(i));
      actor.AttachCancel();
      spec := After(spec, Attach(i));
    }

    method TransitionToRunning(actor: SessionActor, ghost i: nat)
      requires Valid() && i < |started| && started[i] == actor && Enabled(spec, Run(i))
      modifies this`spec, actor
      ensures Valid() && spec == After(old(spec), Run(i))
    {
      hide Inv;
      InvNext(spec, Run(i));
      actor.TransitionToRunning();
      spec := After(spec, Run(i));
    }

    method FinishRun(actor: SessionActor, end: RunEnd, ghost i: nat)
      requires Valid() && i < |started| && started[i] == actor && Enabled(spec, Finish(i, end))
      modifies this`spec, actor
      ensures Valid() && spec == After(old(spec), Finish(i, end))
    {
      hide Inv;
      InvNext(spec, Finish(i, end));
      actor.FinishRun(end);
      spec := After(spec, Finish(i, end));
    }

    method CompleteActor(actor: SessionActor, ghost i: nat)
      requires Valid() && i < |started| && started[i] == actor && Enabled(spec, Complete(i))
      modifies this`spec, this`actors, this`activeCount, actor`stage
      ensures Valid() && spec == After(old(spec), Complete(i))
    {
      hide Inv;
      InvNext(spec, Complete(i));
      assert actor.View() == spec.actors[i];
      hide SameActors;
      actors := actors - {actor.sessionID};
      if activeCount > 0 {
        activeCount := activeCount - 1;
      }
      actor.stage := Removed;
      spec := After(spec, Complete(i));
    }

    // The end of the goroutine.
    method Exit(actor: SessionActor, ghost i: nat)
      requires Valid() && i < |started| && started[i] == actor && Enabled(spec, SessionManagerSpec.Exit(i))
      modifies this`spec, this`waiting, actor`stage
      ensures Valid() && spec == After(old(spec), SessionManagerSpec.Exit(i))
    {
      hide Inv;
      InvNext(spec, SessionManagerSpec.Exit(i));
      waiting := waiting - 1;
      actor.stage := Exited;
      spec := After(spec, SessionManagerSpec.Exit(i));
    }

    method Cancel(actor: SessionActor, ghost i: nat)
      requires Valid() && i < |started| && started[i] == actor && Enabled(spec, SessionManagerSpec.Cancel(i))
      modifies this`spec, actor
      ensures Valid() && spec == After(old(spec), SessionManagerSpec.Cancel(i))
    {
      hide Inv;
      InvNext(spec, SessionManagerSpec.Cancel(i));
      actor.MarkAsCancelled();
      spec := After(spec, SessionManagerSpec.Cancel(i));
    }

    method BeginShutdown()
      requires Valid() && Enabled(spec, SessionManagerSpec.BeginShutdown)
      modifies this`spec, this`accepting
      ensures Valid() && spec == After(old(spec), SessionManagerSpec.BeginShutdown)
    {
      hide Inv;
      InvNext(spec, SessionManagerSpec.BeginShutdown);
      accepting := false;
      spec := After(spec, SessionManagerSpec.BeginShutdown);
    }

    method CancelTarget(actor: SessionActor, ghost c: nat, ghost i: nat)
      requires Valid() && i < |started| && started[i] == actor
      requires Enabled(spec, SessionManagerSpec.CancelTarget(c, i))
      modifies this`spec, actor
      ensures Valid() && spec == After(old(spec), SessionManagerSpec.CancelTarget(c, i))
    {
      hide Inv;
      InvNext(spec, SessionManagerSpec.CancelTarget(c, i));
      actor.MarkAsCancelled();
      spec := After(spec, SessionManagerSpec.CancelTarget(c, i));
    }

    // The c-th call of Shutdown turns to cancelling what is registered.
    ghost method Turn(c: nat, e: Event)
      requires Valid() && (e == TimeOut(c) || e == ContextOver(c)) && Enabled(spec, e)
      modifies this`spec
      ensures Valid() && spec == After(old(spec), e)
    {
      hide Inv;
      InvNext(spec, e);
      spec := After(spec, e);
    }

    lemma RegisteredActor(id: SessionId)
      requires Valid()
      ensures Inv(spec) && (id in actors <==> id in spec.live)
      ensures id in actors ==> spec.live[id] < |started| && started[spec.live[id]] == actors[id]
    {
      assert id in spec.live.Keys <==> id in actors.Keys;
    }

    /** Marks every registered actor, as the c-th call of Shutdown does when its
        timeout or its context is over. */
    method CancelAllActive(ghost c: nat, ghost e: Event)
      requires Valid() && (e == TimeOut(c) || e == ContextOver(c)) && Enabled(spec, e)
      modifies this`spec, started
      ensures Valid() && started == old(started) && spec.live == old(spec.live)
      ensures c < |spec.calls| && spec.calls[c].pending == {} && spec.calls[c].targets == spec.live.Values
      ensures forall id :: id in actors ==> actors[id].cancelled
    {
      hide *;
      RegisteredActors();
      TurnStep(spec, c, e);
      Turn(c, e);
      CancelEach(c, actors.Keys);
      AllMarked(c);
    }

    // Marks what the c-th call has yet to cancel.
    method CancelEach(ghost c: nat, all: set<SessionId>)
      requires Valid() && all <= actors.Keys && c < |spec.calls| && YetToCancel(spec, c, all)
      modifies this`spec, started
      ensures Valid() && spec.live == old(spec.live) && c < |spec.calls|
      ensures spec.calls[c].targets == old(spec.calls)[c].targets && YetToCancel(spec, c, {})
    {
      hide *;
      var rest := all;
      while rest != {}
        invariant Valid() && spec.live == old(spec.live) && rest <= all && c < |spec.calls|
        invariant spec.calls[c].targets == old(spec.calls)[c].targets && YetToCancel(spec, c, rest)
      {
        var id :| id in rest;
        RegisteredActor(id);
        PendingOne(spec, c, rest, id);
        rest := rest - {id};
        CancelTarget(actors[id], c, spec.live[id]);
      }
    }

    lemma RegisteredActors()
      requires Valid()
      ensures Inv(spec) && actors.Keys == spec.live.Keys
    {
    }

    lemma AllMarked(c: nat)
      requires Valid() && c < |spec.calls| && YetToCancel(spec, c, {}) && spec.calls[c].targets == spec.live.Values
      ensures spec.calls[c].pending == {} && forall id :: id in actors ==> actors[id].cancelled
    {
      CallAt(spec, c);
      forall id | id in actors ensures actors[id].cancelled {
        assert spec.live[id] in spec.live.Values;
        assert actors[id].View() == spec.actors[spec.live[id]];
      }
    }
  }

  // What the c-th call has yet to cancel is what is registered under the rest.
  ghost predicate YetToCancel(s: State, c: nat, rest: set<SessionId>)
    requires c < |s.calls|
  {
    && (forall i :: i in s.calls[c].pending ==>
      i < |s.actors| && s.actors[i].id in rest && s.actors[i].id in s.live && s.live[s.actors[i].id] == i)
    && (forall id :: id in rest ==> id in s.live && s.live[id] in s.calls[c].pending)
  }

  // The registered actors are those live names in the order of starting.
  ghost predicate SameActors(actors: map<SessionId, SessionActor>, live: map<SessionId, nat>,
                             started: seq<SessionActor>)
  {
    && actors.Keys == live.Keys
    && forall id :: id in live ==> id in actors && live[id] < |started| && started[live[id]] == actors[id]
  }

  lemma SamePlusOne(actors: map<SessionId, SessionActor>, live: map<SessionId, nat>, started: seq<SessionActor>,
                    id: SessionId, actor: SessionActor)
    requires SameActors(actors, live, started)
    ensures SameActors(actors[id := actor], live[id := |started|], started + [actor])
  {
  }

  lemma TurnStep(s: State, c: nat, e: Event)
    requires Inv(s) && (e == TimeOut(c) || e == ContextOver(c)) && Enabled(s, e)
    ensures
      var t := After(s, e);
      && t.live == s.live && c < |t.calls| && t.calls[c].targets == s.live.Values
      && YetToCancel(t, c, s.live.Keys)
  {
  }

  lemma PendingOne(s: State, c: nat, rest: set<SessionId>, id: SessionId)
    requires Inv(s) && c < |s.calls| && YetToCancel(s, c, rest) && id in rest
    ensures id in s.live && Enabled(s, SessionManagerSpec.CancelTarget(c, s.live[id]))
    ensures
      var t := After(s, SessionManagerSpec.CancelTarget(c, s.live[id]));
      && t.live == s.live && c < |t.calls| && t.calls[c].targets == s.calls[c].targets
      && YetToCancel(t, c, rest - {id})
  {
  }
}

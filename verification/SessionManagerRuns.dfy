/** What holds of the session manager over every interleaving. */
module SessionManagerRuns {

  import opened SessionManagerSpec

  // ---------- the invariant is kept ----------

  function Weight(a: Actor): nat {
    if a.stage.Exited? then 0 else 1
  }

  lemma {:induction false} NotExitedUpdate(actors: seq<Actor>, i: nat, a: Actor)
    requires i < |actors|
    ensures NotExited(actors[i := a]) == NotExited(actors) - Weight(actors[i]) + Weight(a)
  {
    var n := |actors| - 1;
    if i < n {
      assert actors[i := a][..n] == actors[..n][i := a];
      NotExitedUpdate(actors[..n], i, a);
    } else {
      assert actors[i := a][..n] == actors[..n];
    }
  }

  lemma {:induction false} NoneLeft(actors: seq<Actor>)
    requires NotExited(actors) == 0
    ensures forall i :: 0 <= i < |actors| ==> actors[i].stage.Exited?
  {
    if actors != [] {
      NoneLeft(actors[..|actors| - 1]);
      forall i | 0 <= i < |actors| ensures actors[i].stage.Exited? {
        assert i < |actors| - 1 ==> actors[..|actors| - 1][i] == actors[i];
      }
    }
  }

  lemma LiveCount(live: map<SessionId, nat>, id: SessionId, i: nat)
    ensures id !in live ==> |live[id := i]| == |live| + 1
    ensures id in live ==> |live - {id}| == |live| - 1 && |live| > 0
  {
    if id in live {
      assert (live - {id}).Keys == live.Keys - {id};
    } else {
      assert live[id := i].Keys == live.Keys + {id};
    }
  }

  lemma LiveAfterStart(actors: seq<Actor>, live: map<SessionId, nat>, id: SessionId)
    requires LiveIff(actors, live) && id !in live
    ensures LiveIff(actors + [NewActor(id)], live[id := |actors|])
  {
  }

  // An update of an actor that neither renames nor deregisters it.
  lemma LiveAfterUpdate(actors: seq<Actor>, live: map<SessionId, nat>, i: nat, a: Actor)
    requires LiveIff(actors, live) && i < |actors|
    requires a.id == actors[i].id && (Registered(a.stage) <==> Registered(actors[i].stage))
    ensures LiveIff(actors[i := a], live)
  {
  }

  lemma LiveAfterComplete(actors: seq<Actor>, live: map<SessionId, nat>, i: nat, a: Actor)
    requires LiveIff(actors, live) && i < |actors| && Registered(actors[i].stage)
    requires a.id == actors[i].id && !Registered(a.stage)
    ensures actors[i].id in live && LiveIff(actors[i := a], live - {actors[i].id})
  {
  }

  lemma ActorsAfterUpdate(actors: seq<Actor>, i: nat, a: Actor)
    requires ActorsOk(actors) && i < |actors| && Consistent(a)
    ensures ActorsOk(actors[i := a])
  {
    hide Consistent;
  }

  lemma CallsAfterUpdate(calls: seq<Call>, actors: seq<Actor>, waiting: int, i: nat, a: Actor, left: int)
    requires CallsOk(calls, actors, waiting) && i < |actors| && (actors[i].cancelled ==> a.cancelled)
    requires waiting == 0 ==> left == 0
    ensures CallsOk(calls, actors[i := a], left)
  {
    forall c | 0 <= c < |calls| ensures CallOk(calls[c], actors[i := a], left) {
      assert CallOk(calls[c], actors, waiting);
    }
  }

  lemma CallsAfterChange(calls: seq<Call>, actors: seq<Actor>, waiting: int, c: nat, call: Call)
    requires CallsOk(calls, actors, waiting) && c < |calls| && CallOk(call, actors, waiting)
    ensures CallsOk(calls[c := call], actors, waiting)
  {
    hide CallOk;
  }

  // Every update of one actor that keeps it registered and counted.
  lemma InvUpdate(s: State, i: nat, a: Actor)
    requires Inv(s) && i < |s.actors| && Consistent(a)
    requires a.id == s.actors[i].id && (s.actors[i].cancelled ==> a.cancelled)
    requires Registered(a.stage) <==> Registered(s.actors[i].stage)
    requires a.stage.Exited? <==> s.actors[i].stage.Exited?
    ensures Inv(s.(actors := s.actors[i := a]))
  {
    hide LiveIff;
    hide ActorsOk;
    hide CallsOk;
    hide Consistent;
    hide Registered;
    NotExitedUpdate(s.actors, i, a);
    LiveAfterUpdate(s.actors, s.live, i, a);
    ActorsAfterUpdate(s.actors, i, a);
    CallsAfterUpdate(s.calls, s.actors, s.waiting, i, a, s.waiting);
  }

  lemma InvStart(s: State, req: Request)
    requires Inv(s)
    ensures Inv(After(s, Start(req)))
  {
    hide LiveIff;
    hide ActorsOk;
    hide CallsOk;
    var id := req.sessionID;
    if Admit(s, req).StartedActor? {
      var actors := s.actors + [NewActor(id)];
      assert actors[..|s.actors|] == s.actors;
      LiveCount(s.live, id, |s.actors|);
      LiveAfterStart(s.actors, s.live, id);
      NewIsConsistent(s.actors, id);
      assert s.calls == [];
      NoCalls(actors, s.waiting + 1);
    }
  }

  lemma NewIsConsistent(actors: seq<Actor>, id: SessionId)
    requires ActorsOk(actors)
    ensures ActorsOk(actors + [NewActor(id)])
  {
  }

  lemma NoCalls(actors: seq<Actor>, waiting: int)
    ensures CallsOk([], actors, waiting)
  {
  }

  lemma InvComplete(s: State, i: nat)
    requires Inv(s) && Enabled(s, Complete(i))
    ensures Inv(After(s, Complete(i)))
  {
    hide LiveIff;
    hide ActorsOk;
    hide CallsOk;
    var a := s.actors[i].(stage := Removed);
    NotExitedUpdate(s.actors, i, a);
    LiveAfterComplete(s.actors, s.live, i, a);
    LiveCount(s.live, s.actors[i].id, 0);
    ActorAt(s.actors, i);
    ActorsAfterUpdate(s.actors, i, a);
    CallsAfterUpdate(s.calls, s.actors, s.waiting, i, a, s.waiting);
  }

  lemma ActorAt(actors: seq<Actor>, i: nat)
    requires ActorsOk(actors) && i < |actors|
    ensures Consistent(actors[i])
  {
  }

  lemma InvExit(s: State, i: nat)
    requires Inv(s) && Enabled(s, Exit(i))
    ensures Inv(After(s, Exit(i)))
  {
    hide LiveIff;
    hide ActorsOk;
    hide CallsOk;
    var a := s.actors[i].(stage := Exited);
    NotExitedUpdate(s.actors, i, a);
    LiveAfterUpdate(s.actors, s.live, i, a);
    ActorAt(s.actors, i);
    ActorsAfterUpdate(s.actors, i, a);
    CallsAfterUpdate(s.calls, s.actors, s.waiting, i, a, s.waiting - 1);
  }

  lemma InvCall(s: State, c: nat, call: Call)
    requires Inv(s) && c < |s.calls| && CallOk(call, s.actors, s.waiting)
    ensures Inv(s.(calls := s.calls[c := call]))
  {
    hide LiveIff;
    hide ActorsOk;
    hide CallsOk;
    hide CallOk;
    CallsAfterChange(s.calls, s.actors, s.waiting, c, call);
  }

  lemma CallAt(s: State, c: nat)
    requires Inv(s) && c < |s.calls|
    ensures CallOk(s.calls[c], s.actors, s.waiting)
  {
  }

  lemma InvTarget(s: State, c: nat, phase: Phase)
    requires Inv(s) && c < |s.calls| && !phase.Returned?
    ensures Inv(s.(calls := s.calls[c := Targeting(s, c, phase)]))
  {
    CallAt(s, c);
    InvCall(s, c, Targeting(s, c, phase));
  }

  lemma InvCancelTarget(s: State, c: nat, i: nat)
    requires Inv(s) && Enabled(s, CancelTarget(c, i))
    ensures Inv(After(s, CancelTarget(c, i)))
  {
    hide LiveIff;
    hide ActorsOk;
    hide CallsOk;
    InvMark(s, i);
    var t := s.(actors := s.actors[i := MarkCancelled(s.actors[i])]);
    CallAt(t, c);
    InvCall(t, c, t.calls[c].(pending := t.calls[c].pending - {i}));
  }

  lemma InvMark(s: State, i: nat)
    requires Inv(s) && i < |s.actors|
    ensures Inv(s.(actors := s.actors[i := MarkCancelled(s.actors[i])]))
  {
    ActorAt(s.actors, i);
    InvUpdate(s, i, MarkCancelled(s.actors[i]));
  }

  lemma InvBegin(s: State)
    requires Inv(s)
    ensures Inv(After(s, BeginShutdown))
  {
    hide LiveIff;
    hide ActorsOk;
  }

  /** Every step keeps: the count is the number of registered actors and within the
      cap, one per session; the wait group counts the goroutines not over; a call of
      Shutdown is back without error only when none is left. */
  lemma InvNext(s: State, e: Event)
    requires Inv(s) && Enabled(s, e)
    ensures Inv(After(s, e))
  {
    hide Inv;
    match e
    case Start(req) => InvStart(s, req);
    case Attach(i) => InvMove(s, e, i);
    case Run(i) => InvMove(s, e, i);
    case Finish(i, end) => InvMove(s, e, i);
    case Complete(i) => InvComplete(s, i);
    case Exit(i) => InvExit(s, i);
    case Cancel(i) => InvMark(s, i);
    case BeginShutdown => InvBegin(s);
    case SeeDrained(c) => InvCallMove(s, e, c);
    case TimeOut(c) => InvTarget(s, c, Second);
    case ContextOver(c) => InvTarget(s, c, Draining);
    case CancelTarget(c, i) => InvCancelTarget(s, c, i);
    case ReturnFrom(c, ok) => InvCallMove(s, e, c);
  }

  lemma InvMove(s: State, e: Event, i: nat)
    requires Inv(s) && Enabled(s, e)
    requires e == Attach(i) || e == Run(i) || (e.Finish? && e.i == i)
    ensures Inv(After(s, e))
  {
    hide LiveIff;
    hide CallsOk;
    ActorAt(s.actors, i);
    InvUpdate(s, i, After(s, e).actors[i]);
  }

  lemma InvCallMove(s: State, e: Event, c: nat)
    requires Inv(s) && Enabled(s, e) && (e == SeeDrained(c) || (e.ReturnFrom? && e.c == c))
    ensures Inv(After(s, e))
  {
    hide LiveIff;
    hide ActorsOk;
    CallAt(s, c);
    InvCall(s, c, After(s, e).calls[c]);
  }

  // ---------- what never goes back ----------

  function Rank(state: ActorState): nat {
    match state
    case Pending => 0
    case Running => 1
    case _ => 2
  }

  /** An actor only moves from pending to running to one final state, which stays; a
      cancel before the end makes that cancelled. */
  predicate ActorEvolves(a: Actor, b: Actor) {
    && a.id == b.id && Rank(a.state) <= Rank(b.state)
    && (a.cancelled ==> b.cancelled)
    && (a.finalized ==> b.finalized && b.state == a.state)
    && (a.cancelled && !a.finalized && b.finalized ==> b.state.Cancelled?)
  }

  predicate CallEvolves(a: Call, b: Call) {
    && (a.drained ==> b.drained)
    && (!a.phase.First? ==> !b.phase.First? && b.targets == a.targets)
    && (a.phase.Returned? ==> b.phase == a.phase)
  }

  ghost predicate ActorsEvolve(s: seq<Actor>, t: seq<Actor>) {
    |s| <= |t| && forall i :: 0 <= i < |s| ==> ActorEvolves(s[i], t[i])
  }

  ghost predicate CallsEvolve(s: seq<Call>, t: seq<Call>) {
    |s| <= |t| && forall c :: 0 <= c < |s| ==> CallEvolves(s[c], t[c])
  }

  ghost predicate Evolves(s: State, t: State) {
    && ActorsEvolve(s.actors, t.actors) && CallsEvolve(s.calls, t.calls)
    && (!s.accepting ==> !t.accepting && |t.actors| == |s.actors|)
    && s.cap == t.cap
  }

  lemma EvolvesTrans(s: State, t: State, u: State)
    requires Evolves(s, t) && Evolves(t, u)
    ensures Evolves(s, u)
  {
    forall i | 0 <= i < |s.actors| ensures ActorEvolves(s.actors[i], u.actors[i]) {
      assert ActorEvolves(s.actors[i], t.actors[i]) && ActorEvolves(t.actors[i], u.actors[i]);
    }
    forall c | 0 <= c < |s.calls| ensures CallEvolves(s.calls[c], u.calls[c]) {
      assert CallEvolves(s.calls[c], t.calls[c]) && CallEvolves(t.calls[c], u.calls[c]);
    }
  }

  lemma OneActorEvolves(actors: seq<Actor>, i: nat, a: Actor)
    requires i < |actors| && ActorEvolves(actors[i], a)
    ensures ActorsEvolve(actors, actors[i := a])
  {
  }

  lemma OneCallEvolves(calls: seq<Call>, c: nat, call: Call)
    requires c < |calls| && CallEvolves(calls[c], call)
    ensures CallsEvolve(calls, calls[c := call])
  {
  }

  // The actor a step concerns, if any, evolves.
  lemma ActorStep(s: State, e: Event)
    requires Inv(s) && Enabled(s, e)
    ensures ActorsEvolve(s.actors, After(s, e).actors)
  {
    hide LiveIff;
    hide CallsOk;
    match e
    case Attach(i) => OneActorEvolves(s.actors, i, After(s, e).actors[i]);
    case Run(i) => ActorAt(s.actors, i); OneActorEvolves(s.actors, i, After(s, e).actors[i]);
    case Finish(i, _) => ActorAt(s.actors, i); OneActorEvolves(s.actors, i, After(s, e).actors[i]);
    case Complete(i) => OneActorEvolves(s.actors, i, After(s, e).actors[i]);
    case Exit(i) => OneActorEvolves(s.actors, i, After(s, e).actors[i]);
    case Cancel(i) => OneActorEvolves(s.actors, i, After(s, e).actors[i]);
    case CancelTarget(_, i) => OneActorEvolves(s.actors, i, After(s, e).actors[i]);
    case _ =>
  }

  lemma CallStep(s: State, e: Event)
    requires Inv(s) && Enabled(s, e)
    ensures CallsEvolve(s.calls, After(s, e).calls)
  {
    hide LiveIff;
    hide ActorsOk;
    match e
    case SeeDrained(c) => OneCallEvolves(s.calls, c, After(s, e).calls[c]);
    case TimeOut(c) => OneCallEvolves(s.calls, c, After(s, e).calls[c]);
    case ContextOver(c) => OneCallEvolves(s.calls, c, After(s, e).calls[c]);
    case CancelTarget(c, _) => OneCallEvolves(s.calls, c, After(s, e).calls[c]);
    case ReturnFrom(c, _) => OneCallEvolves(s.calls, c, After(s, e).calls[c]);
    case _ =>
  }

  lemma StepEvolves(s: State, e: Event)
    requires Inv(s) && Enabled(s, e)
    ensures Evolves(s, After(s, e))
  {
    hide ActorsEvolve;
    hide CallsEvolve;
    hide Inv;
    ActorStep(s, e);
    CallStep(s, e);
  }

  // ---------- runs ----------

  ghost predicate IsRun(run: seq<State>, events: seq<Event>) {
    && |run| == |events| + 1 && Initial(run[0])
    && forall k :: 0 <= k < |events| ==> Enabled(run[k], events[k]) && run[k + 1] == After(run[k], events[k])
  }

  lemma {:induction false} RunInv(run: seq<State>, events: seq<Event>, k: nat)
    requires IsRun(run, events) && k < |run|
    ensures Inv(run[k])
  {
    if k > 0 {
      RunInv(run, events, k - 1);
      InvNext(run[k - 1], events[k - 1]);
    }
  }

  lemma {:induction false} RunEvolves(run: seq<State>, events: seq<Event>, j: nat, k: nat)
    requires IsRun(run, events) && j <= k < |run|
    ensures Evolves(run[j], run[k])
    decreases k
  {
    hide Inv;
    hide After;
    hide Enabled;
    if j < k {
      RunEvolves(run, events, j, k - 1);
      RunInv(run, events, k - 1);
      StepEvolves(run[k - 1], events[k - 1]);
      EvolvesTrans(run[j], run[k - 1], run[k]);
    }
  }

  // The actors whose session is still registered, by their place in the list.
  ghost function RegisteredOf(actors: seq<Actor>): set<nat> {
    set i: nat | i < |actors| && Registered(actors[i].stage)
  }

  lemma LiveAreRegistered(actors: seq<Actor>, live: map<SessionId, nat>)
    requires LiveIff(actors, live)
    ensures RegisteredOf(actors) == live.Values && |live.Values| == |live|
  {
    forall i: nat ensures i in RegisteredOf(actors) <==> i in live.Values {
      if i in RegisteredOf(actors) {
        assert live[actors[i].id] == i;
      }
    }
    ValuesCount(live);
  }

  lemma {:induction false} ValuesCount(live: map<SessionId, nat>)
    requires forall a, b :: a in live && b in live && live[a] == live[b] ==> a == b
    ensures |live.Values| == |live|
    decreases |live|
  {
    if id :| id in live {
      var rest := live - {id};
      LiveCount(live, id, 0);
      ValuesCount(rest);
      assert live.Values == rest.Values + {live[id]} by {
        forall v ensures v in live.Values <==> v in rest.Values || v == live[id] {
          if v in live.Values && v != live[id] {
            var a :| a in live && live[a] == v;
            assert a in rest && rest[a] == v;
          }
        }
      }
      assert live[id] !in rest.Values;
    } else {
      assert live.Values == {};
    }
  }

  /** At every point of every run the count is the number of registered actors, at
      most the cap. */
  lemma AtMostCap(run: seq<State>, events: seq<Event>, k: nat)
    requires IsRun(run, events) && k < |run|
    ensures run[k].activeCount == |RegisteredOf(run[k].actors)| <= run[0].cap
  {
    RunInv(run, events, k);
    RunEvolves(run, events, 0, k);
    LiveAreRegistered(run[k].actors, run[k].live);
  }

  /** At no point of any run do two registered actors have the same session. */
  lemma OneActorPerSession(run: seq<State>, events: seq<Event>, k: nat, i: nat, j: nat)
    requires IsRun(run, events) && k < |run| && i < j < |run[k].actors|
    requires Registered(run[k].actors[i].stage) && Registered(run[k].actors[j].stage)
    ensures run[k].actors[i].id != run[k].actors[j].id
  {
    RunInv(run, events, k);
  }

  /** Once an actor has a final state it keeps it, and a cancel before that makes it
      cancelled whatever its run returned. */
  lemma FinalState(run: seq<State>, events: seq<Event>, j: nat, k: nat, i: nat)
    requires IsRun(run, events) && j <= k < |run| && i < |run[j].actors|
    ensures i < |run[k].actors| && Rank(run[j].actors[i].state) <= Rank(run[k].actors[i].state)
    ensures run[j].actors[i].finalized ==>
      run[k].actors[i].finalized && run[k].actors[i].state == run[j].actors[i].state
    ensures run[j].actors[i].cancelled && !run[j].actors[i].finalized && run[k].actors[i].finalized ==>
      run[k].actors[i].state.Cancelled?
    ensures run[k].actors[i].finalized <==> run[k].actors[i].state in [Completed, Failed, Cancelled]
    ensures run[j].actors[i].state == Running ==> run[k].actors[i].state != Pending
  {
    RunEvolves(run, events, j, k);
    RunInv(run, events, k);
    ActorAt(run[k].actors, i);
    assert ActorEvolves(run[j].actors[i], run[k].actors[i]);
  }

  /** No start succeeds once a shutdown has begun. */
  lemma NoStartAfterShutdown(run: seq<State>, events: seq<Event>, j: nat, k: nat)
    requires IsRun(run, events) && j <= k < |run| && run[j].calls != []
    ensures |run[k].actors| == |run[j].actors| && !run[k].accepting
    ensures forall req :: !Admit(run[k], req).StartedActor?
  {
    RunInv(run, events, j);
    RunEvolves(run, events, j, k);
  }

  /** Once Shutdown has returned without error, no actor is registered and every
      goroutine is over, for good. */
  lemma ShutdownLeavesNone(run: seq<State>, events: seq<Event>, j: nat, k: nat, c: nat)
    requires IsRun(run, events) && j <= k < |run| && c < |run[j].calls| && run[j].calls[c].phase == Returned(true)
    ensures run[k].live == map[] && run[k].activeCount == 0 && run[k].waiting == 0
    ensures forall i :: 0 <= i < |run[k].actors| ==> run[k].actors[i].stage.Exited? && run[k].actors[i].finalized
  {
    RunInv(run, events, j);
    RunInv(run, events, k);
    CallAt(run[j], c);
    RunEvolves(run, events, j, k);
    assert CallEvolves(run[j].calls[c], run[k].calls[c]);
    CallAt(run[k], c);
    DrainedIsEmpty(run[k]);
  }

  lemma DrainedIsEmpty(s: State)
    requires Inv(s) && s.waiting == 0
    ensures s.live == map[] && s.activeCount == 0
    ensures forall i :: 0 <= i < |s.actors| ==> s.actors[i].stage.Exited? && s.actors[i].finalized
  {
    hide CallsOk;
    NoneLeft(s.actors);
    forall id ensures id !in s.live {
    }
    assert s.live.Keys == {};
    forall i | 0 <= i < |s.actors| ensures s.actors[i].finalized {
      ActorAt(s.actors, i);
    }
  }

  /** When Shutdown is back after a timeout or the end of its context, every actor
      registered at that moment has been cancelled: by FinalState one that had not
      ended before the mark ends cancelled. */
  lemma ShutdownCancels(run: seq<State>, events: seq<Event>, j: nat, k: nat, c: nat, i: nat)
    requires IsRun(run, events) && j < k < |run| && (events[j] == TimeOut(c) || events[j] == ContextOver(c))
    requires c < |run[k].calls| && run[k].calls[c].phase.Returned?
    requires i < |run[j].actors| && Registered(run[j].actors[i].stage)
    ensures i < |run[k].actors| && run[k].actors[i].cancelled
  {
    RunInv(run, events, j);
    RunEvolves(run, events, j + 1, k);
    assert CallEvolves(run[j + 1].calls[c], run[k].calls[c]);
    RunInv(run, events, k);
    CallAt(run[k], c);
  }

  // ---------- a shutdown is not stuck ----------

  function Left(stage: Stage): nat {
    match stage
    case Launched => 5
    case Attached => 4
    case Started => 3
    case Finished => 2
    case Removed => 1
    case Exited => 0
  }

  function StepsLeft(actors: seq<Actor>): nat {
    if actors == [] then 0 else StepsLeft(actors[..|actors| - 1]) + Left(actors[|actors| - 1].stage)
  }

  lemma {:induction false} StepsLeftUpdate(actors: seq<Actor>, i: nat, a: Actor)
    requires i < |actors|
    ensures StepsLeft(actors[i := a]) == StepsLeft(actors) - Left(actors[i].stage) + Left(a.stage)
  {
    var n := |actors| - 1;
    if i < n {
      assert actors[i := a][..n] == actors[..n][i := a];
      StepsLeftUpdate(actors[..n], i, a);
    } else {
      assert actors[i := a][..n] == actors[..n];
    }
  }

  lemma {:induction false} StepsLeftIff(actors: seq<Actor>)
    ensures StepsLeft(actors) == 0 <==> forall i :: 0 <= i < |actors| ==> actors[i].stage.Exited?
  {
    if actors != [] {
      var n := |actors| - 1;
      StepsLeftIff(actors[..n]);
      assert forall i :: 0 <= i < n ==> actors[..n][i] == actors[i];
      assert Left(actors[n].stage) == 0 <==> actors[n].stage.Exited?;
    }
  }

  // A step of the goroutine of an actor.
  predicate OwnStep(e: Event) {
    e.Attach? || e.Run? || e.Finish? || e.Complete? || e.Exit?
  }

  function OwnSteps(events: seq<Event>): nat {
    if events == [] then 0
    else OwnSteps(events[..|events| - 1]) + (if OwnStep(events[|events| - 1]) then 1 else 0)
  }

  // With no start admitted, actor steps use up what is left and nothing else does.
  lemma StepCounts(s: State, e: Event)
    requires Enabled(s, e) && !s.accepting
    ensures StepsLeft(After(s, e).actors) + (if OwnStep(e) then 1 else 0) == StepsLeft(s.actors)
  {
    if OwnStep(e) || e.Cancel? || e.CancelTarget? {
      assert e.i < |s.actors|;
      hide *;
      StepsLeftUpdate(s.actors, e.i, After(s, e).actors[e.i]);
    } else {
    }
  }

  /** The wait group is empty exactly when no actor has a step left, which is exactly
      when no actor step can be taken. */
  lemma DrainedIff(s: State)
    requires Inv(s)
    ensures s.waiting == 0 <==> StepsLeft(s.actors) == 0
    ensures s.waiting == 0 <==> forall e :: OwnStep(e) ==> !Enabled(s, e)
  {
    StepsLeftIff(s.actors);
    if s.waiting == 0 {
      NoneLeft(s.actors);
    } else {
      var i := SomeLeft(s.actors);
      NextStep(s, i);
    }
  }

  lemma NextStep(s: State, i: nat)
    requires i < |s.actors| && !s.actors[i].stage.Exited?
    ensures exists e :: OwnStep(e) && Enabled(s, e)
  {
    var e := match s.actors[i].stage
      case Launched => Attach(i)
      case Attached => Run(i)
      case Started => Finish(i, RunEnd(Succeeded, NoError))
      case Finished => Complete(i)
      case _ => Exit(i);
    assert OwnStep(e) && Enabled(s, e);
  }

  lemma {:induction false} SomeLeft(actors: seq<Actor>) returns (i: nat)
    requires NotExited(actors) > 0
    ensures i < |actors| && !actors[i].stage.Exited?
  {
    if actors[|actors| - 1].stage.Exited? {
      i := SomeLeft(actors[..|actors| - 1]);
    } else {
      i := |actors| - 1;
    }
  }

  // With no start admitted any more, every step of an actor uses up one that was left.
  lemma {:induction false} StepsUsed(run: seq<State>, events: seq<Event>, j: nat, k: nat)
    requires IsRun(run, events) && j <= k <= |events| && |run| == |events| + 1 && run[j].calls != []
    ensures OwnSteps(events[j..k]) + StepsLeft(run[k].actors) == StepsLeft(run[j].actors)
    decreases k
  {
    hide *;
    if j < k {
      StepsUsed(run, events, j, k - 1);
      NoStartAfterShutdown(run, events, j, k - 1);
      StepAt(run, events, k - 1);
      StepCounts(run[k - 1], events[k - 1]);
      OneMore(events, j, k - 1);
    } else {
      NoStepsYet(events, j);
    }
  }

  /** From the begin of a shutdown on, the actors take as many steps as were left, in
      whatever order, whatever the runs return and whatever clients and shutdowns do
      in between; the wait group is empty exactly when they have taken all of them. */
  lemma ActorsDrain(run: seq<State>, events: seq<Event>, j: nat, k: nat)
    requires IsRun(run, events) && j <= k < |run| && run[j].calls != []
    ensures OwnSteps(events[j..k]) + StepsLeft(run[k].actors) == StepsLeft(run[j].actors)
    ensures run[k].waiting == 0 <==> OwnSteps(events[j..k]) == StepsLeft(run[j].actors)
  {
    RunInv(run, events, k);
    DrainedIff(run[k]);
    StepsUsed(run, events, j, k);
    hide Inv;
    hide StepsLeft;
    hide OwnSteps;
  }

  lemma StepAt(run: seq<State>, events: seq<Event>, k: nat)
    requires IsRun(run, events) && k < |events|
    ensures |run| == |events| + 1 && Enabled(run[k], events[k]) && run[k + 1] == After(run[k], events[k])
  {
  }

  lemma OneMore(events: seq<Event>, j: nat, k: nat)
    requires j <= k < |events|
    ensures OwnSteps(events[j..k + 1]) == OwnSteps(events[j..k]) + if OwnStep(events[k]) then 1 else 0
  {
    assert events[j..k + 1][..k - j] == events[j..k];
  }

  lemma NoStepsYet(events: seq<Event>, j: nat)
    requires j <= |events|
    ensures OwnSteps(events[j..j]) == 0
  {
  }

  /** Then every call of Shutdown can return: it marks what it still has to cancel, sees
      the actors gone, and is back, with an error only if its context was over. */
  lemma DrainedReturns(s: State, c: nat)
    requires Inv(s) && s.waiting == 0 && c < |s.calls| && !s.calls[c].phase.Returned?
    ensures forall i :: i in s.calls[c].pending ==>
      && Enabled(s, CancelTarget(c, i)) && After(s, CancelTarget(c, i)).waiting == 0
      && After(s, CancelTarget(c, i)).calls[c].pending == s.calls[c].pending - {i}
    ensures s.calls[c].pending == {} ==>
      && Enabled(s, SeeDrained(c))
      && Enabled(After(s, SeeDrained(c)), ReturnFrom(c, !s.calls[c].phase.Draining?))
  {
    CallAt(s, c);
  }
}

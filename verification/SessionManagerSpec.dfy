/** The session manager as a transition system (internal/runtime/session_manager.go):
    every critical section is one step, in any interleaving of the goroutines of the
    actors, of clients that start and cancel, and of calls of Shutdown. */
module SessionManagerSpec {
  import opened Common

  type SessionId = string

  datatype ActorState = Pending | Running | Completed | Failed | Cancelled

  // How far the goroutine of an actor has come.
  datatype Stage = Launched | Attached | Started | Finished | Removed | Exited

  datatype SessionStatus =
    | Succeeded
    | Blocked
    | Interrupted
    | FatalError
    | VerificationFailed
    | BudgetExceeded
    | OtherStatus

  datatype RunError = NoError | ContextError | OtherError

  // What a run returned; a runner that cannot be built is an error.
  datatype RunEnd = RunEnd(status: SessionStatus, error: RunError)

  datatype Actor = Actor(
    id: SessionId,
    stage: Stage,
    state: ActorState,
    finalized: bool,
    cancelled: bool,
    hasCancel: bool,     // the cancel function of its context is attached
    interrupted: bool)   // and was called

  // A call of Shutdown: the set to cancel, what is left of it, and whether the
  // goroutine that waits for the actors has seen them all gone.
  datatype Call = Call(phase: Phase, targets: set<nat>, pending: set<nat>, drained: bool)

  // Waiting in the first or, after the timeout, the second select; or, its context
  // over in the first, waiting for the actors; or back.
  datatype Phase = First | Second | Draining | Returned(ok: bool)

  datatype State = State(
    actors: seq<Actor>,      // every actor ever started
    live: map<SessionId, nat>,      // the registered ones, by session
    activeCount: int,
    accepting: bool,
    waiting: int,            // the wait group
    cap: int,
    calls: seq<Call>)

  datatype Request = Request(sessionID: SessionId, taskID: string, hasRunner: bool)

  datatype RequestFault = NoRunner | NoTaskId | NoSessionId | IdsDiffer

  datatype StartOutcome = StartedActor | Invalid(fault: RequestFault) | Closed | AlreadyActive | LimitReached

  datatype Event =
    | Start(req: Request)
    | Attach(i: nat)
    | Run(i: nat)
    | Finish(i: nat, end: RunEnd)
    | Complete(i: nat)
    | Exit(i: nat)
    | Cancel(i: nat)
    | BeginShutdown
    | SeeDrained(c: nat)
    | TimeOut(c: nat)
    | ContextOver(c: nat)
    | CancelTarget(c: nat, i: nat)
    | ReturnFrom(c: nat, ok: bool)

  /** A cancel before the end wins over whatever the run returned. */
  function Classify(end: RunEnd, cancelled: bool): (state: ActorState)
    ensures state == Cancelled <==> cancelled || end.error == ContextError || end.status == Interrupted
    ensures state == Failed <==>
      && !cancelled && end.status != Interrupted
      && (end.error == OtherError
          || (end.error == NoError && end.status in [FatalError, VerificationFailed, BudgetExceeded]))
    ensures state == Cancelled || state == Failed || state == Completed
  {
    if cancelled || end.error.ContextError? || end.status.Interrupted? then Cancelled
    else if !end.error.NoError? then Failed
    else match end.status
      case FatalError => Failed
      case VerificationFailed => Failed
      case BudgetExceeded => Failed
      case _ => Completed
  }

  /** A request needs a runner and one identifier, not empty, for task and session. */
  function FaultOf(req: Request): (fault: Option<RequestFault>)
    ensures fault.None? <==> req.hasRunner && req.taskID == req.sessionID != ""
    ensures fault == Some(NoRunner) <==> !req.hasRunner
    ensures fault == Some(NoTaskId) <==> req.hasRunner && req.taskID == ""
    ensures fault == Some(NoSessionId) <==> req.hasRunner && req.taskID != "" && req.sessionID == ""
    ensures fault == Some(IdsDiffer) <==>
      req.hasRunner && req.taskID != "" && req.sessionID != "" && req.taskID != req.sessionID
  {
    if !req.hasRunner then Some(NoRunner)
    else if req.taskID == "" then Some(NoTaskId)
    else if req.sessionID == "" then Some(NoSessionId)
    else if req.taskID != req.sessionID then Some(IdsDiffer)
    else None
  }

  function Admit(s: State, req: Request): StartOutcome {
    var id, fault := req.sessionID, FaultOf(req);
    if fault.Some? then Invalid(fault.value)
    else if !s.accepting then Closed
    else if id in s.live then AlreadyActive
    else if s.activeCount >= s.cap then LimitReached
    else StartedActor
  }

  predicate At(s: State, i: nat, stage: Stage) {
    i < |s.actors| && s.actors[i].stage == stage
  }

  predicate Enabled(s: State, e: Event) {
    match e
    case Start(_) => true
    case Attach(i) => At(s, i, Launched)
    case Run(i) => At(s, i, Attached)
    case Finish(i, _) => At(s, i, Started)
    case Complete(i) => At(s, i, Finished)
    case Exit(i) => At(s, i, Removed)
    case Cancel(i) => i < |s.actors|
    case BeginShutdown => true
    case SeeDrained(c) => c < |s.calls| && s.waiting == 0
    case TimeOut(c) => c < |s.calls| && s.calls[c].phase.First?
    case ContextOver(c) => c < |s.calls| && s.calls[c].phase.First?
    case CancelTarget(c, i) => c < |s.calls| && i in s.calls[c].pending && i < |s.actors|
    case ReturnFrom(c, ok) => c < |s.calls| && s.calls[c].pending == {} && MayReturn(s.calls[c], ok)
  }

  // With no error only when the actors are seen gone; with the context's error at
  // once after the timeout, or when they are gone.
  predicate MayReturn(call: Call, ok: bool) {
    match call.phase
    case First => ok && call.drained
    case Second => ok ==> call.drained
    case Draining => !ok && call.drained
    case Returned(_) => false
  }

  function MarkCancelled(a: Actor): Actor {
    a.(cancelled := true, interrupted := a.interrupted || a.hasCancel)
  }

  function NewActor(id: SessionId): Actor {
    Actor(id, Launched, Pending, false, false, false, false)
  }

  function After(s: State, e: Event): State
    requires Enabled(s, e)
  {
    match e
    case Start(req) =>
      var id := req.sessionID;
      if !Admit(s, req).StartedActor? then s
      else s.(
        actors := s.actors + [NewActor(id)],
        live := s.live[id := |s.actors|],
        activeCount := s.activeCount + 1,
        waiting := s.waiting + 1)
    case Attach(i) => s.(actors := s.actors[i := s.actors[i].(stage := Attached, hasCancel := true)])
    case Run(i) => s.(actors := s.actors[i := s.actors[i].(stage := Started, state := Running)])
    case Finish(i, end) =>
      var state := Classify(end, s.actors[i].cancelled);
      s.(actors := s.actors[i := s.actors[i].(stage := Finished, state := state, finalized := true)])
    case Complete(i) =>
      s.(
        actors := s.actors[i := s.actors[i].(stage := Removed)],
        live := s.live - {s.actors[i].id},
        activeCount := if s.activeCount > 0 then s.activeCount - 1 else s.activeCount)
    case Exit(i) =>
      s.(actors := s.actors[i := s.actors[i].(stage := Exited)], waiting := s.waiting - 1)
    case Cancel(i) => s.(actors := s.actors[i := MarkCancelled(s.actors[i])])
    case BeginShutdown => s.(accepting := false, calls := s.calls + [Call(First, {}, {}, false)])
    case SeeDrained(c) => s.(calls := s.calls[c := s.calls[c].(drained := true)])
    case TimeOut(c) => s.(calls := s.calls[c := Targeting(s, c, Second)])
    case ContextOver(c) => s.(calls := s.calls[c := Targeting(s, c, Draining)])
    case CancelTarget(c, i) =>
      s.(actors := s.actors[i := MarkCancelled(s.actors[i])],
         calls := s.calls[c := s.calls[c].(pending := s.calls[c].pending - {i})])
    case ReturnFrom(c, ok) => s.(calls := s.calls[c := s.calls[c].(phase := Returned(ok))])
  }

  // All registered actors are to be cancelled.
  function Targeting(s: State, c: nat, phase: Phase): Call
    requires c < |s.calls|
  {
    s.calls[c].(phase := phase, targets := s.live.Values, pending := s.live.Values)
  }

  predicate Initial(s: State) {
    && s.actors == [] && s.live == map[] && s.activeCount == 0 && s.waiting == 0
    && s.accepting && s.cap >= 1 && s.calls == []
  }

  // ---------- the invariant ----------

  predicate Registered(stage: Stage) {
    !stage.Removed? && !stage.Exited?
  }

  // An actor's fields say how far its goroutine has come.
  predicate Consistent(a: Actor) {
    && (a.stage.Launched? || a.stage.Attached? ==> a.state.Pending?)
    && (a.stage.Started? ==> a.state.Running?)
    && (a.finalized <==> a.stage.Finished? || a.stage.Removed? || a.stage.Exited?)
    && (a.finalized ==> !a.state.Pending? && !a.state.Running?)
    && (a.hasCancel <==> !a.stage.Launched?)
    && (a.interrupted ==> a.cancelled)
  }

  function NotExited(actors: seq<Actor>): nat {
    if actors == [] then 0
    else NotExited(actors[..|actors| - 1]) + (if actors[|actors| - 1].stage.Exited? then 0 else 1)
  }

  // live holds exactly the registered actors, each under its id.
  ghost predicate LiveIff(actors: seq<Actor>, live: map<SessionId, nat>) {
    && (forall id :: id in live ==>
      live[id] < |actors| && actors[live[id]].id == id && Registered(actors[live[id]].stage))
    && (forall i :: 0 <= i < |actors| && Registered(actors[i].stage) ==>
      actors[i].id in live && live[actors[i].id] == i)
  }

  ghost predicate ActorsOk(actors: seq<Actor>) {
    forall i :: 0 <= i < |actors| ==> Consistent(actors[i])
  }

  predicate CallOk(call: Call, actors: seq<Actor>, waiting: int) {
    && (call.drained ==> waiting == 0)
    && (call.phase == Returned(true) ==> call.drained)
    && call.pending <= call.targets && (call.phase.Returned? ==> call.pending == {})
    && (forall i :: i in call.targets ==> i < |actors| && (i !in call.pending ==> actors[i].cancelled))
  }

  ghost predicate CallsOk(calls: seq<Call>, actors: seq<Actor>, waiting: int) {
    forall c :: 0 <= c < |calls| ==> CallOk(calls[c], actors, waiting)
  }

  ghost predicate Inv(s: State) {
    && s.activeCount == |s.live| <= s.cap
    && s.waiting == NotExited(s.actors)
    && LiveIff(s.actors, s.live) && ActorsOk(s.actors)
    && CallsOk(s.calls, s.actors, s.waiting) && (s.accepting <==> s.calls == [])
  }
}

/** The bounded concurrent execution of one decomposition as a transition system:
    the coordinating loop, one goroutine per launched subtask, the semaphore, the
    results channel and the error group, interleaved arbitrarily
    (executeDecomposition and runWorker in internal/orchestration/orchestrator.go). */
module Executor {
  import opened Graph
  import opened Decomposition
  import opened ExecutorCounters
  import Spec = SchedulerSpec

  datatype Config = Config(ids: seq<Id>, occurrences: seq<Edge>, maxWorkers: nat) {
    ghost function Edges(): set<Edge> {
      EdgeSet(occurrences)
    }

    ghost predicate Ok() {
      && ids != [] && Distinct(ids) && maxWorkers >= 1
      && EdgesWithin(ids, Edges()) && Acyclic(Edges())
    }
  }

  // Where the goroutine of a subtask is. The error group records an error and
  // cancels the worker context when a goroutine exits without ok.
  datatype Phase =
    | Idle                     // not launched
    | Launched                 // waiting for the semaphore or for cancellation
    | Acquired                 // holds a token, selecting its worker
    | Running                  // worker registered
    | HasResult(ok: bool)      // worker finished and unregistered
    | Sent(ok: bool)           // result in the channel, token still held
    | Released(ok: bool)       // token returned
    | Abandoned                // saw the cancellation instead of a token
    | Exited(ok: bool)

  datatype Coordinator =
    | Looping
    | WaitingCancelled         // saw the worker context done
    | WaitingFailed            // received a failed result
    | WaitingDone              // received every result
    | Returned(ok: bool)

  type Result = (Id, bool)

  datatype State = State(
    phase: map<Id, Phase>,
    log: seq<Result>,          // every result sent so far, oldest first
    taken: nat,                // how many of them were received
    tokens: int,               // occupied semaphore slots
    workers: set<Id>,          // the registered workers
    parentCancelled: bool,
    cancelled: bool,           // the worker context is done
    groupFailed: bool,         // the error group holds an error
    coord: Coordinator,
    remaining: map<Id, int>,
    started: set<Id>,
    toLaunch: seq<Id>)         // enabled by the coordinator, not launched yet

  // Go(v, p) is one step of the goroutine of v, to phase p.
  datatype Step =
    | Launch
    | Go(v: Id, p: Phase)
    | CancelParent
    | Receive
    | ObserveCancel
    | FinishLoop
    | WaitReturn

  predicate Holding(p: Phase) {
    p.Acquired? || p.Running? || p.HasResult? || p.Sent?
  }

  ghost predicate Quiet(phase: map<Id, Phase>) {
    forall v :: v in phase ==> phase[v].Idle? || phase[v].Exited?
  }

  ghost predicate Waiting(coord: Coordinator) {
    coord.WaitingCancelled? || coord.WaitingFailed? || coord.WaitingDone?
  }

  ghost function AfterLaunch(s: State): State
    requires s.toLaunch != []
  {
    var v := s.toLaunch[0];
    if v in s.started then s.(toLaunch := s.toLaunch[1..])
    else s.(phase := s.phase[v := Launched], toLaunch := s.toLaunch[1..], started := s.started + {v})
  }

  // What the goroutine of v can do next. Waiting for a token and seeing the
  // cancellation race; a send needs room in the channel, which is as large as the
  // decomposition; the worker's outcome is arbitrary.
  ghost predicate CanGo(c: Config, s: State, v: Id, p: Phase)
    requires v in s.phase
  {
    match s.phase[v]
    case Launched => (p == Acquired && s.tokens < c.maxWorkers) || (p == Abandoned && s.cancelled)
    case Acquired => p == Running || p == HasResult(false)
    case Running => p.HasResult?
    case HasResult(ok) => p == Sent(ok) && |s.log| - s.taken < |c.ids|
    case Sent(ok) => p == Released(ok)
    case Released(ok) => p == Exited(ok)
    case Abandoned => p == Exited(false)
    case _ => false
  }

  ghost function AfterGo(s: State, v: Id, p: Phase): State {
    s.(phase := s.phase[v := p],
       tokens := if p.Acquired? then s.tokens + 1 else if p.Released? then s.tokens - 1 else s.tokens,
       workers := if p.Running? then s.workers + {v} else if p.HasResult? then s.workers - {v} else s.workers,
       log := if p.Sent? then s.log + [(v, p.ok)] else s.log,
       groupFailed := s.groupFailed || p == Exited(false),
       cancelled := s.cancelled || p == Exited(false))
  }

  ghost predicate ReceiveStep(c: Config, s: State, t: State) {
    && s.coord.Looping? && s.toLaunch == [] && s.taken < |c.ids| && s.taken < |s.log|
    && var p := s.log[s.taken];
      if !p.1 then t == s.(taken := s.taken + 1, coord := WaitingFailed)
      else
        && t == s.(taken := s.taken + 1, remaining := t.remaining, toLaunch := t.toLaunch)
        && CountedDown(Targets(c.occurrences, p.0), s.remaining, t.remaining, t.toLaunch)
  }

  ghost predicate Next(c: Config, s: State, step: Step, t: State) {
    match step
    case Launch => s.coord.Looping? && s.toLaunch != [] && t == AfterLaunch(s)
    case Go(v, p) => v in s.phase && CanGo(c, s, v, p) && t == AfterGo(s, v, p)
    case CancelParent => !s.parentCancelled && t == s.(parentCancelled := true, cancelled := true)
    case Receive => ReceiveStep(c, s, t)
    case ObserveCancel =>
      && s.coord.Looping? && s.toLaunch == [] && s.taken < |c.ids| && s.cancelled
      && t == s.(coord := WaitingCancelled)
    case FinishLoop =>
      s.coord.Looping? && s.toLaunch == [] && s.taken == |c.ids| && t == s.(coord := WaitingDone)
    case WaitReturn =>
      && Waiting(s.coord) && Quiet(s.phase)
      && t == s.(coord := Returned(!s.coord.WaitingCancelled? && !s.groupFailed))
  }

  ghost predicate IsInit(c: Config, s: State) {
    && s.phase == (map v | v in c.ids :: Idle)
    && s.log == [] && s.taken == 0 && s.tokens == 0 && s.workers == s.started == {}
    && !s.parentCancelled && !s.cancelled && !s.groupFailed && s.coord == Looping
    && CountsAre(Elems(c.ids), c.occurrences, {}, s.remaining)
    && s.toLaunch == InOrder(c.ids, Spec.Init(c.ids, c.Edges()).ready)
  }

  ghost predicate IsRun(c: Config, states: seq<State>, steps: seq<Step>) {
    && |states| == |steps| + 1 && IsInit(c, states[0])
    && forall i :: 0 <= i < |steps| ==> Next(c, states[i], steps[i], states[i + 1])
  }

  // ---------- the invariant ----------

  ghost function Names(log: seq<Result>): set<Id> {
    set p | p in log :: p.0
  }

  // The subtasks whose successful results are in log.
  ghost function Successes(log: seq<Result>): set<Id> {
    set p | p in log && p.1 :: p.0
  }

  ghost predicate AllOk(log: seq<Result>) {
    forall p :: p in log ==> p.1
  }

  ghost function Received(s: State): seq<Result>
    requires s.taken <= |s.log|
  {
    s.log[..s.taken]
  }

  ghost predicate Reported(p: Phase, ok: bool) {
    p == Sent(ok) || p == Released(ok) || p == Exited(ok)
  }

  ghost function Holders(phase: map<Id, Phase>): set<Id> {
    set v | v in phase && Holding(phase[v])
  }

  ghost predicate Shape(c: Config, s: State) {
    && s.phase.Keys == Elems(c.ids)
    && (forall v :: v in s.phase ==> (v in s.started <==> !s.phase[v].Idle?))
    && (forall v :: v in s.phase ==> (v in s.workers <==> s.phase[v].Running?))
    && s.started <= s.phase.Keys && s.workers <= s.phase.Keys
  }

  ghost predicate Slots(c: Config, s: State) {
    s.tokens == |Holders(s.phase)| <= c.maxWorkers
  }

  ghost predicate DistinctNames(log: seq<Result>) {
    forall i, j :: 0 <= i < j < |log| ==> log[i].0 != log[j].0
  }

  // What the channel holds and what the goroutines have sent agree.
  ghost predicate Mail(s: State) {
    && s.taken <= |s.log| && DistinctNames(s.log)
    && (forall p :: p in s.log ==> p.0 in s.phase && Reported(s.phase[p.0], p.1))
    && (forall v :: v in s.phase && (s.phase[v].Sent? || s.phase[v].Released?) ==> (v, s.phase[v].ok) in s.log)
    && (forall v :: v in s.phase && s.phase[v] == Exited(true) ==> (v, true) in s.log)
  }

  ghost predicate Counts(c: Config, s: State)
    requires s.taken <= |s.log|
  {
    CountsAre(Elems(c.ids), c.occurrences, Successes(Received(s)), s.remaining)
  }

  // Exactly the subtasks whose predecessors all succeeded are launched or about to be.
  ghost predicate Launches(c: Config, s: State)
    requires s.taken <= |s.log|
  {
    var done := Successes(Received(s));
    && Distinct(s.toLaunch) && Elems(s.toLaunch) * s.started == {}
    && (forall v :: v in s.started || v in s.toLaunch <==> v in c.ids && Preds(c.Edges(), v) <= done)
  }

  ghost predicate Coordination(c: Config, s: State)
    requires s.taken <= |s.log|
  {
    && s.taken <= |c.ids|
    && (s.toLaunch != [] ==> s.coord.Looping?)
    && (s.coord.Looping? || s.coord.WaitingCancelled? || s.coord.WaitingDone? ==> AllOk(Received(s)))
    && (s.coord.WaitingFailed? ==> !AllOk(Received(s)))
    && (s.coord.WaitingCancelled? ==> s.taken < |c.ids| && s.cancelled)
    && (s.coord.WaitingDone? ==> s.taken == |c.ids|)
    && (s.coord.Returned? ==> Quiet(s.phase) && (s.coord.ok <==> s.taken == |c.ids| && AllOk(Received(s))))
    && (s.coord.Returned? && !s.coord.ok ==> s.cancelled)
  }

  ghost predicate Cancellation(s: State) {
    && (s.groupFailed <==> exists v :: v in s.phase && s.phase[v] == Exited(false))
    && (s.cancelled <==> s.parentCancelled || s.groupFailed)
    && ((exists v :: v in s.phase && s.phase[v].Abandoned?) ==> s.cancelled)
    && (s.groupFailed && !s.parentCancelled ==> !AllOk(s.log))
  }

  ghost predicate Inv(c: Config, s: State) {
    && Shape(c, s) && Slots(c, s) && Mail(s)
    && Counts(c, s) && Launches(c, s) && Coordination(c, s) && Cancellation(s)
  }
}

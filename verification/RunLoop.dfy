/** The bounded plan, execute and verify loop of a session
    (Engine.Run in internal/runtime/runtime.go). The agent, its tools, the verifier,
    the clock and the store's failures are a fixed but arbitrary World. */
module RunLoop {
  import opened Common

  datatype Status =
    | Running
    | Success
    | BlockedInput
    | VerificationFailed
    | BudgetExceeded
    | Interrupted
    | FatalError

  // An error that says the context ended, or any other.
  datatype Failure = ContextEnded | Broken

  datatype Answer<T> = Got(value: T) | Fails(failure: Failure)

  datatype ActionKind = RequestInput | ToolCall | OtherAction

  // What the agent and the verifier do in one iteration; the verdict is whether it passed.
  datatype Turn = Turn(action: Answer<ActionKind>, observes: Answer<bool>, verdict: Answer<bool>)

  datatype World = World(
    ready: bool,                    // dependencies present and the strategy resolved
    turn: nat -> Turn,
    contextDone: nat -> bool,       // before the i-th iteration
    pastDeadline: nat -> bool,
    planFails: nat -> bool,
    saveFails: nat -> bool,
    appendFails: nat -> bool,
    rememberFails: nat -> bool,
    emitFails: nat -> bool)         // the e-th event emitted by the run

  datatype Step = Step(index: nat, action: ActionKind, passed: bool)

  datatype Event =
    | ToolStart(index: nat)
    | ToolEnd(index: nat)
    | StepComplete(index: nat)
    | ErrorRaised(index: nat)
    | SessionComplete(status: Status)

  datatype Cause =
    | NoCause
    | RetryBudget
    | ContextDone
    | DeadlineExceeded
    | Plan                     // making the next plan failed
    | Emission                 // announcing it failed
    | Iteration(f: Failure)
    | Record

  // How many steps and how many retries a run may take.
  datatype Budget = Budget(steps: int, retries: int)

  // Aborted: nothing but an error is returned.
  datatype Result = Aborted | Ended(status: Status, steps: seq<Step>, cause: Cause)

  datatype Outcome = Continues | Terminal(status: Status)

  /** A request for input blocks the session whatever the verification says; a pass
      ends it in success. */
  function DecideIterationOutcome(action: ActionKind, passed: bool): (o: Outcome)
    ensures o == Terminal(BlockedInput) <==> action.RequestInput?
    ensures o == Terminal(Success) <==> !action.RequestInput? && passed
    ensures o.Terminal? ==> o.status.BlockedInput? || o.status.Success?
  {
    match action
    case RequestInput => Terminal(BlockedInput)
    case _ => if passed then Terminal(Success) else Continues
  }

  // ---------- what a run announces ----------

  function PlanAnnounced(n: nat): Event {
    StepComplete(if n == 0 then 0 else n + 1)
  }

  // What an iteration announces: the tool's start and end, if one is used, and the step.
  function Announcements(step: Step): seq<Event> {
    (if step.action.ToolCall? then [ToolStart(step.index), ToolEnd(step.index)] else []) + [StepComplete(step.index)]
  }

  /** Everything announced by a run that has taken these steps, in order. */
  function Trace(steps: seq<Step>): seq<Event> {
    if steps == [] then []
    else
      var n := |steps| - 1;
      Trace(steps[..n]) + [PlanAnnounced(n)] + Announcements(steps[n])
  }

  /** Before each step its plan is announced, as number 0 for the first and else as one
      more than the step; then the tool's start and end, if it uses one, and the step. */
  lemma TraceIs(steps: seq<Step>, step: Step)
    ensures Trace([]) == []
    ensures
      var n := |steps|;
      Trace(steps + [step]) == Trace(steps) + [StepComplete(if n == 0 then 0 else n + 1)]
        + if step.action == ToolCall then [ToolStart(step.index), ToolEnd(step.index), StepComplete(step.index)]
          else [StepComplete(step.index)]
  {
    TraceMore(steps, step);
    AnnouncedIs(|steps|, step);
    hide *;
  }

  lemma AnnouncedIs(n: nat, step: Step)
    ensures PlanAnnounced(n) == StepComplete(if n == 0 then 0 else n + 1)
    ensures Announcements(step) ==
      if step.action == ToolCall then [ToolStart(step.index), ToolEnd(step.index), StepComplete(step.index)]
      else [StepComplete(step.index)]
  {
  }

  // The iterations the verifier was asked about.
  function AskedOf(steps: seq<Step>): seq<nat> {
    if steps == [] then []
    else
      var n := |steps| - 1;
      AskedOf(steps[..n]) + (if steps[n].action.RequestInput? then [] else [n])
  }

  predicate NoCompletion(events: seq<Event>) {
    forall e :: e in events ==> !e.SessionComplete?
  }

  lemma {:induction false} TraceIsOpen(steps: seq<Step>)
    ensures NoCompletion(Trace(steps))
  {
    if steps != [] {
      TraceIsOpen(steps[..|steps| - 1]);
    }
  }

  /** The verifier is asked once about every iteration that took a step, a request for
      input excepted, and in order. */
  lemma {:induction false} AskedAre(steps: seq<Step>)
    ensures forall k :: k in AskedOf(steps) <==> 0 <= k < |steps| && !steps[k].action.RequestInput?
    ensures forall i, j :: 0 <= i < j < |AskedOf(steps)| ==> AskedOf(steps)[i] < AskedOf(steps)[j]
  {
    if steps != [] {
      var n := |steps| - 1;
      AskedAre(steps[..n]);
      assert forall i :: 0 <= i < |AskedOf(steps[..n])| ==> AskedOf(steps[..n])[i] in AskedOf(steps[..n]);
    }
  }

  // ---------- what the world makes of an iteration ----------

  /** The first thing to fail in iteration k when the base-th event is the next one. */
  function FirstFailure(w: World, k: nat, base: nat): Option<Failure> {
    var t := w.turn(k);
    if t.action.Fails? then Some(t.action.failure)
    else
      var tool := t.action.value.ToolCall?;
      if tool && (w.emitFails(base) || w.emitFails(base + 1)) then Some(Broken)
      else if t.observes.Fails? then Some(t.observes.failure)
      else if w.emitFails(base + if tool then 2 else 0) then Some(Broken)
      else if !t.action.value.RequestInput? && t.verdict.Fails? then Some(t.verdict.failure)
      else None
  }

  // The step the agent and the verifier make of iteration k; input requests are
  // never put to the verifier.
  predicate Answers(w: World, k: nat, base: nat, step: Step) {
    var t := w.turn(k);
    && FirstFailure(w, k, base).None?
    && step.index == k + 1 && t.action == Got(step.action)
    && if step.action.RequestInput? then !step.passed else t.verdict == Got(step.passed)
  }

  // The next plan is made and announced.
  predicate PlanMade(w: World, steps: seq<Step>) {
    !w.planFails(|steps|) && !w.emitFails(|Trace(steps)|)
  }

  // The next iteration is reached: there is a plan, the context is alive, time is left.
  predicate Entered(w: World, steps: seq<Step>) {
    PlanMade(w, steps) && !w.contextDone(|steps|) && !w.pastDeadline(|steps|)
  }

  // The world answers the steps so far with this one.
  predicate Follows(w: World, steps: seq<Step>, step: Step) {
    Entered(w, steps) && Answers(w, |steps|, |Trace(steps)| + 1, step)
  }

  predicate RecordingWorks(w: World, k: nat) {
    !w.appendFails(k) && !w.rememberFails(k + 1)
  }

  predicate Ends(step: Step) {
    DecideIterationOutcome(step.action, step.passed).Terminal?
  }

  predicate Recorded(w: World, steps: seq<Step>) {
    forall k :: 0 <= k < |steps| ==> Follows(w, steps[..k], steps[k]) && RecordingWorks(w, k)
  }

  predicate Unfinished(steps: seq<Step>) {
    forall k :: 0 <= k < |steps| ==> !Ends(steps[k])
  }

  // ---------- why a run ends ----------

  /** What in the world makes a run stop with this cause after these steps: of several
      things that fail, the first. */
  predicate Caused(w: World, steps: seq<Step>, cause: Cause) {
    var n := |steps|;
    match cause
    case NoCause => true
    case RetryBudget => true
    case Plan => w.planFails(n)
    case Emission => !w.planFails(n) && w.emitFails(|Trace(steps)|)
    case ContextDone => PlanMade(w, steps) && w.contextDone(n)
    case DeadlineExceeded => PlanMade(w, steps) && !w.contextDone(n) && w.pastDeadline(n)
    case Iteration(f) => Entered(w, steps) && FirstFailure(w, n, |Trace(steps)| + 1) == Some(f)
    case Record => n > 0 && !RecordingWorks(w, n - 1)
  }

  /** The steps are what the world answers, all recorded but for the last when that
      is the cause of the end, and the world gives the cause. */
  predicate Traced(w: World, steps: seq<Step>, cause: Cause) {
    var n := |steps|;
    && Caused(w, steps, cause)
    && if cause.Record? then
         n > 0 && Recorded(w, steps[..n - 1]) && Follows(w, steps[..n - 1], steps[n - 1])
       else Recorded(w, steps)
  }

  // The causes that end a run between two steps, and the status each leads to.
  predicate CutBy(status: Status, cause: Cause) {
    || (status.Interrupted? && (cause.ContextDone? || cause.DeadlineExceeded? || cause == Iteration(ContextEnded)))
    || (status.FatalError? && (cause.Plan? || cause.Emission? || cause == Iteration(Broken)))
  }

  // Why a run with these steps may end so within the budget.
  predicate Justified(steps: seq<Step>, status: Status, cause: Cause, b: Budget) {
    var n := |steps|;
    match status
    case Running => false
    case Success =>
      && cause.NoCause? && n > 0 && Unfinished(steps[..n - 1])
      && !steps[n - 1].action.RequestInput? && steps[n - 1].passed
    case BlockedInput => cause.NoCause? && n > 0 && Unfinished(steps[..n - 1]) && steps[n - 1].action.RequestInput?
    case BudgetExceeded => cause.NoCause? && Unfinished(steps) && n == b.steps <= b.retries + 1
    case VerificationFailed => cause.RetryBudget? && Unfinished(steps) && n == b.retries + 1 < b.steps
    case Interrupted => CutBy(status, cause) && Unfinished(steps) && n < b.steps && n <= b.retries
    case FatalError =>
      || (CutBy(status, cause) && Unfinished(steps) && n < b.steps && n <= b.retries)
      || (cause.Record? && n > 0 && Unfinished(steps[..n - 1]))
  }

  // What a returned session has to do with its world.
  predicate Fits(w: World, b: Budget, r: Result) {
    && r.Ended? && Traced(w, r.steps, r.cause) && |r.steps| <= Min(b.steps, b.retries + 1)
    && Justified(r.steps, r.status, r.cause, b)
  }

  // ---------- what a run leaves behind ----------

  // Of events emitted one after the other until one fails, base coming first, those
  // that do not.
  function Heard(w: World, events: seq<Event>, base: nat): (heard: seq<Event>)
    ensures heard <= events
  {
    if events == [] || w.emitFails(base) then [] else [events[0]] + Heard(w, events[1..], base + 1)
  }

  predicate EmitsAll(w: World, base: nat, n: nat) {
    forall e: nat :: base <= e < base + n ==> !w.emitFails(e)
  }

  // How many of them are tried.
  function Tried(w: World, events: seq<Event>, base: nat): nat {
    Min(|Heard(w, events, base)| + 1, |events|)
  }

  lemma {:induction false} HeardUpTo(w: World, events: seq<Event>, base: nat, n: nat)
    requires n <= |events| && EmitsAll(w, base, n)
    ensures n < |events| && w.emitFails(base + n) ==> Heard(w, events, base) == events[..n]
    ensures n == |events| ==> Heard(w, events, base) == events
  {
    if n > 0 {
      HeardUpTo(w, events[1..], base + 1, n - 1);
      assert events == [events[0]] + events[1..];
      assert events[..n] == [events[0]] + events[1..][..n - 1];
    }
  }

  lemma HeardCases(w: World, events: seq<Event>, base: nat)
    requires |events| <= 3
    ensures events != [] && w.emitFails(base) ==> Heard(w, events, base) == []
    ensures |events| > 1 && !w.emitFails(base) && w.emitFails(base + 1) ==> Heard(w, events, base) == events[..1]
    ensures |events| > 2 && !w.emitFails(base) && !w.emitFails(base + 1) && w.emitFails(base + 2) ==>
      Heard(w, events, base) == events[..2]
    ensures EmitsAll(w, base, |events|) ==> Heard(w, events, base) == events
  {
    hide Heard;
    HeardUpTo(w, events, base, 0);
    if |events| > 1 && !w.emitFails(base) && w.emitFails(base + 1) {
      HeardUpTo(w, events, base, 1);
    }
    if |events| > 2 && !w.emitFails(base) && !w.emitFails(base + 1) && w.emitFails(base + 2) {
      HeardUpTo(w, events, base, 2);
    }
    if EmitsAll(w, base, |events|) {
      HeardUpTo(w, events, base, |events|);
    }
  }

  // What iteration k announces unless an emission fails.
  function IterationEvents(w: World, k: nat): seq<Event> {
    var t := w.turn(k);
    if t.action.Fails? then []
    else
      (if t.action.value.ToolCall? then [ToolStart(k + 1), ToolEnd(k + 1)] else [])
        + if t.observes.Fails? then [] else [StepComplete(k + 1)]
  }

  // Whether the verifier is asked about it.
  predicate Asks(w: World, k: nat, base: nat) {
    var t := w.turn(k);
    && t.action.Got? && !t.action.value.RequestInput? && t.observes.Got?
    && Heard(w, IterationEvents(w, k), base) == IterationEvents(w, k)
  }

  // What a run that stops after these steps has announced, or tried to, since the last.
  function Extra(w: World, steps: seq<Step>, cause: Cause): seq<Event> {
    var n := |steps|;
    match cause
    case Emission => [PlanAnnounced(n)]
    case ContextDone => [PlanAnnounced(n)]
    case DeadlineExceeded => [PlanAnnounced(n)]
    case Iteration(_) => [PlanAnnounced(n)] + IterationEvents(w, n)
    case _ => []
  }

  function EmittedSoFar(w: World, steps: seq<Step>, cause: Cause): seq<Event> {
    Trace(steps) + Heard(w, Extra(w, steps, cause), |Trace(steps)|)
  }

  function EmissionsSoFar(w: World, steps: seq<Step>, cause: Cause): nat {
    |Trace(steps)| + Tried(w, Extra(w, steps, cause), |Trace(steps)|)
  }

  function AskedSoFar(w: World, steps: seq<Step>, cause: Cause): seq<nat> {
    AskedOf(steps)
      + if cause.Iteration? && Asks(w, |steps|, |Trace(steps)| + 1) then [|steps|] else []
  }

  // The store takes every step but one it fails to append.
  function StoredSoFar(w: World, steps: seq<Step>, cause: Cause): seq<Step> {
    if cause.Record? && steps != [] && w.appendFails(|steps| - 1) then steps[..|steps| - 1] else steps
  }

  // Why it ended, if not by its last step, and the end.
  function EndEvents(steps: seq<Step>, status: Status, cause: Cause): seq<Event> {
    (if cause.NoCause? then [] else [ErrorRaised(|steps|)]) + [SessionComplete(status)]
  }

  datatype Leftover = Leftover(
    result: Result,
    saved: seq<Status>,      // every session status the store took
    stored: seq<Step>,       // every step the store took
    emitted: seq<Event>,
    asked: seq<nat>)         // the iterations put to the verifier

  // Its final status cannot be saved, or an event of its end not be emitted.
  predicate EndFails(w: World, steps: seq<Step>, status: Status, cause: Cause) {
    var ends, base := EndEvents(steps, status, cause), EmissionsSoFar(w, steps, cause);
    w.saveFails(1) || !EmitsAll(w, base, |ends|)
  }

  /** A run that comes to this end: it saves the status and announces the end; it
      returns the session if all of that succeeds. */
  function Ending(w: World, steps: seq<Step>, status: Status, cause: Cause): Leftover {
    var ends, base := EndEvents(steps, status, cause), EmissionsSoFar(w, steps, cause);
    Leftover(
      if EndFails(w, steps, status, cause) then Aborted else Ended(status, steps, cause),
      if w.saveFails(1) then [Running] else [Running, status],
      StoredSoFar(w, steps, cause),
      EmittedSoFar(w, steps, cause) + if w.saveFails(1) then [] else Heard(w, ends, base),
      AskedSoFar(w, steps, cause))
  }

  // The end, event by event; without a cause there is no error to report.
  lemma EndingCases(w: World, steps: seq<Step>, status: Status, cause: Cause)
    ensures
      var base, e := EmissionsSoFar(w, steps, cause), Ending(w, steps, status, cause);
      var before := EmittedSoFar(w, steps, cause);
      var reported := if cause.NoCause? then before else before + [ErrorRaised(|steps|)];
      var last := if cause.NoCause? then base else base + 1;
      && e.stored == StoredSoFar(w, steps, cause) && e.asked == AskedSoFar(w, steps, cause)
      && e.saved == (if w.saveFails(1) then [Running] else [Running, status])
      && (w.saveFails(1) || (!cause.NoCause? && w.emitFails(base)) ==>
        e.result == Aborted && e.emitted == before)
      && (!w.saveFails(1) && (cause.NoCause? || !w.emitFails(base)) ==>
        && e.result == (if w.emitFails(last) then Aborted else Ended(status, steps, cause))
        && e.emitted == if w.emitFails(last) then reported else reported + [SessionComplete(status)])
  {
    HeardCases(w, EndEvents(steps, status, cause), EmissionsSoFar(w, steps, cause));
    hide Heard;
    hide EmittedSoFar;
    hide EmissionsSoFar;
    hide StoredSoFar;
    hide AskedSoFar;
  }

  predicate Starts(w: World) {
    w.ready && !w.saveFails(0)
  }

  /** All that holds of a run: it comes to an end that the world and the budget give,
      due, and leaves behind what belongs to it; or it does not start. */
  predicate Kept(w: World, b: Budget, due: Result, left: Leftover) {
    if Starts(w) then Fits(w, b, due) && left == Ending(w, due.steps, due.status, due.cause)
    else left == Leftover(Aborted, [], [], [], [])
  }

  // Statuses can be saved and events emitted; anything else may fail.
  ghost predicate Steady(w: World) {
    w.ready && forall k: nat :: !w.saveFails(k) && !w.emitFails(k)
  }

  // ---------- the engine ----------

  class Engine {
    const world: World
    const maxSteps: int
    const maxRetries: int
    var saved: seq<Status>     // every session status the store took
    var stored: seq<Step>      // every step the store took
    var plans: nat             // plans made
    var emitted: seq<Event>
    var emissions: nat         // emitted or failed
    var asked: seq<nat>        // the iterations put to the verifier

    constructor (world: World, maxSteps: int, maxRetries: int)
      ensures this.world == world && this.maxSteps == maxSteps && this.maxRetries == maxRetries
      ensures saved == [] && stored == [] && plans == 0 && emitted == [] && emissions == 0 && asked == []
    {
      this.world, this.maxSteps, this.maxRetries := world, maxSteps, maxRetries;
      saved, stored, plans, emitted, emissions, asked := [], [], 0, [], 0, [];
    }

    function Allowed(): Budget {
      Budget(Max(maxSteps, 1), Max(maxRetries, 0))
    }

    // A run that has taken these steps and announced them, and so far nothing else.
    predicate Between(steps: seq<Step>)
      reads this`saved, this`stored, this`emitted, this`emissions, this`asked
    {
      && saved == [Running] && stored == steps && asked == AskedOf(steps)
      && emitted == Trace(steps) && emissions == |emitted|
    }

    // The same, with the next plan made and announced.
    predicate Planned(steps: seq<Step>)
      reads this`saved, this`stored, this`emitted, this`emissions, this`asked
    {
      && saved == [Running] && stored == steps && asked == AskedOf(steps)
      && emitted == Trace(steps) + [PlanAnnounced(|steps|)] && emissions == |emitted|
    }

    // A run that has taken these steps and is to end so, and has not begun to.
    predicate Due(steps: seq<Step>, cause: Cause)
      reads this`saved, this`stored, this`emitted, this`emissions, this`asked
    {
      && saved == [Running] && stored == StoredSoFar(world, steps, cause)
      && emitted == EmittedSoFar(world, steps, cause) && emissions == EmissionsSoFar(world, steps, cause)
      && asked == AskedSoFar(world, steps, cause)
    }

    function Leaves(r: Result): Leftover
      reads this`saved, this`stored, this`emitted, this`asked
    {
      Leftover(r, saved, stored, emitted, asked)
    }

    method SaveSession(status: Status) returns (failed: bool)
      modifies this`saved
      ensures failed == world.saveFails(|old(saved)|)
      ensures saved == if failed then old(saved) else old(saved) + [status]
    {
      failed := world.saveFails(|saved|);
      if !failed {
        saved := saved + [status];
      }
    }

    method Emit(event: Event) returns (failed: bool)
      modifies this`emitted, this`emissions
      ensures failed == world.emitFails(old(emissions)) && emissions == old(emissions) + 1
      ensures emitted == if failed then old(emitted) else old(emitted) + [event]
    {
      failed := world.emitFails(emissions);
      emissions := emissions + 1;
      if !failed {
        emitted := emitted + [event];
      }
    }

    method CreatePlan() returns (failed: bool)
      modifies this`plans
      ensures failed == world.planFails(old(plans)) && plans == old(plans) + 1
    {
      failed := world.planFails(plans);
      plans := plans + 1;
    }

    // The store takes the step, then the memory its observation.
    method RecordStep(step: Step) returns (failed: bool)
      modifies this`stored
      ensures failed == !RecordingWorks(world, |old(stored)|)
      ensures stored == if world.appendFails(|old(stored)|) then old(stored) else old(stored) + [step]
    {
      if world.appendFails(|stored|) {
        return true;
      }
      stored := stored + [step];
      failed := world.rememberFails(|stored|);
    }

    // Asks the verifier, except about a request for input.
    method VerifyIteration(k: nat, action: ActionKind) returns (passed: Answer<bool>)
      modifies this`asked
      ensures passed == if action.RequestInput? then Got(false) else world.turn(k).verdict
      ensures asked == old(asked) + if action.RequestInput? then [] else [k]
    {
      match action
      case RequestInput =>
        passed := Got(false);
      case _ =>
        passed := world.turn(k).verdict;
        asked := asked + [k];
    }

    /** An iteration yields the world's step, announced in full, or the first failure
        the world has for it. */
    method ExecuteIteration(k: nat) returns (step: Answer<Step>)
      modifies this`emitted, this`emissions, this`asked
      ensures step.Got? ==> Answers(world, k, old(emissions), step.value)
      ensures step.Got? ==> emitted == old(emitted) + Announcements(step.value)
      ensures step.Got? ==> emissions == old(emissions) + |Announcements(step.value)|
      ensures step.Got? ==> asked == old(asked) + if step.value.action.RequestInput? then [] else [k]
      ensures step.Fails? ==> FirstFailure(world, k, old(emissions)) == Some(step.failure)
      ensures step.Fails? ==> emitted == old(emitted) + Heard(world, IterationEvents(world, k), old(emissions))
      ensures step.Fails? ==> emissions == old(emissions) + Tried(world, IterationEvents(world, k), old(emissions))
      ensures step.Fails? ==> asked == old(asked) + if Asks(world, k, old(emissions)) then [k] else []
    {
      HeardCases(world, IterationEvents(world, k), emissions);
      hide Heard;
      var turn := world.turn(k);
      if turn.action.Fails? {
        return Fails(turn.action.failure);
      }
      var action := turn.action.value;
      if action.ToolCall? {
        var failed := Emit(ToolStart(k + 1));
        if failed {
          return Fails(Broken);
        }
        failed := Emit(ToolEnd(k + 1));
        if failed {
          return Fails(Broken);
        }
      }
      if turn.observes.Fails? {
        return Fails(turn.observes.failure);
      }
      var failed := Emit(StepComplete(k + 1));
      if failed {
        return Fails(Broken);
      }
      var passed := VerifyIteration(k, action);
      if passed.Fails? {
        return Fails(passed.failure);
      }
      return Got(Step(k + 1, action, passed.value));
    }

    // Saves the final status, reports the cause and announces the end; what fails of
    // it aborts the run.
    method FailSession(status: Status, steps: seq<Step>, cause: Cause) returns (r: Result)
      requires Due(steps, cause)
      modifies this`saved, this`emitted, this`emissions
      ensures Leaves(r) == Ending(world, steps, status, cause)
    {
      hide Heard;
      hide EmitsAll;
      hide EndEvents;
      hide EmittedSoFar;
      hide EmissionsSoFar;
      hide AskedSoFar;
      hide StoredSoFar;
      var failed := SaveSession(status);
      if failed {
        return Aborted;
      }
      failed := AnnounceEnd(status, steps, cause);
      if failed {
        return Aborted;
      }
      return Ended(status, steps, cause);
    }

    // Reports the cause, if there is one, and announces the end.
    method AnnounceEnd(status: Status, steps: seq<Step>, cause: Cause) returns (failed: bool)
      modifies this`emitted, this`emissions
      ensures
        var ends := EndEvents(steps, status, cause);
        && failed == !EmitsAll(world, old(emissions), |ends|)
        && emitted == old(emitted) + Heard(world, ends, old(emissions))
    {
      HeardCases(world, EndEvents(steps, status, cause), emissions);
      hide Heard;
      failed := false;
      if !cause.NoCause? {
        failed := Emit(ErrorRaised(|steps|));
      }
      if !failed {
        failed := Emit(SessionComplete(status));
      }
    }

    // Ends a session with its last step.
    method Conclude(status: Status, steps: seq<Step>) returns (r: Result)
      requires Due(steps, NoCause)
      modifies this`saved, this`emitted, this`emissions
      ensures Leaves(r) == Ending(world, steps, status, NoCause)
    {
      hide Heard;
      hide EmitsAll;
      hide EndEvents;
      hide EmittedSoFar;
      hide EmissionsSoFar;
      hide AskedSoFar;
      hide StoredSoFar;
      var failed := SaveSession(status);
      if failed {
        return Aborted;
      }
      failed := AnnounceEnd(status, steps, NoCause);
      if failed {
        return Aborted;
      }
      return Ended(status, steps, NoCause);
    }

    // What the engine leaves behind is that of a run which came to this end.
    ghost predicate Returned(r: Result, due: Result)
      reads this`saved, this`stored, this`emitted, this`asked
    {
      Kept(world, Allowed(), due, Leaves(r))
    }

    /** Whatever the world does, a run that starts comes to one end, due: at most the
        budgeted steps, each the answer to its iteration, and a reason to stop that fits
        them and that the world gives at that point, the first if there are several. It
        leaves behind exactly what belongs to that end, and returns it exactly if the
        final status could be saved and the end announced. */
    method Run() returns (r: Result, ghost due: Result)
      requires saved == [] && stored == [] && plans == 0 && emitted == [] && emissions == 0 && asked == []
      modifies this
      ensures
        var s, t := if maxSteps >= 1 then maxSteps else 1, if maxRetries >= 0 then maxRetries else 0;
        && Kept(world, Budget(s, t), due, Leaves(r))
        && (world.ready && !world.saveFails(0) ==> due.Ended? && |due.steps| <= s && |due.steps| <= t + 1)
        && (Faultless(world) && NeverDone(world) ==>
          && r.Ended? && |r.steps| == (if s <= t + 1 then s else t + 1)
          && (r.status.VerificationFailed? <==> t + 1 < s) && (r.status.BudgetExceeded? <==> s <= t + 1))
    {
      r, due := Execute();
      FieldsDecide(r, due);
    }

    lemma FieldsDecide(r: Result, due: Result)
      requires Returned(r, due)
      ensures
        var s, t := if maxSteps >= 1 then maxSteps else 1, if maxRetries >= 0 then maxRetries else 0;
        && Kept(world, Budget(s, t), due, Leaves(r))
        && (world.ready && !world.saveFails(0) ==> due.Ended? && |due.steps| <= s && |due.steps| <= t + 1)
        && (Faultless(world) && NeverDone(world) ==>
          && r.Ended? && |r.steps| == (if s <= t + 1 then s else t + 1)
          && (r.status.VerificationFailed? <==> t + 1 < s) && (r.status.BudgetExceeded? <==> s <= t + 1))
    {
      var b := Allowed();
      if Starts(world) {
        FitsParts(world, b, due);
      }
      if Faultless(world) && NeverDone(world) {
        BudgetDecides(world, b, due, Leaves(r));
      }
      hide Fits;
      hide Ending;
      hide Faultless;
      hide NeverDone;
    }

    // The whole run, in terms of the budget allowed.
    method Execute() returns (r: Result, ghost due: Result)
      requires saved == [] && stored == [] && plans == 0 && emitted == [] && emissions == 0 && asked == []
      modifies this
      ensures Returned(r, due)
    {
      hide *;
      var b := Allowed();
      AllowedIs();
      due := Aborted;
      NotStarted();
      if !world.ready {
        return Aborted, due;
      }
      var failed := SaveSession(Running);
      if failed {
        return Aborted, due;
      }
      Begun();
      var stopped;
      stopped, r, due := MakePlan(0, []);
      if stopped {
        return;
      }
      var steps: seq<Step> := [];
      var retries := 0;
      var stepIndex := 1;
      while stepIndex <= b.steps
        invariant 1 <= stepIndex <= b.steps && |steps| == retries == stepIndex - 1 <= b.retries
        invariant Recorded(world, steps) && Unfinished(steps) && PlanMade(world, steps)
        invariant Planned(steps) && plans == stepIndex
      {
        var step;
        stopped, r, due, step := TakeStep(steps);
        if stopped {
          return;
        }
        failed, r, due, steps := AddStep(steps, step);
        if failed {
          return;
        }
        var outcome := DecideIterationOutcome(step.action, step.passed);
        Decided(world, b, steps);
        DueBetween(steps);
        if outcome.Terminal? {
          due := Ended(outcome.status, steps, NoCause);
          r := Conclude(outcome.status, steps);
          Came(r, due);
          return;
        }
        if stepIndex == b.steps {
          r, due := Exhaust(BudgetExceeded, steps, NoCause);
          return;
        }
        retries := retries + 1;
        if retries > b.retries {
          r, due := Exhaust(VerificationFailed, steps, RetryBudget);
          return;
        }
        AnnouncedAs(|steps|);
        stopped, r, due := MakePlan(|steps| + 1, steps);
        if stopped {
          return;
        }
        stepIndex := stepIndex + 1;
      }
      // The body returns in the last iteration at the latest.
      assert false;
    }

    // Makes the plan of the next iteration and announces it, or ends the session.
    method MakePlan(index: nat, steps: seq<Step>) returns (stopped: bool, r: Result, ghost due: Result)
      requires Recorded(world, steps) && Unfinished(steps) && Between(steps) && plans == |steps| && Starts(world)
      requires |steps| < Allowed().steps && |steps| <= Allowed().retries
      requires PlanAnnounced(|steps|) == StepComplete(index)
      modifies this`plans, this`saved, this`emitted, this`emissions
      ensures stopped <==> !PlanMade(world, steps)
      ensures stopped ==> Returned(r, due) && due.steps == steps && due.status == FatalError
      ensures !stopped ==> Planned(steps) && plans == |steps| + 1
    {
      DueBetween(steps);
      hide Recorded;
      hide Unfinished;
      hide Trace;
      hide AskedOf;
      hide Due;
      hide Returned;
      hide PlanAnnounced;
      due := Aborted;
      var failed := CreatePlan();
      if failed {
        r, due := Cut(FatalError, steps, Plan);
        return true, r, due;
      }
      failed := Emit(StepComplete(index));
      if failed {
        DueUnannounced(steps);
        r, due := Cut(FatalError, steps, Emission);
        return true, r, due;
      }
      return false, Aborted, due;
    }

    // Runs the next iteration unless the context or the time is over, or ends the session.
    method TakeStep(steps: seq<Step>) returns (stopped: bool, r: Result, ghost due: Result, step: Step)
      requires Recorded(world, steps) && Unfinished(steps) && Planned(steps) && PlanMade(world, steps)
      requires |steps| < Allowed().steps && |steps| <= Allowed().retries && Starts(world)
      modifies this`saved, this`emitted, this`emissions, this`asked
      ensures stopped ==> Returned(r, due) && due.steps == steps
      ensures !stopped ==> Follows(world, steps, step) && emissions == |emitted|
      ensures !stopped ==> saved == [Running] && stored == steps
      ensures !stopped ==> asked == AskedOf(steps + [step]) && emitted == Trace(steps + [step])
    {
      DuePlanned(steps);
      PlannedIs(steps);
      CutCauses(world, steps);
      hide *;
      var n := |steps|;
      step, due := Step(n + 1, OtherAction, false), Aborted;
      if world.contextDone(n) {
        r, due := Cut(Interrupted, steps, ContextDone);
        return true, r, due, step;
      }
      if world.pastDeadline(n) {
        r, due := Cut(Interrupted, steps, DeadlineExceeded);
        return true, r, due, step;
      }
      var iteration := ExecuteIteration(n);
      IterationEnds(world, steps, iteration);
      if iteration.Fails? {
        DueBroken(steps, iteration.failure);
        r, due := Break(iteration.failure, steps);
        return true, r, due, step;
      }
      TraceMore(steps, iteration.value);
      return false, Aborted, due, iteration.value;
    }

    // Ends a session whose next iteration failed.
    method Break(f: Failure, steps: seq<Step>) returns (r: Result, ghost due: Result)
      requires Caused(world, steps, Iteration(f)) && Recorded(world, steps) && Unfinished(steps)
      requires |steps| < Allowed().steps && |steps| <= Allowed().retries
      requires Due(steps, Iteration(f)) && Starts(world)
      modifies this`saved, this`emitted, this`emissions
      ensures Returned(r, due) && due.steps == steps
    {
      hide Recorded;
      hide Unfinished;
      hide Caused;
      hide Due;
      hide Returned;
      r, due := Cut(if f.ContextEnded? then Interrupted else FatalError, steps, Iteration(f));
    }

    // Ends a session cut short between two steps.
    method Cut(status: Status, steps: seq<Step>, cause: Cause) returns (r: Result, ghost due: Result)
      requires CutBy(status, cause) && Caused(world, steps, cause)
      requires Recorded(world, steps) && Unfinished(steps) && Due(steps, cause) && Starts(world)
      requires |steps| < Allowed().steps && |steps| <= Allowed().retries
      modifies this`saved, this`emitted, this`emissions
      ensures due == Ended(status, steps, cause) && Returned(r, due)
    {
      hide *;
      CutFits(world, Allowed(), status, steps, cause);
      due := Ended(status, steps, cause);
      r := FailSession(status, steps, cause);
      Came(r, due);
    }

    // Ends a session whose budget of steps or of retries is used up.
    method Exhaust(status: Status, steps: seq<Step>, cause: Cause) returns (r: Result, ghost due: Result)
      requires Recorded(world, steps) && Unfinished(steps) && Due(steps, cause) && Starts(world)
      requires
        var n, b := |steps|, Allowed();
        || (status.BudgetExceeded? && cause.NoCause? && n == b.steps <= b.retries + 1)
        || (status.VerificationFailed? && cause.RetryBudget? && n == b.retries + 1 < b.steps)
      modifies this`saved, this`emitted, this`emissions
      ensures due == Ended(status, steps, cause) && Returned(r, due)
    {
      hide Recorded;
      hide Unfinished;
      hide Due;
      hide Returned;
      due := Ended(status, steps, cause);
      assert Fits(world, Allowed(), due);
      hide *;
      r := FailSession(status, steps, cause);
      Came(r, due);
    }

    // Appends a step and has it recorded, or ends the session.
    method AddStep(steps: seq<Step>, step: Step)
      returns (failed: bool, r: Result, ghost due: Result, steps': seq<Step>)
      requires Recorded(world, steps) && Unfinished(steps) && Follows(world, steps, step) && Starts(world)
      requires |steps| < Allowed().steps && |steps| <= Allowed().retries
      requires saved == [Running] && stored == steps && asked == AskedOf(steps + [step])
      requires emitted == Trace(steps + [step]) && emissions == |emitted|
      modifies this`stored, this`saved, this`emitted, this`emissions
      ensures steps' == steps + [step] && (failed <==> !RecordingWorks(world, |steps|))
      ensures failed ==> Returned(r, due)
      ensures !failed ==> Recorded(world, steps') && Between(steps')
    {
      Appended(world, Allowed(), steps, step);
      hide Trace;
      hide AskedOf;
      hide Returned;
      hide Recorded;
      hide Unfinished;
      hide Follows;
      hide Fits;
      steps' := steps + [step];
      assert steps'[..|steps'| - 1] == steps;
      failed := RecordStep(step);
      r, due := Aborted, Aborted;
      if failed {
        DueRecord(steps');
        hide *;
        due := Ended(FatalError, steps', Record);
        r := FailSession(FatalError, steps', Record);
        Came(r, due);
      }
    }

    lemma AllowedIs()
      ensures Allowed().steps >= 1 && Allowed().retries >= 0
    {
    }

    lemma Came(r: Result, due: Result)
      requires due.Ended? && Starts(world) && Fits(world, Allowed(), due)
      requires Leaves(r) == Ending(world, due.steps, due.status, due.cause)
      ensures Returned(r, due)
    {
    }

    lemma NotStarted()
      requires saved == [] && stored == [] && emitted == [] && asked == []
      ensures Starts(world) <==> world.ready && !world.saveFails(|saved|)
      ensures !Starts(world) ==> Returned(Aborted, Aborted)
    {
    }

    // Before the first plan.
    lemma Begun()
      requires saved == [Running] && stored == [] && emitted == [] && emissions == 0 && asked == []
      ensures Recorded(world, []) && Unfinished([]) && Between([]) && PlanAnnounced(0) == StepComplete(0)
    {
    }

    // Where a run may end, by the cause.
    lemma DueBetween(steps: seq<Step>)
      requires Between(steps)
      ensures Due(steps, NoCause) && Due(steps, RetryBudget) && Due(steps, Plan)
    {
    }

    lemma DuePlanned(steps: seq<Step>)
      requires Planned(steps) && PlanMade(world, steps)
      ensures Due(steps, ContextDone) && Due(steps, DeadlineExceeded)
    {
      HeardCases(world, [PlanAnnounced(|steps|)], |Trace(steps)|);
    }

    lemma PlannedIs(steps: seq<Step>)
      requires Planned(steps)
      ensures saved == [Running] && stored == steps && asked == AskedOf(steps)
      ensures emitted == Trace(steps) + [PlanAnnounced(|steps|)] && emissions == |Trace(steps)| + 1
    {
    }

    lemma DueUnannounced(steps: seq<Step>)
      requires saved == [Running] && stored == steps && asked == AskedOf(steps) && emitted == Trace(steps)
      requires emissions == |emitted| + 1 && world.emitFails(|emitted|)
      ensures Due(steps, Emission)
    {
      HeardCases(world, [PlanAnnounced(|steps|)], |Trace(steps)|);
    }

    lemma DueBroken(steps: seq<Step>, f: Failure)
      requires PlanMade(world, steps) && saved == [Running] && stored == steps
      requires
        var base, events := |Trace(steps)| + 1, IterationEvents(world, |steps|);
        && emitted == Trace(steps) + [PlanAnnounced(|steps|)] + Heard(world, events, base)
        && emissions == base + Tried(world, events, base)
        && asked == AskedOf(steps) + if Asks(world, |steps|, base) then [|steps|] else []
      ensures Due(steps, Iteration(f))
    {
      BrokenSoFar(world, steps, f);
      hide EmittedSoFar;
      hide EmissionsSoFar;
      hide PlanMade;
      hide Tried;
      hide Asks;
    }

    lemma DueRecord(steps: seq<Step>)
      requires steps != [] && saved == [Running] && asked == AskedOf(steps)
      requires emitted == Trace(steps) && emissions == |emitted|
      requires stored == if world.appendFails(|steps| - 1) then steps[..|steps| - 1] else steps
      ensures Due(steps, Record)
    {
      RecordSoFar(world, steps);
      hide EmittedSoFar;
      hide EmissionsSoFar;
      hide StoredSoFar;
      hide AskedSoFar;
    }
  }

  // What may cut a run with a plan, and when its next iteration is entered.
  lemma CutCauses(w: World, steps: seq<Step>)
    requires PlanMade(w, steps)
    ensures w.contextDone(|steps|) ==> Caused(w, steps, ContextDone)
    ensures !w.contextDone(|steps|) && w.pastDeadline(|steps|) ==> Caused(w, steps, DeadlineExceeded)
    ensures !w.contextDone(|steps|) && !w.pastDeadline(|steps|) ==> Entered(w, steps)
    ensures CutBy(Interrupted, ContextDone) && CutBy(Interrupted, DeadlineExceeded)
  {
  }

  lemma IterationEnds(w: World, steps: seq<Step>, iteration: Answer<Step>)
    requires Entered(w, steps)
    requires iteration.Got? ==> Answers(w, |steps|, |Trace(steps)| + 1, iteration.value)
    requires iteration.Fails? ==> FirstFailure(w, |steps|, |Trace(steps)| + 1) == Some(iteration.failure)
    ensures iteration.Got? ==> Follows(w, steps, iteration.value)
    ensures iteration.Fails? ==> Caused(w, steps, Iteration(iteration.failure))
  {
  }

  lemma BrokenSoFar(w: World, steps: seq<Step>, f: Failure)
    requires PlanMade(w, steps)
    ensures
      var base, events := |Trace(steps)| + 1, IterationEvents(w, |steps|);
      && EmittedSoFar(w, steps, Iteration(f)) == Trace(steps) + [PlanAnnounced(|steps|)] + Heard(w, events, base)
      && EmissionsSoFar(w, steps, Iteration(f)) == base + Tried(w, events, base)
  {
    var events := IterationEvents(w, |steps|);
    HeardMore(w, PlanAnnounced(|steps|), events, |Trace(steps)|);
    ExtraOf(w, steps, f);
    hide Extra;
    hide Trace;
    hide IterationEvents;
    hide Heard;
    hide PlanAnnounced;
  }

  lemma RecordSoFar(w: World, steps: seq<Step>)
    requires steps != []
    ensures EmittedSoFar(w, steps, Record) == Trace(steps) && EmissionsSoFar(w, steps, Record) == |Trace(steps)|
    ensures AskedSoFar(w, steps, Record) == AskedOf(steps)
    ensures StoredSoFar(w, steps, Record) == if w.appendFails(|steps| - 1) then steps[..|steps| - 1] else steps
  {
  }

  lemma ExtraOf(w: World, steps: seq<Step>, f: Failure)
    ensures Extra(w, steps, Iteration(f)) == [PlanAnnounced(|steps|)] + IterationEvents(w, |steps|)
  {
  }

  lemma HeardMore(w: World, event: Event, events: seq<Event>, base: nat)
    requires !w.emitFails(base)
    ensures Heard(w, [event] + events, base) == [event] + Heard(w, events, base + 1)
  {
    assert ([event] + events)[1..] == events;
  }

  lemma AnnouncedAs(n: nat)
    ensures n > 0 ==> PlanAnnounced(n) == StepComplete(n + 1)
  {
  }

  lemma CutFits(w: World, b: Budget, status: Status, steps: seq<Step>, cause: Cause)
    requires CutBy(status, cause) && Caused(w, steps, cause) && Recorded(w, steps) && Unfinished(steps)
    requires |steps| < b.steps && |steps| <= b.retries
    ensures Fits(w, b, Ended(status, steps, cause))
  {
    hide Caused;
    hide Recorded;
    hide Unfinished;
  }

  lemma TraceMore(steps: seq<Step>, step: Step)
    ensures Trace(steps + [step]) == Trace(steps) + [PlanAnnounced(|steps|)] + Announcements(step)
    ensures AskedOf(steps + [step]) == AskedOf(steps) + if step.action.RequestInput? then [] else [|steps|]
  {
    assert (steps + [step])[..|steps|] == steps;
  }

  lemma Appended(w: World, b: Budget, steps: seq<Step>, step: Step)
    requires Recorded(w, steps) && Unfinished(steps) && Follows(w, steps, step)
    requires |steps| < b.steps && |steps| <= b.retries
    ensures RecordingWorks(w, |steps|) ==> Recorded(w, steps + [step])
    ensures !RecordingWorks(w, |steps|) ==> Fits(w, b, Ended(FatalError, steps + [step], Record))
  {
    hide Follows;
    hide RecordingWorks;
    var more := steps + [step];
    assert more[..|steps|] == steps;
    assert forall k :: 0 <= k < |steps| ==> more[..k] == steps[..k];
  }

  // What the outcome of the last step means for the session.
  lemma Decided(w: World, b: Budget, steps: seq<Step>)
    requires steps != [] && Recorded(w, steps) && Unfinished(steps[..|steps| - 1])
    requires |steps| <= b.steps && |steps| <= b.retries + 1
    ensures
      var last := steps[|steps| - 1];
      var outcome := DecideIterationOutcome(last.action, last.passed);
      && (outcome.Terminal? ==> Fits(w, b, Ended(outcome.status, steps, NoCause)))
      && (!outcome.Terminal? ==> Unfinished(steps))
  {
    hide Recorded;
    forall k | 0 <= k < |steps| - 1 ensures !Ends(steps[k]) {
      assert steps[..|steps| - 1][k] == steps[k];
    }
  }

  // ---------- what a run leaves behind means ----------

  // The steps were announced in order, and at last, once, the end.
  predicate Announced(emitted: seq<Event>, steps: seq<Step>, status: Status) {
    && emitted != [] && emitted[|emitted| - 1] == SessionComplete(status)
    && NoCompletion(emitted[..|emitted| - 1]) && Trace(steps) <= emitted[..|emitted| - 1]
  }

  lemma SoFarIsOpen(w: World, steps: seq<Step>, cause: Cause)
    ensures Trace(steps) <= EmittedSoFar(w, steps, cause) && NoCompletion(EmittedSoFar(w, steps, cause))
  {
    TraceIsOpen(steps);
    var extra := Extra(w, steps, cause);
    assert NoCompletion(extra);
    hide Heard;
    hide Trace;
    var heard := Heard(w, extra, |Trace(steps)|);
    assert forall e :: e in heard ==> e in extra;
  }

  /** A returned session's statuses were saved, running and its own; its steps and at
      last, once, its end were announced; and its cause, if any, just before. */
  lemma ReturnedMeans(w: World, b: Budget, due: Result, left: Leftover)
    requires Kept(w, b, due, left) && left.result.Ended?
    ensures left.result == due && left.saved == [Running, due.status]
    ensures
      var n := |left.emitted| - 1;
      && n >= 0 && left.emitted[n] == SessionComplete(due.status)
      && (forall e :: e in left.emitted[..n] ==> !e.SessionComplete?)
      && Trace(due.steps) <= left.emitted[..n]
    ensures !due.cause.NoCause? ==>
      |left.emitted| >= 2 && left.emitted[|left.emitted| - 2] == ErrorRaised(|due.steps|)
  {
    SoFarIsOpen(w, due.steps, due.cause);
    EndingCases(w, due.steps, due.status, due.cause);
    hide *;
    KeptParts(w, b, due, left);
    EndAnnounced(EmittedSoFar(w, due.steps, due.cause), due.steps, due.status, due.cause);
  }

  lemma KeptParts(w: World, b: Budget, due: Result, left: Leftover)
    requires Kept(w, b, due, left) && left.result.Ended?
    ensures Starts(w) && Fits(w, b, due) && due.Ended? && due == Ended(due.status, due.steps, due.cause)
    ensures left == Ending(w, due.steps, due.status, due.cause)
  {
    FitsParts(w, b, due);
    hide Fits;
    hide Ending;
  }

  lemma EndAnnounced(before: seq<Event>, steps: seq<Step>, status: Status, cause: Cause)
    requires Trace(steps) <= before && NoCompletion(before)
    ensures
      var reported := if cause.NoCause? then before else before + [ErrorRaised(|steps|)];
      var all := reported + [SessionComplete(status)];
      && Announced(all, steps, status)
      && (!cause.NoCause? ==> |all| >= 2 && all[|all| - 2] == ErrorRaised(|steps|))
  {
    hide Trace;
    var reported := if cause.NoCause? then before else before + [ErrorRaised(|steps|)];
    assert NoCompletion(reported);
    assert (reported + [SessionComplete(status)])[..|reported|] == reported;
  }

  /** Nothing is returned exactly when the run did not start, or its final status could
      not be saved or an event of its end not be emitted. */
  lemma AbortedIff(w: World, b: Budget, due: Result, left: Leftover)
    requires Kept(w, b, due, left)
    ensures left.result.Aborted? <==>
      !w.ready || w.saveFails(0) || EndFails(w, due.steps, due.status, due.cause)
  {
    hide EndFails;
    hide Fits;
  }

  // With statuses saved and events emitted a session is returned, whatever else fails.
  lemma SteadyReturns(w: World, b: Budget, due: Result, left: Leftover)
    requires Kept(w, b, due, left) && Steady(w)
    ensures left.result == due && Fits(w, b, due)
  {
    FitsParts(w, b, due);
    hide Fits;
    hide Heard;
  }

  // ---------- what the contract of a run determines ----------

  /** Every step returned is what the agent and the verifier answered at its iteration,
      which was planned for and entered alive and in time. */
  lemma StepsAre(w: World, b: Budget, due: Result, k: nat)
    requires Fits(w, b, due) && k < |due.steps|
    ensures
      var t, step := w.turn(k), due.steps[k];
      && !w.planFails(k) && !w.contextDone(k) && !w.pastDeadline(k)
      && step.index == k + 1 && t.action == Got(step.action) && t.observes.Got?
      && (if step.action == RequestInput then !step.passed else t.verdict == Got(step.passed))
  {
    StepAt(w, due, k);
    hide Traced;
    hide Justified;
  }

  /** With no emission failing, the steps and what the world has at the next iteration
      decide the status: a step not recorded is fatal; a recorded last step blocks on a
      request for input and succeeds on a pass; else an exhausted budget says which; else
      a failed plan is fatal, the end of the context or of the time interrupts, and the
      first failure of the iteration interrupts if the context ended and is fatal if not. */
  lemma StatusDecides(w: World, b: Budget, due: Result)
    requires Fits(w, b, due) && b.steps >= 1 && b.retries >= 0 && forall e: nat :: !w.emitFails(e)
    ensures
      var n := |due.steps|;
      var t := w.turn(n);
      var failed := n > 0 && (w.appendFails(n - 1) || w.rememberFails(n));
      due.status ==
        if failed then FatalError
        else if n > 0 && due.steps[n - 1].action == RequestInput then BlockedInput
        else if n > 0 && due.steps[n - 1].passed then Success
        else if n == b.steps then BudgetExceeded
        else if n == b.retries + 1 then VerificationFailed
        else if w.planFails(n) then FatalError
        else if w.contextDone(n) || w.pastDeadline(n) then Interrupted
        else if t.action == Fails(ContextEnded) then Interrupted
        else if t.action.Fails? then FatalError
        else if t.observes == Fails(ContextEnded) then Interrupted
        else if t.observes.Fails? then FatalError
        else if t.verdict == Fails(ContextEnded) then Interrupted
        else FatalError
    ensures
      var n := |due.steps|;
      var t := w.turn(n);
      due.status == FatalError && (n == 0 || (!w.appendFails(n - 1) && !w.rememberFails(n))) ==>
        || w.planFails(n) || t.action.Fails? || t.observes.Fails?
        || (t.action != Got(RequestInput) && t.verdict.Fails?)
  {
    FitsParts(w, b, due);
    EndOf(w, b, due);
    var n := |due.steps|;
    if n > 0 {
      StepAt(w, due, n - 1);
      TerminalIsLast(b, due, n - 1);
    }
    hide Traced;
    hide Justified;
    hide Follows;
    hide Trace;
    hide Fits;
  }

  // Nothing at all goes wrong.
  ghost predicate Faultless(w: World) {
    && Steady(w)
    && forall k: nat ::
      && !w.planFails(k) && !w.contextDone(k) && !w.pastDeadline(k) && RecordingWorks(w, k)
      && w.turn(k).action.Got? && w.turn(k).observes.Got? && w.turn(k).verdict.Got?
  }

  // The agent never asks for input and no verification passes.
  ghost predicate NeverDone(w: World) {
    forall k: nat :: w.turn(k).action != Got(RequestInput) && w.turn(k).verdict != Got(true)
  }

  // Such a world: every verification is made and fails.
  lemma Toil()
    ensures
      var turn := Turn(Got(OtherAction), Got(true), Got(false));
      var no: nat -> bool := k => false;
      var w := World(true, k => turn, no, no, no, no, no, no, no);
      Faultless(w) && NeverDone(w)
  {
  }

  lemma StepsStayOpen(w: World, steps: seq<Step>)
    requires Recorded(w, steps) && NeverDone(w)
    ensures forall k :: 0 <= k < |steps| ==>
      !steps[k].action.RequestInput? && !steps[k].passed && steps[k].index == k + 1
  {
    forall k | 0 <= k < |steps|
      ensures !steps[k].action.RequestInput? && !steps[k].passed && steps[k].index == k + 1
    {
      assert Follows(w, steps[..k], steps[k]);
    }
  }

  lemma FaultlessHasNoCause(w: World, steps: seq<Step>, cause: Cause)
    requires Faultless(w) && Traced(w, steps, cause)
    ensures cause.NoCause? || cause.RetryBudget?
  {
    hide Recorded;
    hide Follows;
    var n := |steps|;
    assert PlanMade(w, steps) && Entered(w, steps);
    assert FirstFailure(w, n, |Trace(steps)| + 1).None?;
    assert n > 0 ==> RecordingWorks(w, n - 1);
  }

  lemma SmallerBudget(b: Budget)
    ensures b.retries + 1 < b.steps ==> Min(b.steps, b.retries + 1) == b.retries + 1
    ensures b.steps <= b.retries + 1 ==> Min(b.steps, b.retries + 1) == b.steps
  {
  }

  /** With no fault, no pass and no request for input, exactly the smaller budget of
      steps is recorded, and the status tells which one ran out. */
  lemma BudgetDecides(w: World, b: Budget, due: Result, left: Leftover)
    requires b.steps >= 1 && b.retries >= 0 && Faultless(w) && NeverDone(w)
    requires Kept(w, b, due, left)
    ensures
      var r := left.result;
      && r.Ended? && |r.steps| == Min(b.steps, b.retries + 1) && left.stored == r.steps
      && (r.status.VerificationFailed? <==> b.retries + 1 < b.steps)
      && (r.status.BudgetExceeded? <==> b.steps <= b.retries + 1)
    ensures forall k :: 0 <= k < |left.stored| ==> left.stored[k].index == k + 1
  {
    SteadyReturns(w, b, due, left);
    FitsParts(w, b, due);
    FaultlessHasNoCause(w, due.steps, due.cause);
    StepsStayOpen(w, due.steps);
    hide *;
    EndOf(w, b, due);
    if due.steps != [] {
      TerminalIsLast(b, due, |due.steps| - 1);
    }
    SmallerBudget(b);
  }

  // Any step of a returned session.
  lemma StepAt(w: World, r: Result, k: nat)
    requires r.Ended? && Traced(w, r.steps, r.cause) && k < |r.steps|
    ensures Follows(w, r.steps[..k], r.steps[k])
    ensures k < |r.steps| - 1 || !r.cause.Record? ==> RecordingWorks(w, k)
  {
    hide Follows;
    hide RecordingWorks;
    hide Caused;
    if k < |r.steps| - 1 {
      assert r.steps[..|r.steps| - 1][k] == r.steps[k];
      assert r.steps[..|r.steps| - 1][..k] == r.steps[..k];
    }
  }

  // Only the last step can be terminal, and it is if it ended the run.
  lemma TerminalIsLast(b: Budget, r: Result, k: nat)
    requires r.Ended? && k < |r.steps| && Justified(r.steps, r.status, r.cause, b)
    ensures k < |r.steps| - 1 ==> !Ends(r.steps[k])
    ensures k == |r.steps| - 1 && (r.status.Success? || r.status.BlockedInput?) ==> Ends(r.steps[k])
    ensures k == |r.steps| - 1 && !r.status.Success? && !r.status.BlockedInput? && !r.cause.Record? ==>
      !Ends(r.steps[k])
  {
    if k < |r.steps| - 1 {
      assert r.steps[..|r.steps| - 1][k] == r.steps[k];
    }
  }

  lemma OneStep(w: World, steps: seq<Step>, a: Step, b: Step)
    requires Follows(w, steps, a) && Follows(w, steps, b)
    ensures a == b
  {
    hide FirstFailure;
    hide Entered;
  }

  // Two runs in the same world take the same steps for as long as both go on.
  lemma {:induction false} SameSteps(w: World, a: Result, b: Result, k: nat)
    requires a.Ended? && b.Ended? && Traced(w, a.steps, a.cause) && Traced(w, b.steps, b.cause)
    requires k <= |a.steps| && k <= |b.steps|
    ensures a.steps[..k] == b.steps[..k]
  {
    hide *;
    if k > 0 {
      SameSteps(w, a, b, k - 1);
      StepAt(w, a, k - 1);
      StepAt(w, b, k - 1);
      OneStep(w, a.steps[..k - 1], a.steps[k - 1], b.steps[k - 1]);
      assert a.steps[..k] == a.steps[..k - 1] + [a.steps[k - 1]];
      assert b.steps[..k] == b.steps[..k - 1] + [b.steps[k - 1]];
    }
  }

  // The parts of what a returned session has to do with its world.
  lemma FitsParts(w: World, b: Budget, r: Result)
    requires Fits(w, b, r)
    ensures r.Ended? && Traced(w, r.steps, r.cause) && Caused(w, r.steps, r.cause)
    ensures |r.steps| <= Min(b.steps, b.retries + 1) && Justified(r.steps, r.status, r.cause, b)
  {
    hide Recorded;
    hide Caused;
  }

  // How a session ends, by its cause.
  lemma EndOf(w: World, b: Budget, r: Result)
    requires Fits(w, b, r)
    ensures r.cause.Record? ==> r.status.FatalError? && r.steps != [] && !RecordingWorks(w, |r.steps| - 1)
    ensures r.cause.RetryBudget? ==> r.status.VerificationFailed? && |r.steps| == b.retries + 1 < b.steps
    ensures r.cause.NoCause? ==>
      || (r.status.BudgetExceeded? && |r.steps| == b.steps <= b.retries + 1)
      || ((r.status.Success? || r.status.BlockedInput?) && r.steps != [])
    ensures !r.cause.Record? && !r.cause.RetryBudget? && !r.cause.NoCause? ==>
      CutBy(r.status, r.cause) && |r.steps| < b.steps && |r.steps| <= b.retries
    ensures r.status.Success? || r.status.BlockedInput? ==>
      r.cause.NoCause? && (r.status.BlockedInput? <==> r.steps[|r.steps| - 1].action.RequestInput?)
  {
    hide Recorded;
    hide Follows;
    hide Unfinished;
    hide RecordingWorks;
  }

  // No run goes on beyond the end of another in the same world.
  lemma NoLonger(w: World, b: Budget, p: Result, q: Result)
    requires Fits(w, b, p) && Fits(w, b, q)
    ensures |q.steps| <= |p.steps|
  {
    FitsParts(w, b, p);
    FitsParts(w, b, q);
    hide *;
    var n := |p.steps|;
    if n < |q.steps| {
      SameSteps(w, p, q, n);
      assert p.steps[..n] == p.steps;
      StepAt(w, q, n);
      StopsThere(w, b, p, q.steps[n]);
      StepAt(w, q, n - 1);
      TerminalIsLast(b, q, n - 1);
    }
  }

  // Where the world would give another step, a run within its budget has ended by its
  // last step or by failing to record it.
  lemma StopsThere(w: World, b: Budget, p: Result, step: Step)
    requires Fits(w, b, p) && Follows(w, p.steps, step) && |p.steps| < b.steps && |p.steps| <= b.retries
    ensures p.steps != [] && (Ends(p.steps[|p.steps| - 1]) || !RecordingWorks(w, |p.steps| - 1))
  {
    FitsParts(w, b, p);
    hide *;
    EndOf(w, b, p);
    if p.steps != [] {
      TerminalIsLast(b, p, |p.steps| - 1);
    }
  }

  /** What Run ensures leaves no choice: in any world, whatever fails in it, two sessions
      returned for the same budget are the same. */
  lemma RunIsDetermined(w: World, b: Budget, p: Result, q: Result)
    requires Fits(w, b, p) && Fits(w, b, q)
    ensures p == q
  {
    FitsParts(w, b, p);
    FitsParts(w, b, q);
    hide *;
    NoLonger(w, b, p, q);
    NoLonger(w, b, q, p);
    var n := |p.steps|;
    SameSteps(w, p, q, n);
    assert p.steps[..n] == p.steps && q.steps[..n] == q.steps;
    SameEnd(w, b, p, q);
  }

  // Of the causes that cut a run between two steps the world gives one.
  lemma OneCut(w: World, steps: seq<Step>, a: Cause, b: Cause, s: Status, t: Status)
    requires Caused(w, steps, a) && Caused(w, steps, b) && CutBy(s, a) && CutBy(t, b)
    ensures a == b && s == t
  {
    hide Trace;
    hide FirstFailure;
  }

  lemma SameEnd(w: World, b: Budget, p: Result, q: Result)
    requires Fits(w, b, p) && Fits(w, b, q) && p.steps == q.steps
    ensures p == q
  {
    FitsParts(w, b, p);
    FitsParts(w, b, q);
    var n := |p.steps|;
    EndOf(w, b, p);
    EndOf(w, b, q);
    if n > 0 {
      StepAt(w, p, n - 1);
      StepAt(w, q, n - 1);
      TerminalIsLast(b, p, n - 1);
      TerminalIsLast(b, q, n - 1);
    }
    if CutBy(p.status, p.cause) && CutBy(q.status, q.cause) {
      OneCut(w, p.steps, p.cause, q.cause, p.status, q.status);
    }
    hide *;
  }

  /** So all that a run returns and leaves behind is determined, whatever fails: whether
      a session is returned, what was saved, stored and announced, and what was asked. */
  lemma KeptIsDetermined(w: World, b: Budget, due: Result, left: Leftover, due': Result, left': Leftover)
    requires Kept(w, b, due, left) && Kept(w, b, due', left')
    ensures left == left'
  {
    hide Fits;
    hide Ending;
    if Starts(w) {
      RunIsDetermined(w, b, due, due');
    }
  }
}

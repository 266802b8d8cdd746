/** Every step of the executor keeps its invariant. */
module ExecutorInvariant {
  import opened Graph
  import opened Decomposition
  import opened ExecutorCounters
  import opened Executor
  import Spec = SchedulerSpec

  // ---------- results ----------

  lemma SuccessesSnoc(log: seq<Result>, p: Result)
    ensures Successes(log + [p]) == Successes(log) + (if p.1 then {p.0} else {})
    ensures Names(log + [p]) == Names(log) + {p.0}
    ensures AllOk(log + [p]) <==> AllOk(log) && p.1
  {
    var q := log + [p];
    assert forall r :: r in q <==> r in log || r == p;
    assert p in q;
  }

  lemma NextReceived(s: State)
    requires s.taken < |s.log|
    ensures s.log[..s.taken + 1] == s.log[..s.taken] + [s.log[s.taken]]
    ensures Successes(s.log[..s.taken + 1])
      == Successes(s.log[..s.taken]) + (if s.log[s.taken].1 then {s.log[s.taken].0} else {})
    ensures AllOk(s.log[..s.taken + 1]) <==> AllOk(s.log[..s.taken]) && s.log[s.taken].1
  {
    SuccessesSnoc(s.log[..s.taken], s.log[s.taken]);
  }

  lemma NotYetReceived(s: State)
    requires s.taken < |s.log| && DistinctNames(s.log)
    ensures s.log[s.taken].0 !in Successes(s.log[..s.taken])
  {
  }

  lemma {:induction false} NamesCount(log: seq<Result>)
    requires DistinctNames(log)
    ensures |Names(log)| == |log|
  {
    if log != [] {
      var n := |log| - 1;
      NamesCount(log[..n]);
      SuccessesSnoc(log[..n], log[n]);
      assert log == log[..n] + [log[n]];
      assert log[n].0 !in Names(log[..n]);
    }
  }

  lemma NamesWithin(s: State)
    requires Mail(s)
    ensures Names(s.log) <= s.phase.Keys && |s.log| == |Names(s.log)| <= |s.phase.Keys|
  {
    NamesCount(s.log);
    SubsetLength(Names(s.log), s.phase.Keys);
  }

  lemma KeysLength(c: Config, s: State)
    requires c.Ok() && Shape(c, s)
    ensures |s.phase.Keys| == |c.ids|
  {
    DistinctLength(c.ids);
  }

  // A goroutine that has not sent its result is not in the log.
  lemma Unsent(s: State, v: Id)
    requires Mail(s) && v in s.phase && !s.phase[v].Sent? && !s.phase[v].Released? && !s.phase[v].Exited?
    ensures v !in Names(s.log)
    ensures forall p :: p in s.log ==> p.0 != v
  {
  }

  // ---------- the semaphore ----------

  lemma HoldersMove(phase: map<Id, Phase>, v: Id, p: Phase)
    requires v in phase
    ensures |Holders(phase[v := p])|
      == |Holders(phase)| + (if Holding(p) then 1 else 0) - (if Holding(phase[v]) then 1 else 0)
  {
    var after, base := phase[v := p], Holders(phase) - {v};
    forall w ensures w in Holders(after) <==> w in base || (w == v && Holding(p)) {
    }
    WithMember(Holders(after), base, v, Holding(p));
    WithMember(Holders(phase), base, v, Holding(phase[v]));
  }

  lemma WithMember(whole: set<Id>, base: set<Id>, v: Id, present: bool)
    requires v !in base && forall w :: w in whole <==> w in base || (w == v && present)
    ensures |whole| == |base| + (if present then 1 else 0)
  {
    assert whole == if present then base + {v} else base;
  }

  // Launching never finds a subtask already started.
  lemma LaunchIsFirst(c: Config, s: State)
    requires Shape(c, s) && Mail(s) && Launches(c, s) && s.toLaunch != []
    ensures var v := s.toLaunch[0]; v in s.phase && s.phase[v] == Idle && v !in s.started && v in c.ids
    ensures AfterLaunch(s) == s.(phase := s.phase[s.toLaunch[0] := Launched], toLaunch := s.toLaunch[1..],
                                 started := s.started + {s.toLaunch[0]})
  {
    var v := s.toLaunch[0];
    assert v in s.toLaunch && v in Elems(s.toLaunch);
    assert v !in Elems(s.toLaunch) * s.started;
    assert v in Elems(c.ids);
    assert s.phase[v].Idle?;
  }

  lemma SlotsGo(c: Config, s: State, v: Id, p: Phase)
    requires Slots(c, s) && v in s.phase && CanGo(c, s, v, p)
    ensures Slots(c, AfterGo(s, v, p))
  {
    HoldersMove(s.phase, v, p);
    hide Holders;
    hide CanGo;
  }

  lemma SlotsLaunch(c: Config, s: State, v: Id, t: State)
    requires Slots(c, s) && v in s.phase && s.phase[v] == Idle
    requires t.phase == s.phase[v := Launched] && t.tokens == s.tokens
    ensures Slots(c, t)
  {
    HoldersMove(s.phase, v, Launched);
    hide Holders;
  }

  lemma ShapeGo(c: Config, s: State, v: Id, p: Phase)
    requires Shape(c, s) && v in s.phase && CanGo(c, s, v, p)
    ensures Shape(c, AfterGo(s, v, p))
  {
    assert !p.Idle? && !s.phase[v].Idle?;
    assert s.phase[v].Running? ==> p.HasResult?;
  }

  lemma MailSend(s: State, v: Id, ok: bool)
    requires Mail(s) && v in s.phase && s.phase[v] == HasResult(ok)
    ensures Mail(AfterGo(s, v, Sent(ok)))
  {
    var t := AfterGo(s, v, Sent(ok));
    Unsent(s, v);
    assert forall r :: r in t.log <==> r in s.log || r == (v, ok);
  }

  // Before sending, and after abandoning, a goroutine has nothing in the log.
  lemma MailEarly(s: State, v: Id, p: Phase)
    requires Mail(s) && v in s.phase && !s.phase[v].Sent? && !s.phase[v].Released? && !s.phase[v].Exited?
    requires !p.Sent? && !p.Released? && p != Exited(true)
    ensures Mail(AfterGo(s, v, p))
  {
    Unsent(s, v);
  }

  lemma MailLate(s: State, v: Id, ok: bool, p: Phase)
    requires Mail(s) && v in s.phase && (s.phase[v] == Sent(ok) || s.phase[v] == Released(ok))
    requires p == Released(ok) || p == Exited(ok)
    ensures Mail(AfterGo(s, v, p))
  {
    assert (v, ok) in s.log;
  }

  lemma MailGo(c: Config, s: State, v: Id, p: Phase)
    requires Mail(s) && v in s.phase && CanGo(c, s, v, p)
    ensures Mail(AfterGo(s, v, p))
  {
    hide Mail;
    hide AfterGo;
    match s.phase[v]
    case HasResult(ok) => MailSend(s, v, ok);
    case Sent(ok) => MailLate(s, v, ok, p);
    case Released(ok) => MailLate(s, v, ok, p);
    case _ => MailEarly(s, v, p);
  }

  lemma MailLaunch(s: State, v: Id, t: State)
    requires Mail(s) && v in s.phase && s.phase[v] == Idle
    requires t.phase == s.phase[v := Launched] && t.log == s.log && t.taken == s.taken
    ensures Mail(t)
  {
    Unsent(s, v);
  }

  // ---------- counters and launches ----------

  lemma CountsReceive(c: Config, s: State, t: State)
    requires Mail(s) && Counts(c, s) && ReceiveStep(c, s, t)
    ensures t.taken <= |t.log| && Counts(c, t)
  {
    var p, done := s.log[s.taken], Successes(Received(s));
    ReceivedOne(c, s, t);
    CountsBefore(c, s);
    hide *;
    if p.1 {
      CountDownMeaning(Elems(c.ids), c.occurrences, done, p.0, s.remaining, t.remaining, t.toLaunch);
      CountsAfter(c, t, done + {p.0});
    } else {
      CountsAfter(c, t, done);
    }
  }

  // What receiving one more result changes.
  lemma ReceivedOne(c: Config, s: State, t: State)
    requires Mail(s) && ReceiveStep(c, s, t)
    ensures t.log == s.log && t.taken == s.taken + 1 <= |t.log|
    ensures
      var p, done := s.log[s.taken], Successes(Received(s));
      && (p.1 ==>
        && p.0 !in done && Successes(t.log[..t.taken]) == done + {p.0}
        && CountedDown(Targets(c.occurrences, p.0), s.remaining, t.remaining, t.toLaunch))
      && (!p.1 ==> Successes(t.log[..t.taken]) == done && t.remaining == s.remaining)
  {
    NextReceived(s);
    NotYetReceived(s);
    hide Successes;
    hide CountedDown;
    hide Targets;
    hide Mail;
  }

  lemma CountsBefore(c: Config, s: State)
    requires s.taken <= |s.log| && Counts(c, s)
    ensures CountsAre(Elems(c.ids), c.occurrences, Successes(Received(s)), s.remaining)
  {
  }

  lemma CountsAfter(c: Config, t: State, done: set<Id>)
    requires t.taken <= |t.log| && Successes(t.log[..t.taken]) == done
    requires CountsAre(Elems(c.ids), c.occurrences, done, t.remaining)
    ensures Counts(c, t)
  {
  }

  lemma LaunchesReceive(c: Config, s: State, t: State)
    requires Mail(s) && Counts(c, s) && Launches(c, s) && ReceiveStep(c, s, t)
    ensures t.taken <= |t.log| && Launches(c, t)
  {
    var p, done := s.log[s.taken], Successes(Received(s));
    ReceivedOne(c, s, t);
    CountsBefore(c, s);
    if p.1 {
      hide *;
      CountDownMeaning(Elems(c.ids), c.occurrences, done, p.0, s.remaining, t.remaining, t.toLaunch);
      LaunchesAre(c, t, done + {p.0});
    } else {
      hide *;
      LaunchesAre(c, t, done);
    }
  }

  lemma LaunchesAre(c: Config, t: State, done: set<Id>)
    requires t.taken <= |t.log| && Successes(Received(t)) == done
    requires Distinct(t.toLaunch) && Elems(t.toLaunch) * t.started == {}
    requires forall v :: v in t.started || v in t.toLaunch <==> v in c.ids && Preds(c.Edges(), v) <= done
    ensures Launches(c, t)
  {
    hide Preds;
    hide Successes;
  }

  lemma LaunchesLaunch(c: Config, s: State)
    requires s.taken <= |s.log| && Launches(c, s) && s.toLaunch != []
    ensures var v := s.toLaunch[0];
      Launches(c, s.(phase := s.phase[v := Launched], toLaunch := s.toLaunch[1..], started := s.started + {v}))
  {
    var v := s.toLaunch[0];
    assert s.toLaunch == [v] + s.toLaunch[1..];
    ElemsConcat([v], s.toLaunch[1..]);
    assert v !in s.toLaunch[1..];
    assert v !in Elems(s.toLaunch[1..]);
    hide Preds;
    hide Successes;
    assert forall w :: w in s.started + {v} || w in s.toLaunch[1..] <==> w in s.started || w in s.toLaunch;
  }

  // ---------- coordination and cancellation ----------

  lemma GoKeepsReceived(s: State, v: Id, p: Phase)
    requires s.taken <= |s.log|
    ensures var t := AfterGo(s, v, p); t.taken <= |t.log| && Received(t) == Received(s)
  {
  }

  lemma CoordinationGo(c: Config, s: State, v: Id, p: Phase)
    requires s.taken <= |s.log| && Coordination(c, s) && v in s.phase && CanGo(c, s, v, p)
    ensures var t := AfterGo(s, v, p); t.taken <= |t.log| && Coordination(c, t)
  {
    GoKeepsReceived(s, v, p);
    assert !Quiet(s.phase) by {
      assert !s.phase[v].Idle? && !s.phase[v].Exited?;
    }
    hide CanGo;
    hide Quiet;
    hide AllOk;
  }

  lemma CancellationGo(c: Config, s: State, v: Id, p: Phase)
    requires Mail(s) && Cancellation(s) && v in s.phase && CanGo(c, s, v, p)
    ensures Cancellation(AfterGo(s, v, p))
  {
    var t, q := AfterGo(s, v, p), s.phase[v];
    assert p == Exited(false) ==> q == Released(false) || q == Abandoned;
    assert p.Abandoned? ==> s.cancelled;
    assert q != Exited(false);
    if q == Released(false) {
      assert (v, false) in s.log;
    }
    assert forall r :: r in s.log ==> r in t.log;
    hide CanGo;
    hide Mail;
    forall w | w in s.phase && s.phase[w] == Exited(false) ensures t.phase[w] == Exited(false) {
    }
    if p == Exited(false) {
      assert t.phase[v] == Exited(false);
    }
  }

  lemma AllDeliveredOk(c: Config, s: State)
    requires c.Ok() && Shape(c, s) && Mail(s) && Cancellation(s)
    requires s.taken == |c.ids| && AllOk(Received(s))
    ensures !s.groupFailed && s.log == Received(s) && Names(s.log) == s.phase.Keys
  {
    AllNamed(c, s);
    assert s.log[..s.taken] == s.log;
    hide Shape;
    forall v | v in s.phase ensures s.phase[v] != Exited(false) {
      assert v in Names(s.log);
    }
  }

  lemma AllNamed(c: Config, s: State)
    requires c.Ok() && Shape(c, s) && Mail(s) && s.taken == |c.ids|
    ensures Names(s.log) == s.phase.Keys && s.taken == |s.log|
  {
    NamesWithin(s);
    KeysLength(c, s);
    SubsetLength(Names(s.log), s.phase.Keys);
    assert s.taken <= |s.log|;
  }

  lemma CoordinationReturn(c: Config, s: State, t: State)
    requires c.Ok() && s.taken <= |s.log|
    requires Shape(c, s) && Mail(s) && Cancellation(s) && Coordination(c, s)
    requires Waiting(s.coord) && Quiet(s.phase)
    requires t == s.(coord := Returned(!s.coord.WaitingCancelled? && !s.groupFailed))
    ensures Coordination(c, t)
  {
    if s.coord.WaitingDone? {
      AllDeliveredOk(c, s);
    }
    hide Shape;
    hide Mail;
    hide Quiet;
    hide AllOk;
  }

  lemma CoordinationReceive(c: Config, s: State, t: State)
    requires s.taken <= |s.log| && Coordination(c, s) && ReceiveStep(c, s, t)
    ensures t.taken <= |t.log| && Coordination(c, t)
  {
    NextReceived(s);
    hide AllOk;
    hide Quiet;
    hide CountedDown;
    hide Successes;
  }

  // ---------- every step ----------

  lemma InvGo(c: Config, s: State, v: Id, p: Phase)
    requires Inv(c, s) && v in s.phase && CanGo(c, s, v, p)
    ensures Inv(c, AfterGo(s, v, p))
  {
    var t := AfterGo(s, v, p);
    ShapeGo(c, s, v, p);
    SlotsGo(c, s, v, p);
    MailGo(c, s, v, p);
    GoKeepsReceived(s, v, p);
    CoordinationGo(c, s, v, p);
    CancellationGo(c, s, v, p);
    LaunchesSame(c, s, t);
  }

  // Counters and launches depend only on what was received.
  lemma LaunchesSame(c: Config, s: State, t: State)
    requires s.taken <= |s.log| && Counts(c, s) && Launches(c, s)
    requires t.taken <= |t.log| && Received(t) == Received(s)
    requires t.remaining == s.remaining && t.toLaunch == s.toLaunch && t.started == s.started
    ensures Counts(c, t) && Launches(c, t)
  {
  }

  lemma InvLaunch(c: Config, s: State)
    requires Inv(c, s) && s.coord.Looping? && s.toLaunch != []
    ensures Inv(c, AfterLaunch(s))
  {
    var t, v := AfterLaunch(s), s.toLaunch[0];
    LaunchIsFirst(c, s);
    SlotsLaunch(c, s, v, t);
    MailLaunch(s, v, t);
    LaunchesLaunch(c, s);
    LaunchShape(c, s, t, v);
  }

  lemma LaunchShape(c: Config, s: State, t: State, v: Id)
    requires s.taken <= |s.log| && Shape(c, s) && Cancellation(s) && Counts(c, s) && Coordination(c, s)
    requires v in s.phase && s.phase[v] == Idle && s.coord.Looping?
    requires s.toLaunch != []
    requires t == s.(phase := s.phase[v := Launched], toLaunch := s.toLaunch[1..], started := s.started + {v})
    ensures Shape(c, t) && Cancellation(t) && Counts(c, t) && Coordination(c, t)
  {
    hide CountsAre;
    hide Successes;
    hide AllOk;
    forall w | w in s.phase && w != v ensures t.phase[w] == s.phase[w] {
    }
  }

  lemma InvReceive(c: Config, s: State, t: State)
    requires c.Ok() && Inv(c, s) && ReceiveStep(c, s, t)
    ensures Inv(c, t)
  {
    CountsReceive(c, s, t);
    LaunchesReceive(c, s, t);
    CoordinationReceive(c, s, t);
  }

  // A step that only moves the coordinator or cancels the parent.
  lemma InvOther(c: Config, s: State, t: State)
    requires Inv(c, s)
    requires t == s.(coord := t.coord, parentCancelled := t.parentCancelled, cancelled := t.cancelled)
    requires Coordination(c, t) && Cancellation(t)
    ensures Inv(c, t)
  {
    LaunchesSame(c, s, t);
  }

  /** The invariant is inductive. */
  lemma InvNext(c: Config, s: State, step: Step, t: State)
    requires c.Ok() && Inv(c, s) && Next(c, s, step, t)
    ensures Inv(c, t)
  {
    InvParts(c, s);
    match step
    case Launch => InvLaunch(c, s);
    case Go(v, p) => InvGo(c, s, v, p);
    case Receive => InvReceive(c, s, t);
    case WaitReturn => InvReturn(c, s, t);
    case _ =>
      InvOther(c, s, t);
  }

  lemma InvParts(c: Config, s: State)
    requires Inv(c, s)
    ensures s.taken <= |s.log| && Shape(c, s) && Mail(s) && Launches(c, s) && Coordination(c, s) && Cancellation(s)
  {
  }

  lemma InvReturn(c: Config, s: State, t: State)
    requires c.Ok() && Inv(c, s) && Waiting(s.coord) && Quiet(s.phase)
    requires t == s.(coord := Returned(!s.coord.WaitingCancelled? && !s.groupFailed))
    ensures Inv(c, t)
  {
    InvParts(c, s);
    CoordinationReturn(c, s, t);
    hide Coordination;
    InvOther(c, s, t) by {
      assert Cancellation(t);
    }
  }

  lemma InvInit(c: Config, s: State)
    requires c.Ok() && IsInit(c, s)
    ensures Inv(c, s)
  {
    InitLaunches(c, s);
    forall v ensures v !in Holders(s.phase) {
    }
    assert Holders(s.phase) == {};
    assert s.phase.Keys == Elems(c.ids) by {
      assert forall v :: v in c.ids <==> v in Elems(c.ids);
    }
  }

  lemma InitLaunches(c: Config, s: State)
    requires c.Ok() && IsInit(c, s)
    ensures Counts(c, s) && Launches(c, s)
  {
    assert Received(s) == [];
    assert Successes([]) == {};
    var roots := Spec.Init(c.ids, c.Edges()).ready;
    InOrderSorted(c.ids, roots);
    SortedIsDistinct(c.ids, s.toLaunch);
    forall v ensures v in s.toLaunch <==> v in c.ids && Preds(c.Edges(), v) <= {} {
      InOrderMember(c.ids, roots, v);
    }
  }

  lemma {:induction false} InvRun(c: Config, states: seq<State>, steps: seq<Step>, i: nat)
    requires c.Ok() && IsRun(c, states, steps) && i <= |steps|
    ensures Inv(c, states[i])
  {
    hide Inv;
    hide Next;
    hide IsInit;
    hide Config.Ok;
    if i == 0 {
      InvInit(c, states[0]);
    } else {
      InvRun(c, states, steps, i - 1);
      InvNext(c, states[i - 1], steps[i - 1], states[i]);
    }
  }
}

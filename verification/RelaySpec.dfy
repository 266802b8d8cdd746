/** The event fan-out of a session as a transition system: the relay sends an event to
    one subscription after the other, and between any two of its steps subscribers
    join, take and close (internal/runtime/session_manager.go). */
module RelaySpec {
  import opened Common

  datatype Kind = SessionComplete | Failure | Other

  datatype Event = Event(kind: Kind, payload: string)

  const DEFAULT_BUFFER: nat := 256

  const FELL_BEHIND := Event(Failure, "stream subscriber fell behind and was disconnected")

  // The last event a subscriber that fell behind gets, in place of event.
  function OverflowSignal(event: Event): Event {
    if event.kind == SessionComplete then event else FELL_BEHIND
  }

  function BufferSize(requested: int): (n: nat)
    ensures n >= 1
  {
    if requested <= 0 then DEFAULT_BUFFER else requested
  }

  /** What is delivered of the offered events after an overflow on the last of them: the
      others but the one that was lost, if any, and the signal for the last. */
  function Surviving(offered: seq<Event>, lost: Option<nat>): seq<Event>
    requires offered != [] && (lost.Some? ==> lost.value < |offered| - 1)
  {
    var n := |offered| - 1;
    (if lost.None? then offered[..n] else offered[..lost.value] + offered[lost.value + 1..n])
      + [OverflowSignal(offered[n])]
  }

  // ---------- a subscription ----------

  datatype Sub = Sub(
    capacity: nat,
    joined: nat,             // events broadcast before it registered
    offered: seq<Event>,     // events the relay has tried to send it
    consumed: seq<Event>,
    buffer: seq<Event>,
    closed: bool,
    listed: bool,            // registered with the relay
    failing: bool,           // the last send failed and is not marked yet
    overflowed: bool,
    behindAt: nat,           // events consumed when a send failed
    lost: Option<nat>)       // place in offered of the event the mark dropped
  {
    // Everything the consumer has or will get from the buffer.
    function Delivered(): seq<Event> {
      consumed + buffer
    }

    // The relay tries to send.
    function Send(e: Event): Sub {
      if |buffer| < capacity then this.(offered := offered + [e], buffer := buffer + [e])
      else this.(offered := offered + [e], failing := true, behindAt := |consumed|)
    }

    // The mark after a failed send: the buffer's head, if there still is one, makes
    // room for the signal.
    function Mark(): Sub
      requires offered != []
    {
      var signal := OverflowSignal(offered[|offered| - 1]);
      var marked := this.(closed := true, listed := false, failing := false, overflowed := true);
      if buffer == [] then marked.(buffer := [signal], lost := None)
      else marked.(buffer := buffer[1..] + [signal], lost := Some(|consumed|))
    }

    // A send and its mark with nothing in between.
    function Offer(e: Event): Sub {
      if |buffer| < capacity then Send(e) else Send(e).Mark()
    }

    function Shut(): (s: Sub)
      ensures s.closed && (closed ==> s == this)
    {
      this.(closed := true)
    }

    // Closed by the relay, which has forgotten it.
    function Leave(): (s: Sub)
      ensures s.closed && !s.listed
    {
      this.(closed := true, listed := false)
    }

    function Take(): Sub {
      if buffer == [] then this
      else this.(consumed := consumed + [buffer[0]], buffer := buffer[1..])
    }

    /** Until a send fails the consumer gets exactly what was offered. A send fails when
        the consumer is its capacity behind; of the events before it at most one is
        lost, which was not consumed when the send failed; none only if the consumer
        has them all. */
    ghost predicate Sound() {
      && 1 <= capacity && |buffer| <= capacity && (!closed ==> listed)
      && (!failing && !overflowed ==> Delivered() == offered)
      && (failing || overflowed ==> behindAt + capacity == |offered| - 1 && behindAt <= |consumed|)
      && (failing ==> !overflowed && Delivered() == offered[..|offered| - 1])
      && (overflowed ==>
        && closed && !listed && (lost.Some? ==> behindAt <= lost.value < |offered| - 1 && lost.value <= |consumed|)
        && (lost.None? ==> |offered| - 1 <= |consumed|)
        && Delivered() == Surviving(offered, lost))
    }
  }

  function NewSub(requested: int, joined: nat): Sub {
    Sub(BufferSize(requested), joined, [], [], [], false, true, false, false, 0, None)
  }

  lemma LosesHead(consumed: seq<Event>, buffer: seq<Event>, event: Event)
    requires buffer != []
    ensures consumed + (buffer[1..] + [OverflowSignal(event)])
         == Surviving(consumed + buffer + [event], Some(|consumed|))
  {
    var offered := consumed + buffer + [event];
    assert offered[..|consumed|] == consumed;
    assert offered[|consumed| + 1..|offered| - 1] == buffer[1..];
  }

  lemma SendIsSound(s: Sub, e: Event)
    requires s.Sound() && !s.closed && !s.failing
    ensures s.Send(e).Sound()
    ensures s.Send(e).failing <==> |s.offered| - |s.consumed| == s.capacity
  {
    assert s.consumed + (s.buffer + [e]) == s.consumed + s.buffer + [e];
    assert (s.offered + [e])[..|s.offered|] == s.offered;
  }

  /** What the mark leaves: the events before the failed one, less the buffer's head at
      that moment, and the signal; nothing is lost exactly when the buffer is then
      empty, the consumer having taken its whole capacity since the send failed. */
  lemma MarkIsSound(s: Sub)
    requires s.Sound() && s.failing
    ensures s.Mark().Sound() && s.Mark().offered == s.offered
    ensures s.Mark().lost == if s.buffer == [] then None else Some(|s.consumed|)
    ensures s.buffer == [] <==> |s.consumed| == s.behindAt + s.capacity
  {
    var n := |s.offered| - 1;
    assert s.offered == s.offered[..n] + [s.offered[n]];
    if s.buffer == [] {
      assert s.consumed + [] == s.consumed;
    } else {
      LosesHead(s.consumed, s.buffer, s.offered[n]);
    }
  }

  lemma OfferIsSound(s: Sub, e: Event)
    requires s.Sound() && !s.closed && !s.failing
    ensures s.Offer(e).Sound() && !s.Offer(e).failing
    ensures s.Offer(e).overflowed <==> |s.buffer| == s.capacity
    ensures s.Offer(e).offered == s.offered + [e]
  {
    SendIsSound(s, e);
    if |s.buffer| == s.capacity {
      MarkIsSound(s.Send(e));
    }
  }

  lemma TakeIsSound(s: Sub)
    requires s.Sound()
    ensures s.Take().Sound() && s.Take().Delivered() == s.Delivered()
  {
    if s.buffer != [] {
      assert s.consumed + [s.buffer[0]] + s.buffer[1..] == s.consumed + s.buffer;
    }
  }

  /** Event by event: all of them until an overflow; after it all but the lost one, if
      any, with the signal for the last. */
  lemma DeliveredEvents(s: Sub, i: nat)
    requires s.Sound() && !s.failing && i < |s.offered|
    ensures !s.overflowed ==> |s.Delivered()| == |s.offered| && s.Delivered()[i] == s.offered[i]
    ensures s.overflowed ==>
      && |s.Delivered()| == |s.offered| - (if s.lost.Some? then 1 else 0)
      && (s.lost.None? && i < |s.offered| - 1 ==> s.Delivered()[i] == s.offered[i])
      && (s.lost.Some? && i < s.lost.value ==> s.Delivered()[i] == s.offered[i])
      && (s.lost.Some? && s.lost.value < i < |s.offered| - 1 ==> s.Delivered()[i - 1] == s.offered[i])
      && s.Delivered() != []
      && s.Delivered()[|s.Delivered()| - 1] == OverflowSignal(s.offered[|s.offered| - 1])
  {
  }

  /** What fell behind ends with the error, unless the event it missed was the session's
      end. */
  lemma ErrorArrives(s: Sub)
    requires s.Sound() && s.overflowed && s.offered[|s.offered| - 1].kind != SessionComplete
    ensures s.Delivered() != [] && s.Delivered()[|s.Delivered()| - 1]
      == Event(Failure, "stream subscriber fell behind and was disconnected")
  {
  }

  /** A session_complete offered last is delivered last, overflow or not. */
  lemma CompletionArrives(s: Sub)
    requires s.Sound() && !s.failing && s.offered != [] && s.offered[|s.offered| - 1].kind == SessionComplete
    ensures s.Delivered() != [] && s.Delivered()[|s.Delivered()| - 1] == s.offered[|s.offered| - 1]
  {
  }

  // ---------- the relay and its subscribers ----------

  datatype State = State(
    history: seq<Event>,     // every event broadcast
    subs: seq<Sub>,          // every subscription handed out open
    closed: bool,
    bufferSize: nat,
    sending: bool,           // the last event of history is being sent
    todo: set<nat>,          // to these
    marking: Option<nat>,    // the one whose send failed
    crashed: bool)           // the mark sent on a closed channel

  datatype Op =
    | Begin(event: Event)    // the relay takes the list of subscribers
    | Send(i: nat)
    | Mark
    | Finish
    | Subscribe(requested: int)
    | Take(i: nat)
    | Close(i: nat)          // a consumer closes its subscription
    | Unlist(i: nat)         // and then has the relay forget it
    | CloseAll

  function ListedOnes(subs: seq<Sub>): set<nat> {
    set i: nat | i < |subs| && subs[i].listed
  }

  function Closed(subs: seq<Sub>): (after: seq<Sub>)
    ensures |after| == |subs| && forall i :: 0 <= i < |subs| ==> after[i] == subs[i].Leave()
  {
    seq(|subs|, i requires 0 <= i < |subs| => subs[i].Leave())
  }

  predicate Enabled(s: State, op: Op) {
    && !s.crashed
    && match op
      case Begin(_) => !s.sending
      case Send(i) => s.sending && s.marking.None? && i in s.todo && i < |s.subs|
      case Mark => s.marking.Some? && s.marking.value < |s.subs|
      case Finish => s.sending && s.marking.None? && s.todo == {}
      case Subscribe(_) => !s.closed
      case Take(i) => i < |s.subs|
      case Close(i) => i < |s.subs|
      case Unlist(i) => i < |s.subs| && s.subs[i].closed
      case CloseAll => !s.sending
  }

  // Sending fails when the buffer is full or the consumer has closed its subscription.
  function AfterSend(s: State, i: nat): State
    requires Enabled(s, Send(i))
  {
    var u, left := s.subs[i], s.todo - {i};
    if u.closed then s.(todo := left, marking := Some(i))
    else if s.history == [] then s
    else
      var t := u.Send(s.history[|s.history| - 1]);
      s.(subs := s.subs[i := t], todo := left, marking := if t.failing then Some(i) else None)
  }

  // The mark sends on the channel of the subscription, closed or not.
  function AfterMark(s: State): State
    requires Enabled(s, Mark)
  {
    var i := s.marking.value;
    if s.subs[i].closed then s.(crashed := true)
    else if s.subs[i].offered == [] then s
    else s.(subs := s.subs[i := s.subs[i].Mark()], marking := None)
  }

  /** A step that is not enabled does not happen. Joining a closed relay hands out a
      closed subscription, which is none of these. */
  function After(s: State, op: Op): State {
    if !Enabled(s, op) then s
    else match op
      case Begin(e) => s.(history := s.history + [e], sending := true, todo := ListedOnes(s.subs))
      case Send(i) => AfterSend(s, i)
      case Mark => AfterMark(s)
      case Finish => s.(sending := false)
      case Subscribe(requested) =>
        s.(subs := s.subs + [NewSub(if requested <= 0 then s.bufferSize else requested, |s.history|)])
      case Take(i) => s.(subs := s.subs[i := s.subs[i].Take()])
      case Close(i) => s.(subs := s.subs[i := s.subs[i].Shut()])
      case Unlist(i) => s.(subs := s.subs[i := s.subs[i].Leave()])
      case CloseAll => s.(subs := Closed(s.subs), closed := true)
  }

  function AfterAll(s: State, ops: seq<Op>): State {
    if ops == [] then s else After(AfterAll(s, ops[..|ops| - 1]), ops[|ops| - 1])
  }

  function Init(requested: int): State {
    State([], [], false, BufferSize(requested), false, {}, None, false)
  }

  // What was offered is what was broadcast since joining, up to now while it is open,
  // but for an event still to be sent to it.
  ghost predicate Placed(s: Sub, history: seq<Event>, waiting: bool) {
    && s.joined + |s.offered| <= |history|
    && s.offered == history[s.joined..s.joined + |s.offered|]
    && (!s.closed ==> s.joined + |s.offered| == |history| - if waiting then 1 else 0)
  }

  ghost predicate SubOk(s: Sub, history: seq<Event>, waiting: bool, marked: bool) {
    && s.Sound() && Placed(s, history, waiting) && (waiting || marked ==> !s.overflowed)
    && (s.failing ==> marked) && (marked ==> s.failing || s.closed)
  }

  ghost predicate SubsOk(subs: seq<Sub>, history: seq<Event>, todo: set<nat>, marking: Option<nat>) {
    forall i: nat :: i < |subs| ==> SubOk(subs[i], history, i in todo, marking == Some(i))
  }

  ghost predicate Inv(s: State) {
    && s.bufferSize >= 1 && SubsOk(s.subs, s.history, s.todo, s.marking)
    && (forall i :: i in s.todo ==> i < |s.subs| && s.marking != Some(i))
    && (s.marking.Some? ==> s.marking.value < |s.subs|)
    && (s.crashed ==> s.marking.Some? && s.subs[s.marking.value].closed)
    && (s.sending ==> s.history != [])
    && (!s.sending ==> s.todo == {} && s.marking.None?)
    && (s.closed ==> forall i :: 0 <= i < |s.subs| ==> !s.subs[i].listed)
  }

  lemma SubIsSound(s: State, i: nat)
    requires Inv(s) && i < |s.subs|
    ensures s.subs[i].Sound() && Placed(s.subs[i], s.history, i in s.todo)
    ensures SubOk(s.subs[i], s.history, i in s.todo, s.marking == Some(i))
  {
  }

  lemma LongerHistory(s: Sub, history: seq<Event>, e: Event)
    requires Placed(s, history, false)
    ensures Placed(s, history + [e], !s.closed)
  {
    var more := history + [e];
    assert more[s.joined..s.joined + |s.offered|] == history[s.joined..s.joined + |s.offered|];
  }

  lemma InvBegin(s: State, e: Event)
    requires Inv(s) && Enabled(s, Begin(e))
    ensures Inv(After(s, Begin(e)))
  {
    var t := After(s, Begin(e));
    forall i: nat | i < |t.subs|
      ensures SubOk(t.subs[i], t.history, i in t.todo, t.marking == Some(i))
    {
      SubIsSound(s, i);
      LongerHistory(s.subs[i], s.history, e);
    }
  }

  // An update of one subscription keeps the others.
  lemma InvUpdate(s: State, i: nat, u: Sub, todo: set<nat>, marking: Option<nat>)
    requires Inv(s) && i < |s.subs| && SubOk(u, s.history, i in todo, marking == Some(i)) && !s.crashed
    requires todo <= s.todo && (forall j :: j in s.todo && j != i ==> j in todo)
    requires s.marking == marking || (s.marking.None? && marking == Some(i)) || (s.marking == Some(i) && marking.None?)
    requires i in todo ==> marking != Some(i)
    requires s.sending || (todo == {} && marking.None?)
    requires !s.subs[i].listed ==> !u.listed
    ensures Inv(s.(subs := s.subs[i := u], todo := todo, marking := marking))
  {
    var t := s.(subs := s.subs[i := u], todo := todo, marking := marking);
    forall j: nat | j < |t.subs|
      ensures SubOk(t.subs[j], t.history, j in t.todo, t.marking == Some(j))
    {
      if j != i {
        SubIsSound(s, j);
      }
    }
  }

  lemma InvSend(s: State, i: nat)
    requires Inv(s) && Enabled(s, Send(i))
    ensures Inv(After(s, Send(i)))
  {
    var u, e := s.subs[i], s.history[|s.history| - 1];
    SubIsSound(s, i);
    if u.closed {
      InvUpdate(s, i, u, s.todo - {i}, Some(i));
      assert s.subs[i := u] == s.subs;
    } else {
      SendIsSound(u, e);
      var t := u.Send(e);
      assert t.offered == u.offered + [e] == s.history[u.joined..];
      InvUpdate(s, i, t, s.todo - {i}, if t.failing then Some(i) else None);
    }
  }

  lemma InvMark(s: State)
    requires Inv(s) && Enabled(s, Mark)
    ensures Inv(After(s, Mark))
  {
    var i := s.marking.value;
    SubIsSound(s, i);
    if !s.subs[i].closed {
      MarkIsSound(s.subs[i]);
      InvUpdate(s, i, s.subs[i].Mark(), s.todo, None);
    }
  }

  lemma TodoOpen(s: State, i: nat)
    requires Inv(s) && i < |s.subs|
    ensures i in s.todo ==> s.marking != Some(i)
    ensures s.sending || (s.todo == {} && s.marking.None?)
  {
  }

  lemma TakeKeeps(s: Sub)
    ensures s.Take() == s.(consumed := s.Take().consumed, buffer := s.Take().buffer)
  {
  }

  lemma InvTake(s: State, i: nat)
    requires Inv(s) && Enabled(s, Take(i))
    ensures Inv(After(s, Take(i)))
  {
    SubIsSound(s, i);
    TakeIsSound(s.subs[i]);
    TakeKeeps(s.subs[i]);
    TodoOpen(s, i);
    hide Inv;
    hide Sub.Sound;
    hide Sub.Take;
    InvUpdate(s, i, s.subs[i].Take(), s.todo, s.marking);
  }

  lemma InvClose(s: State, i: nat)
    requires Inv(s) && Enabled(s, Close(i))
    ensures Inv(After(s, Close(i)))
  {
    SubIsSound(s, i);
    InvUpdate(s, i, s.subs[i].Shut(), s.todo, s.marking);
  }

  lemma InvUnlist(s: State, i: nat)
    requires Inv(s) && Enabled(s, Unlist(i))
    ensures Inv(After(s, Unlist(i)))
  {
    SubIsSound(s, i);
    InvUpdate(s, i, s.subs[i].Leave(), s.todo, s.marking);
  }

  lemma InvSubscribe(s: State, requested: int)
    requires Inv(s) && Enabled(s, Subscribe(requested))
    ensures Inv(After(s, Subscribe(requested)))
  {
    var t := After(s, Subscribe(requested));
    forall i: nat | i < |t.subs|
      ensures SubOk(t.subs[i], t.history, i in t.todo, t.marking == Some(i))
    {
      if i < |s.subs| {
        SubIsSound(s, i);
      }
    }
  }

  lemma InvCloseAll(s: State)
    requires Inv(s) && Enabled(s, CloseAll)
    ensures Inv(After(s, CloseAll))
  {
    var t := After(s, CloseAll);
    forall i: nat | i < |t.subs|
      ensures SubOk(t.subs[i], t.history, i in t.todo, t.marking == Some(i))
    {
      SubIsSound(s, i);
    }
  }

  /** Every step, of the relay or of a client, keeps each subscription sound and placed
      in the history. */
  lemma InvAfter(s: State, op: Op)
    requires Inv(s)
    ensures Inv(After(s, op))
  {
    if Enabled(s, op) {
      match op
      case Begin(e) => InvBegin(s, e);
      case Send(i) => InvSend(s, i);
      case Mark => InvMark(s);
      case Finish =>
      case Subscribe(requested) => InvSubscribe(s, requested);
      case Take(i) => InvTake(s, i);
      case Close(i) => InvClose(s, i);
      case Unlist(i) => InvUnlist(s, i);
      case CloseAll => InvCloseAll(s);
    }
  }

  // ---------- over every sequence of steps ----------

  lemma {:induction false} InvAlways(requested: int, ops: seq<Op>)
    ensures Inv(AfterAll(Init(requested), ops))
  {
    if ops != [] {
      InvAlways(requested, ops[..|ops| - 1]);
      InvAfter(AfterAll(Init(requested), ops[..|ops| - 1]), ops[|ops| - 1]);
    }
  }

  lemma AfterLast(s: State, ops: seq<Op>)
    requires ops != []
    ensures AfterAll(s, ops) == After(AfterAll(s, ops[..|ops| - 1]), ops[|ops| - 1])
  {
  }

  /** Whatever steps of the relay and of clients happen in what order: an open
      subscription has been delivered every event broadcast since it joined, but for
      the last while that is being sent; one closed without overflow, those up to some
      point; one that overflowed, those before the event whose send found it its
      capacity behind, less at most one not yet consumed then, and the signal; it lost
      none only if it has consumed all of those. */
  lemma Delivery(requested: int, ops: seq<Op>, i: nat)
    requires i < |AfterAll(Init(requested), ops).subs|
    ensures
      var s := AfterAll(Init(requested), ops);
      var t, h := s.subs[i], s.history;
      && t.joined + |t.offered| <= |h| && t.offered == h[t.joined..t.joined + |t.offered|]
      && (!t.closed ==> t.joined + |t.offered| == |h| - if i in s.todo then 1 else 0)
      && (!t.overflowed && !t.failing ==> t.Delivered() == t.offered)
      && (t.failing ==> t.offered != [] && t.Delivered() == t.offered[..|t.offered| - 1])
      && (t.overflowed ==>
        && t.closed && t.behindAt + t.capacity == |t.offered| - 1
        && (t.lost.Some? ==> t.behindAt <= t.lost.value < |t.offered| - 1 && t.lost.value <= |t.consumed|)
        && (t.lost.None? ==> |t.offered| - 1 <= |t.consumed|)
        && t.Delivered() == Surviving(t.offered, t.lost))
  {
    InvAlways(requested, ops);
    SubIsSound(AfterAll(Init(requested), ops), i);
  }

  lemma DeliveredFrom(s: Sub, e: Event)
    requires s.Sound() && e in s.Delivered()
    ensures e in s.offered || (s.overflowed && e == OverflowSignal(s.offered[|s.offered| - 1]))
  {
    if s.overflowed {
      SurvivingFrom(s.offered, s.lost, e);
    }
  }

  lemma SurvivingFrom(offered: seq<Event>, lost: Option<nat>, e: Event)
    requires offered != [] && (lost.Some? ==> lost.value < |offered| - 1) && e in Surviving(offered, lost)
    ensures e in offered || e == OverflowSignal(offered[|offered| - 1])
  {
    hide OverflowSignal;
    var n := |offered| - 1;
    assert forall x :: x in offered[..n] ==> x in offered;
    if lost.Some? {
      assert forall x :: x in offered[..lost.value] || x in offered[lost.value + 1..n] ==> x in offered;
    }
  }

  /** Over every sequence of steps, a subscriber gets the error about falling behind, when
      nobody broadcast it, if and only if it overflowed on an event other than the
      session's end; it is then the last it gets. */
  lemma ErrorIff(requested: int, ops: seq<Op>, i: nat)
    requires i < |AfterAll(Init(requested), ops).subs|
    ensures
      var s := AfterAll(Init(requested), ops);
      var t, error := s.subs[i], Event(Failure, "stream subscriber fell behind and was disconnected");
      && (t.overflowed ==> t.offered != [])
      && (error !in s.history ==>
        (error in t.Delivered() <==> t.overflowed && t.offered[|t.offered| - 1].kind != SessionComplete))
      && (t.overflowed && t.offered[|t.offered| - 1].kind != SessionComplete ==>
        t.Delivered() != [] && t.Delivered()[|t.Delivered()| - 1] == error)
  {
    var s := AfterAll(Init(requested), ops);
    var t, error := s.subs[i], Event(Failure, "stream subscriber fell behind and was disconnected");
    InvAlways(requested, ops);
    SubIsSound(s, i);
    if error in t.Delivered() {
      DeliveredFrom(t, error);
    }
    if t.overflowed && t.offered[|t.offered| - 1].kind != SessionComplete {
      ErrorArrives(t);
    }
    assert forall e :: e in t.offered ==> e in s.history;
    hide Sub.Sound;
    hide Inv;
  }

  /** A subscription holds as many events as was asked for, or the relay's own size, which
      is what was asked for or 256; and it goes on holding that. */
  lemma CapacityIs(s: State, requested: int)
    requires Enabled(s, Subscribe(requested))
    ensures
      var t := After(s, Subscribe(requested));
      && |t.subs| == |s.subs| + 1
      && t.subs[|s.subs|].capacity
        == (if requested > 0 then requested else if s.bufferSize > 0 then s.bufferSize else 256)
      && t.subs[|s.subs|].joined == |s.history| && !t.subs[|s.subs|].closed && t.subs[|s.subs|].Delivered() == []
    ensures forall size: int :: Init(size).bufferSize == if size > 0 then size else 256
  {
  }

  lemma CapacityStays(s: State, op: Op, i: nat)
    requires i < |s.subs|
    ensures
      var t := After(s, op);
      && i < |t.subs| && t.subs[i].capacity == s.subs[i].capacity && t.subs[i].joined == s.subs[i].joined
      && t.bufferSize == s.bufferSize
  {
  }

  // The n-th step sends to the i-th subscription, which is its capacity behind: that
  // many events were broadcast before this one since it joined and are not taken.
  ghost predicate FallsBehindAt(requested: int, ops: seq<Op>, n: nat, i: nat)
    requires n < |ops|
  {
    var s := AfterAll(Init(requested), ops[..n]);
    && ops[n] == Send(i) && Enabled(s, Send(i)) && !s.subs[i].closed
    && |s.history| - 1 - s.subs[i].joined - |s.subs[i].consumed| == s.subs[i].capacity
  }

  ghost predicate Overflows(s: Sub) {
    s.failing || s.overflowed
  }

  // One step makes a subscription overflow exactly when its send finds it behind.
  lemma OverflowStep(s: State, op: Op, i: nat)
    requires Inv(s) && i < |s.subs|
    ensures
      var t := After(s, op);
      && i < |t.subs|
      && (Overflows(t.subs[i]) <==>
        || Overflows(s.subs[i])
        || (op == Send(i) && Enabled(s, op) && !s.subs[i].closed
            && |s.history| - 1 - s.subs[i].joined - |s.subs[i].consumed| == s.subs[i].capacity))
  {
    SubIsSound(s, i);
    if Enabled(s, op) && op == Send(i) && !s.subs[i].closed {
      SendIsSound(s.subs[i], s.history[|s.history| - 1]);
    }
    hide Sub.Sound;
    hide Placed;
    hide SubsOk;
  }

  /** A subscription overflows if and only if some send to it finds it exactly its
      capacity behind; what consumers do between that send and its mark no longer
      matters. */
  lemma {:induction false} OverflowIff(requested: int, ops: seq<Op>, i: nat)
    requires i < |AfterAll(Init(requested), ops).subs|
    ensures Overflows(AfterAll(Init(requested), ops).subs[i]) <==>
      exists n :: 0 <= n < |ops| && FallsBehindAt(requested, ops, n, i)
  {
    if ops != [] {
      var m := |ops| - 1;
      var s := AfterAll(Init(requested), ops[..m]);
      FallsBehindLast(requested, ops, i);
      InvAlways(requested, ops[..m]);
      hide *;
      AfterLast(Init(requested), ops);
      if i < |s.subs| {
        OverflowIff(requested, ops[..m], i);
        OverflowStep(s, ops[m], i);
      } else {
        NeverBehind(requested, ops, m, i);
      }
    }
  }

  lemma FallsBehindLast(requested: int, ops: seq<Op>, i: nat)
    requires ops != []
    ensures
      var m := |ops| - 1;
      (exists n :: 0 <= n < |ops| && FallsBehindAt(requested, ops, n, i)) <==>
        || (exists n :: 0 <= n < m && FallsBehindAt(requested, ops[..m], n, i))
        || FallsBehindAt(requested, ops, m, i)
  {
    var m := |ops| - 1;
    forall n | 0 <= n < m
      ensures FallsBehindAt(requested, ops, n, i) <==> FallsBehindAt(requested, ops[..m], n, i)
    {
      assert ops[..m][..n] == ops[..n] && ops[..m][n] == ops[n];
    }
  }

  // Subscriptions are only added.
  lemma {:induction false} SubsGrow(s: State, ops: seq<Op>, n: nat)
    requires n <= |ops|
    ensures |AfterAll(s, ops[..n]).subs| <= |AfterAll(s, ops).subs|
    decreases |ops|
  {
    if n < |ops| {
      SubsGrow(s, ops[..|ops| - 1], n);
      assert ops[..|ops| - 1][..n] == ops[..n];
    } else {
      assert ops[..n] == ops;
    }
  }

  lemma NeverBehind(requested: int, ops: seq<Op>, m: nat, i: nat)
    requires m < |ops| && i >= |AfterAll(Init(requested), ops[..m]).subs|
    ensures forall n :: 0 <= n <= m ==> !FallsBehindAt(requested, ops, n, i)
  {
    forall n | 0 <= n <= m ensures !FallsBehindAt(requested, ops, n, i) {
      SubsGrow(Init(requested), ops[..m], n);
      assert ops[..m][..n] == ops[..n];
    }
  }

  // ---------- the last broadcast ----------

  ghost predicate NoBegin(ops: seq<Op>) {
    forall op :: op in ops ==> !op.Begin?
  }

  // The last broadcast, of e, is still to be sent to i or was the last offered to it.
  ghost predicate ConcernedBy(s: State, e: Event, i: nat) {
    && s.history != [] && s.history[|s.history| - 1] == e && i < |s.subs|
    && (i in s.todo || (s.marking == Some(i) && s.subs[i].closed)
        || (s.subs[i].offered != [] && s.subs[i].offered[|s.subs[i].offered| - 1] == e))
  }

  lemma StillConcerned(s: State, op: Op, e: Event, i: nat)
    requires ConcernedBy(s, e, i) && !op.Begin? && Inv(s)
    ensures ConcernedBy(After(s, op), e, i)
  {
    hide Inv;
  }

  lemma {:induction false} AlwaysConcerned(s: State, ops: seq<Op>, e: Event, i: nat)
    requires Inv(s) && ConcernedBy(s, e, i) && NoBegin(ops)
    ensures Inv(AfterAll(s, ops)) && ConcernedBy(AfterAll(s, ops), e, i)
  {
    if ops != [] {
      var n := |ops| - 1;
      assert ops[n] in ops;
      AlwaysConcerned(s, ops[..n], e, i);
      hide *;
      InvAfter(AfterAll(s, ops[..n]), ops[n]);
      StillConcerned(AfterAll(s, ops[..n]), ops[n], e, i);
      AfterLast(s, ops);
    }
  }

  /** A session_complete that is the last broadcast reaches every subscription open when
      it begins: once the relay is done with the subscription, it is the last event
      delivered, whatever clients do before, meanwhile and after. */
  lemma CompletionReaches(requested: int, before: seq<Op>, e: Event, after: seq<Op>, i: nat)
    requires e.kind == SessionComplete && NoBegin(after)
    requires
      var s := AfterAll(Init(requested), before);
      Enabled(s, Begin(e)) && i < |s.subs| && !s.subs[i].closed
    ensures
      var s := AfterAll(After(AfterAll(Init(requested), before), Begin(e)), after);
      && i < |s.subs|
      && (i !in s.todo && s.marking != Some(i) ==>
        s.subs[i].Delivered() != [] && s.subs[i].Delivered()[|s.subs[i].Delivered()| - 1] == e)
  {
    var s := AfterAll(Init(requested), before);
    var t := After(s, Begin(e));
    InvAlways(requested, before);
    InvAfter(s, Begin(e));
    assert ConcernedBy(t, e, i);
    AlwaysConcerned(t, after, e, i);
    var u := AfterAll(t, after);
    SubIsSound(u, i);
    hide *;
    Reaches(u, e, i);
  }

  lemma Reaches(s: State, e: Event, i: nat)
    requires ConcernedBy(s, e, i) && s.subs[i].Sound() && e.kind == SessionComplete
    requires s.subs[i].failing ==> s.marking == Some(i)
    ensures i < |s.subs|
    ensures i !in s.todo && s.marking != Some(i) ==>
      s.subs[i].Delivered() != [] && s.subs[i].Delivered()[|s.subs[i].Delivered()| - 1] == e
  {
    if i !in s.todo && s.marking != Some(i) {
      CompletionArrives(s.subs[i]);
    }
  }

  // ---------- a close that a broadcast does not see ----------

  // The relay still deals with a subscription its consumer has closed.
  ghost predicate Doomed(s: State) {
    exists i: nat :: i < |s.subs| && s.subs[i].closed && (i in s.todo || s.marking == Some(i))
  }

  // A consumer closes its subscription while the relay deals with it in a broadcast, or
  // a broadcast begins before the relay has forgotten a closed one.
  ghost predicate Dooms(s: State, op: Op) {
    && Enabled(s, op)
    && match op
      case Close(i) => !s.subs[i].closed && (i in s.todo || s.marking == Some(i))
      case Begin(_) => exists i: nat :: i < |s.subs| && s.subs[i].closed && s.subs[i].listed
      case _ => false
  }

  lemma DoomedAt(s: State, i: nat)
    requires i < |s.subs| && s.subs[i].closed && (i in s.todo || s.marking == Some(i))
    ensures Doomed(s)
  {
  }

  lemma DoomedStarts(s: State, op: Op)
    requires Inv(s) && Dooms(s, op)
    ensures Doomed(After(s, op))
  {
    match op
    case Close(i) =>
      DoomedAt(After(s, op), i);
    case Begin(_) =>
      var i: nat :| i < |s.subs| && s.subs[i].closed && s.subs[i].listed;
      DoomedAt(After(s, op), i);
  }

  lemma NotDoomed(s: State, op: Op, i: nat)
    requires Inv(s) && !Doomed(s) && !Dooms(s, op) && i < |After(s, op).subs|
    ensures
      var t := After(s, op);
      !(t.subs[i].closed && (i in t.todo || t.marking == Some(i)))
  {
    hide Sub.Sound;
    hide Placed;
    if i < |s.subs| && s.subs[i].closed && (i in s.todo || s.marking == Some(i)) {
      DoomedAt(s, i);
    }
  }

  lemma DoomedStep(s: State, op: Op)
    requires Inv(s)
    ensures Doomed(After(s, op)) <==> Doomed(s) || Dooms(s, op)
  {
    if Doomed(s) {
    } else if Dooms(s, op) {
      DoomedStarts(s, op);
    } else if Doomed(After(s, op)) {
      var t := After(s, op);
      var i: nat :| i < |t.subs| && t.subs[i].closed && (i in t.todo || t.marking == Some(i));
      NotDoomed(s, op, i);
    }
  }

  ghost predicate DoomsAt(requested: int, ops: seq<Op>, n: nat)
    requires n < |ops|
  {
    Dooms(AfterAll(Init(requested), ops[..n]), ops[n])
  }

  lemma DoomsLast(requested: int, ops: seq<Op>)
    requires ops != []
    ensures
      var m := |ops| - 1;
      (exists n :: 0 <= n < |ops| && DoomsAt(requested, ops, n)) <==>
        || (exists n :: 0 <= n < m && DoomsAt(requested, ops[..m], n))
        || Dooms(AfterAll(Init(requested), ops[..m]), ops[m])
  {
    var m := |ops| - 1;
    forall n | 0 <= n < m
      ensures DoomsAt(requested, ops, n) <==> DoomsAt(requested, ops[..m], n)
    {
      assert ops[..m][..n] == ops[..n] && ops[..m][n] == ops[n];
    }
    assert DoomsAt(requested, ops, m) <==> Dooms(AfterAll(Init(requested), ops[..m]), ops[m]);
  }

  /** Over every sequence of steps: the relay is set to crash if and only if at some step a
      consumer closed its subscription while a broadcast dealt with it, or a broadcast
      began between a consumer's closing and the relay's forgetting the subscription. */
  lemma {:induction false} DoomedIff(requested: int, ops: seq<Op>)
    ensures Doomed(AfterAll(Init(requested), ops)) <==>
      exists n :: 0 <= n < |ops| && DoomsAt(requested, ops, n)
  {
    if ops != [] {
      var m := |ops| - 1;
      InvAlways(requested, ops[..m]);
      DoomedIff(requested, ops[..m]);
      DoomsLast(requested, ops);
      hide *;
      DoomedStep(AfterAll(Init(requested), ops[..m]), ops[m]);
      AfterLast(Init(requested), ops);
    }
  }

  // What the relay has left to do in a broadcast, its end apart.
  ghost function RelayLeft(s: State): nat {
    2 * |s.todo| + if s.marking.Some? then 1 else 0
  }

  /** A crash is always of that kind; and a relay set to crash does: its broadcast cannot
      finish, the relay has a next step, and every step of its own before the crash uses
      up what is left, which nobody else's step adds to. */
  lemma DoomedCrashes(s: State, op: Op)
    requires Inv(s)
    ensures s.crashed ==> Doomed(s)
    ensures Doomed(s) && !s.crashed ==>
      && !Enabled(s, Finish) && (Enabled(s, Mark) || exists i :: Enabled(s, Send(i)))
      && (After(s, op).crashed
        || RelayLeft(After(s, op)) + (if Enabled(s, op) && (op.Send? || op.Mark?) then 1 else 0) <= RelayLeft(s))
  {
    if s.crashed {
      DoomedAt(s, s.marking.value);
    }
    if Doomed(s) && !s.crashed {
      var i: nat :| i < |s.subs| && s.subs[i].closed && (i in s.todo || s.marking == Some(i));
      assert s.marking.None? ==> Enabled(s, Send(i));
      LeftDrops(s, op);
    }
  }

  lemma LeftDrops(s: State, op: Op)
    requires Inv(s) && s.sending && !s.crashed
    ensures After(s, op).crashed
      || RelayLeft(After(s, op)) + (if Enabled(s, op) && (op.Send? || op.Mark?) then 1 else 0) <= RelayLeft(s)
  {
    if op.Send? && Enabled(s, op) {
      assert |s.todo - {op.i}| == |s.todo| - 1;
    } else if op.Mark? && Enabled(s, op) {
      SubIsSound(s, s.marking.value);
    }
    hide Sub.Sound;
    hide Placed;
  }

  // ---------- a take between a failed send and its mark ----------

  // A subscriber with one place, an event in it, and a second event to be sent.
  function Contended(a: Event, b: Event): Sub {
    NewSub(1, 0).Send(a).Send(b)
  }

  /** Taking the first event before the mark, nothing is lost; after the mark, the first
      event is. */
  lemma TakeBeforeMark(a: Event, b: Event)
    ensures Contended(a, b).failing
    ensures Contended(a, b).Take().Mark().Delivered() == [a, OverflowSignal(b)]
    ensures Contended(a, b).Mark().Take().Delivered() == [OverflowSignal(b)]
  {
  }

  // ---------- broadcasts with nobody acting in between ----------

  function Offered(subs: seq<Sub>, e: Event): (after: seq<Sub>)
    ensures |after| == |subs|
    ensures forall i :: 0 <= i < |subs| ==> after[i] == if subs[i].closed then subs[i] else subs[i].Offer(e)
  {
    seq(|subs|, i requires 0 <= i < |subs| => if subs[i].closed then subs[i] else subs[i].Offer(e))
  }

  function Broadcast(s: State, e: Event): State {
    s.(history := s.history + [e], subs := Offered(s.subs, e))
  }

  function Broadcasts(s: State, events: seq<Event>): State {
    if events == [] then s else Broadcast(Broadcasts(s, events[..|events| - 1]), events[|events| - 1])
  }

  // One subscription's part of a broadcast, with nothing in between.
  function Deal(s: State, i: nat): State {
    var m := After(s, Send(i));
    if m.marking.Some? then After(m, Mark) else m
  }

  // In s the broadcast of e begun in start has been through all but those still to do.
  ghost predicate Midway(start: State, e: Event, s: State) {
    && s == start.(history := start.history + [e], sending := true, todo := s.todo, subs := s.subs)
    && start.marking.None? && !start.crashed && |s.subs| == |start.subs|
    && forall i: nat :: i < |s.subs| ==>
      && (i in s.todo ==> !start.subs[i].closed)
      && s.subs[i] == if i in s.todo then start.subs[i] else Offered(start.subs, e)[i]
  }

  // No consumer is between closing its subscription and having the relay forget it.
  ghost predicate Settled(s: State) {
    forall i :: 0 <= i < |s.subs| ==> s.subs[i].listed == !s.subs[i].closed
  }

  lemma BroadcastBegins(s: State, e: Event)
    requires Inv(s) && Enabled(s, Begin(e)) && Settled(s)
    ensures Inv(After(s, Begin(e))) && Midway(s, e, After(s, Begin(e)))
  {
    InvAfter(s, Begin(e));
    var t := After(s, Begin(e));
    forall i: nat | i < |t.subs|
      ensures i in t.todo <==> !s.subs[i].closed
    {
    }
  }

  lemma BroadcastGoesOn(start: State, e: Event, s: State, i: nat)
    requires Inv(s) && Midway(start, e, s) && i in s.todo
    ensures
      var m := After(s, Send(i));
      Enabled(s, Send(i)) && Inv(m) && (m.marking.Some? ==> m.marking == Some(i) && Enabled(m, Mark))
    ensures Inv(Deal(s, i)) && Midway(start, e, Deal(s, i)) && Deal(s, i).todo == s.todo - {i}
    ensures !Deal(s, i).crashed && (Settled(s) ==> Settled(Deal(s, i)))
  {
    SubIsSound(s, i);
    InvAfter(s, Send(i));
    var m := After(s, Send(i));
    DealOffers(s, e, i);
    if m.marking.Some? {
      InvAfter(m, Mark);
    }
    OfferIsSound(s.subs[i], e);
    hide Inv;
    hide Sub.Sound;
    hide Sub.Offer;
    hide After;
    hide Deal;
    MidwayGoesOn(start, e, s, i);
  }

  lemma MidwayGoesOn(start: State, e: Event, s: State, i: nat)
    requires Midway(start, e, s) && i in s.todo && i < |s.subs|
    ensures Midway(start, e, s.(subs := s.subs[i := s.subs[i].Offer(e)], todo := s.todo - {i}))
  {
    hide Sub.Offer;
  }

  lemma DealOffers(s: State, e: Event, i: nat)
    requires Inv(s) && Enabled(s, Send(i)) && !s.subs[i].closed && s.history[|s.history| - 1] == e
    ensures
      var m := After(s, Send(i));
      m.marking.Some? ==> m.marking == Some(i) && Enabled(m, Mark)
    ensures Deal(s, i) == s.(subs := s.subs[i := s.subs[i].Offer(e)], todo := s.todo - {i})
  {
    SubIsSound(s, i);
    TodoOpen(s, i);
    SendIsSound(s.subs[i], e);
    hide Inv;
    hide Sub.Sound;
  }

  lemma BroadcastEnds(start: State, e: Event, s: State)
    requires Inv(s) && Midway(start, e, s) && s.todo == {} && !start.sending && start.todo == {}
    ensures Enabled(s, Finish) && After(s, Finish) == Broadcast(start, e) && Inv(Broadcast(start, e))
  {
    InvAfter(s, Finish);
    hide Inv;
    assert s.subs == Offered(start.subs, e);
  }

  ghost predicate RelaySteps(ops: seq<Op>) {
    forall op :: op in ops ==> op.Begin? || op.Send? || op.Mark? || op.Finish?
  }

  lemma Appended(s: State, ops: seq<Op>, op: Op)
    ensures AfterAll(s, ops + [op]) == After(AfterAll(s, ops), op)
  {
    assert (ops + [op])[..|ops|] == ops;
  }

  // The steps so far and one subscription's part.
  lemma DealtToo(start: State, ops: seq<Op>, i: nat) returns (more: seq<Op>)
    requires RelaySteps(ops)
    ensures RelaySteps(more) && AfterAll(start, more) == Deal(AfterAll(start, ops), i)
  {
    hide After;
    Appended(start, ops, Send(i));
    more := ops + [Send(i)];
    if AfterAll(start, more).marking.Some? {
      Appended(start, more, Mark);
      more := more + [Mark];
    }
  }

  lemma {:induction false} StepsRemain(start: State, e: Event, ops: seq<Op>) returns (all: seq<Op>)
    requires RelaySteps(ops) && !start.sending && start.todo == {}
    requires Inv(AfterAll(start, ops)) && Midway(start, e, AfterAll(start, ops))
    ensures RelaySteps(all) && AfterAll(start, all) == Broadcast(start, e)
    decreases |AfterAll(start, ops).todo|
  {
    hide *;
    var s := AfterAll(start, ops);
    if s.todo == {} {
      BroadcastEnds(start, e, s);
      Appended(start, ops, Finish);
      FinishedToo(ops);
      all := ops + [Finish];
    } else {
      var i :| i in s.todo;
      BroadcastGoesOn(start, e, s, i);
      var more := DealtToo(start, ops, i);
      all := StepsRemain(start, e, more);
    }
  }

  lemma FinishedToo(ops: seq<Op>)
    requires RelaySteps(ops)
    ensures RelaySteps(ops + [Finish])
  {
  }

  /** Offering the event to everyone at once is a run of the relay's steps. */
  lemma BroadcastIsSteps(s: State, e: Event) returns (ops: seq<Op>)
    requires Inv(s) && Enabled(s, Begin(e)) && Settled(s)
    ensures RelaySteps(ops) && AfterAll(s, ops) == Broadcast(s, e)
  {
    BroadcastBegins(s, e);
    Appended(s, [], Begin(e));
    hide Inv;
    hide Midway;
    hide After;
    ops := StepsRemain(s, e, [Begin(e)]);
  }

  lemma InvBroadcast(s: State, e: Event)
    requires Inv(s) && !s.sending
    ensures Inv(Broadcast(s, e))
  {
    var t := Broadcast(s, e);
    forall i: nat | i < |t.subs|
      ensures SubOk(t.subs[i], t.history, i in t.todo, t.marking == Some(i))
    {
      SubIsSound(s, i);
      var u := s.subs[i];
      LongerHistory(u, s.history, e);
      if !u.closed {
        OfferIsSound(u, e);
        assert u.offered + [e] == t.history[u.joined..];
      }
    }
  }

  // From s to t the i-th subscription was offered the events and its consumer was idle.
  ghost predicate Undisturbed(s: State, events: seq<Event>, t: State, i: nat) {
    && i < |s.subs| == |t.subs| && t.history == s.history + events
    && t.subs[i].capacity == s.subs[i].capacity && t.subs[i].consumed == s.subs[i].consumed
    && (t.subs[i].overflowed <==> |s.subs[i].buffer| + |events| > s.subs[i].capacity)
    && (!t.subs[i].overflowed ==>
      && !t.subs[i].closed && |t.subs[i].buffer| == |s.subs[i].buffer| + |events|
      && t.subs[i].offered == s.subs[i].offered + events)
  }

  lemma UndisturbedStep(s: State, events: seq<Event>, m: State, e: Event, i: nat)
    requires Undisturbed(s, events, m, i) && m.subs[i].Sound()
    ensures Undisturbed(s, events + [e], Broadcast(m, e), i)
  {
    assert m.history + [e] == s.history + (events + [e]);
    var u, t := m.subs[i], Broadcast(m, e).subs[i];
    assert t == if u.closed then u else u.Offer(e);
    if !u.overflowed {
      assert u.offered + [e] == s.subs[i].offered + (events + [e]);
    }
  }

  lemma {:induction false} InvBroadcasts(s: State, events: seq<Event>)
    requires Inv(s) && !s.sending
    ensures
      var t := Broadcasts(s, events);
      Inv(t) && !t.sending && |t.subs| == |s.subs|
  {
    if events != [] {
      var n := |events| - 1;
      InvBroadcasts(s, events[..n]);
      InvBroadcast(Broadcasts(s, events[..n]), events[n]);
    }
  }

  /** Then a subscription overflows exactly when what it holds and what comes exceed its
      capacity, and it is offered everything unless that happens. */
  lemma {:induction false} UndisturbedOverflow(s: State, events: seq<Event>, i: nat)
    requires Inv(s) && !s.sending && i < |s.subs| && !s.subs[i].closed
    ensures Undisturbed(s, events, Broadcasts(s, events), i)
  {
    if events == [] {
      SubIsSound(s, i);
    } else {
      var n := |events| - 1;
      var m := Broadcasts(s, events[..n]);
      UndisturbedOverflow(s, events[..n], i);
      InvBroadcasts(s, events[..n]);
      SubIsSound(m, i);
      UndisturbedStep(s, events[..n], m, events[n], i);
      assert events == events[..n] + [events[n]];
      assert Broadcasts(s, events) == Broadcast(m, events[n]);
      hide *;
    }
  }
}

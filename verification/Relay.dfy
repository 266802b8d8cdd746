/** The event fan-out of a session as objects: the lossy input buffer
    (internal/runtime/emitter.go) and the relay with its bounded subscriptions
    (internal/runtime/session_manager.go). The ghost field spec is the state of the
    transition system, in which sequences of steps are reasoned about. */
module Relay {
  import opened Common
  import opened RelaySpec

  // ---------- the input channel ----------

  function Accepted(history: seq<(Event, bool)>): seq<Event> {
    if history == [] then []
    else
      var last := history[|history| - 1];
      Accepted(history[..|history| - 1]) + (if last.1 then [last.0] else [])
  }

  function Emitted(history: seq<(Event, bool)>): seq<Event> {
    if history == [] then [] else Emitted(history[..|history| - 1]) + [history[|history| - 1].0]
  }

  class EventChannel {
    const capacity: nat
    var buffer: seq<Event>
    var closed: bool
    ghost var consumed: seq<Event>
    ghost var history: seq<(Event, bool)>   // every event emitted while open, and whether it was kept

    ghost predicate Valid()
      reads this
    {
      |buffer| <= capacity && consumed + buffer == Accepted(history)
    }

    constructor (requested: int)
      ensures Valid() && !closed && buffer == [] && history == []
      ensures capacity == if requested < 0 then 0 else requested
    {
      capacity := if requested < 0 then 0 else requested;
      buffer, closed, consumed, history := [], false, [], [];
    }

    /** Keeps the event unless the buffer is full and nobody waits for it; never
        waits. It fails exactly when the channel is closed. */
    method Emit(event: Event, receiverWaiting: bool) returns (failed: bool)
      requires Valid() && (receiverWaiting ==> buffer == [])
      modifies this
      ensures Valid() && failed == old(closed) && closed == old(closed)
      ensures failed ==> buffer == old(buffer) && consumed == old(consumed) && history == old(history)
      ensures !failed ==>
        var kept := receiverWaiting || |old(buffer)| < capacity;
        && history == old(history) + [(event, kept)]
        && consumed + buffer == old(consumed + buffer) + (if kept then [event] else [])
        && consumed == old(consumed) + if receiverWaiting then [event] else []
    {
      if closed {
        return true;
      }
      var kept := receiverWaiting || |buffer| < capacity;
      history := history + [(event, kept)];
      assert history[..|history| - 1] == old(history);
      if receiverWaiting {
        consumed := consumed + [event];
      } else if |buffer| < capacity {
        buffer := buffer + [event];
      }
      assert receiverWaiting ==> buffer == [] && consumed + buffer == old(consumed + buffer) + [event];
      return false;
    }

    method Receive() returns (event: Option<Event>)
      requires Valid()
      modifies this`buffer, this`consumed
      ensures Valid()
      ensures event.None? ==> buffer == old(buffer) == [] && consumed == old(consumed)
      ensures event.Some? ==> old(buffer) == [event.value] + buffer && consumed == old(consumed) + [event.value]
    {
      if |buffer| == 0 {
        return None;
      }
      event := Some(buffer[0]);
      consumed := consumed + [buffer[0]];
      buffer := buffer[1..];
    }

    method Close()
      requires Valid()
      modifies this`closed
      ensures Valid() && closed && buffer == old(buffer)
    {
      if closed {
        return;
      }
      closed := true;
    }
  }

  // ---------- a subscription ----------

  class EventSubscription {
    const capacity: nat
    const relay: SessionEventRelay?   // where Close deregisters; none when made closed
    var buffer: seq<Event>
    var closed: bool
    var overflowed: bool
    var errorEvent: Option<Event>
    ghost const joined: nat          // events broadcast before it registered
    ghost var offered: seq<Event>    // every event the relay has tried to send it
    ghost var consumed: seq<Event>
    ghost var failing: bool          // the last send failed and is not marked yet
    ghost var behindAt: nat          // events consumed when a send failed
    ghost var lost: Option<nat>      // place in offered of the event the mark dropped

    ghost function Home(): set<SessionEventRelay> {
      if relay == null then {} else {relay}
    }

    // Closing here includes the relay's forgetting the subscription.
    ghost function View(): Sub
      reads this
    {
      Sub(capacity, joined, offered, consumed, buffer, closed, !closed, failing, overflowed, behindAt, lost)
    }

    // The signal is recorded exactly after an overflow.
    ghost predicate Valid()
      reads this
    {
      && View().Sound()
      && errorEvent == if overflowed then Some(OverflowSignal(offered[|offered| - 1])) else None
    }

    constructor (requested: int, relay: SessionEventRelay?, open: bool, ghost joined: nat)
      ensures Valid() && this.relay == relay && closed == !open
      ensures View() == NewSub(requested, joined).(closed := !open, listed := open)
      ensures capacity == if requested > 0 then requested else 256
    {
      capacity := BufferSize(requested);
      this.relay := relay;
      this.joined := joined;
      buffer, closed, overflowed, errorEvent := [], !open, false, None;
      offered, consumed, failing, behindAt, lost := [], [], false, 0, None;
    }

    /** Sends if the subscription is open and has room, and never waits. */
    method TrySend(event: Event) returns (sent: bool)
      modifies this`buffer, this`offered, this`failing, this`behindAt
      ensures sent == (!closed && |old(buffer)| < capacity)
      ensures View() == if closed then old(View()) else old(View()).Send(event)
    {
      if closed {
        return false;
      }
      offered := offered + [event];
      if |buffer| < capacity {
        buffer := buffer + [event];
        return true;
      }
      failing, behindAt := true, |consumed|;
      return false;
    }

    /** Closing is done once: what is buffered stays to be read, and the relay
        forgets the subscription. */
    method Close()
      modifies this`closed, Home()`subscribers
      ensures (old(Valid()) ==> Valid()) && View() == if old(closed) then old(View()) else old(View()).Leave()
      ensures relay != null ==>
        relay.subscribers == if old(closed) then old(relay.subscribers) else old(relay.subscribers) - {this}
    {
      if closed {
        return;
      }
      closed := true;
      if relay != null {
        relay.subscribers := relay.subscribers - {this};
      }
    }

    /** Makes room by losing the oldest buffered event, leaves the signal as the last
        one, and closes. Sending on a subscription its consumer has closed meanwhile
        fails; in the Go program that is a panic. */
    method MarkOverflow(signal: Event) returns (ok: bool)
      requires 1 <= capacity && |buffer| <= capacity
      modifies this`overflowed, this`errorEvent, this`buffer, this`closed, this`failing, this`lost, Home()`subscribers
      ensures ok <==> old(overflowed) || !old(closed)
      ensures old(overflowed) ==>
        && View() == old(View()) && errorEvent == old(errorEvent)
        && (relay != null ==> relay.subscribers == old(relay.subscribers))
      ensures !old(overflowed) ==> overflowed && errorEvent == Some(signal)
      ensures !old(overflowed) && ok ==>
        && closed && buffer == (if old(buffer) == [] then [] else old(buffer)[1..]) + [signal]
        && (relay != null ==> relay.subscribers == old(relay.subscribers) - {this})
      ensures !old(overflowed) && ok && offered != [] && signal == OverflowSignal(offered[|offered| - 1]) ==>
        View() == old(View()).Mark()
    {
      if overflowed {
        return true;
      }
      overflowed, failing := true, false;
      lost := if |buffer| > 0 then Some(|consumed|) else None;
      errorEvent := Some(signal);
      if |buffer| > 0 {
        buffer := buffer[1..];
      }
      if closed {
        return false;
      }
      if |buffer| < capacity {
        buffer := buffer + [signal];
      }
      Close();
      return true;
    }

    /** The consumer takes the oldest buffered event, closed or not; with none left
        it waits if the subscription is open. */
    method Take() returns (event: Option<Event>)
      requires Valid()
      modifies this`buffer, this`consumed
      ensures Valid() && View() == old(View()).Take()
      ensures event.None? <==> old(buffer) == []
      ensures event.Some? ==> event.value == old(buffer)[0]
    {
      TakeIsSound(View());
      hide Surviving;
      if |buffer| == 0 {
        return None;
      }
      event := Some(buffer[0]);
      consumed := consumed + [buffer[0]];
      buffer := buffer[1..];
    }

    method OverflowEvent() returns (event: Option<Event>)
      requires Valid()
      ensures event.Some? <==> overflowed
      ensures event.Some? ==>
        && offered != []
        && event.value == if offered[|offered| - 1].kind == SessionComplete then offered[|offered| - 1]
           else Event(Failure, "stream subscriber fell behind and was disconnected")
      ensures event.Some? ==>
        View().Delivered() != [] && View().Delivered()[|View().Delivered()| - 1] == event.value
    {
      if !overflowed || errorEvent.None? {
        return None;
      }
      event := errorEvent;
    }
  }

  // ---------- the relay ----------

  /** Each method up to Finish is one step of the system: what other parties do comes
      between any two of them. */
  class SessionEventRelay {
    const bufferSize: nat
    var subscribers: set<EventSubscription>
    var closed: bool
    ghost var issued: seq<EventSubscription>   // every subscription ever handed out open
    ghost var spec: State

    ghost predicate Registry()
      reads this
    {
      && spec.closed == closed && spec.bufferSize == bufferSize && |spec.subs| == |issued|
      && !spec.crashed && Settled(spec)
      && (forall i, j :: 0 <= i < j < |issued| ==> issued[i] != issued[j])
      && (forall s :: s in subscribers ==> s in issued)
    }

    ghost predicate Valid()
      reads this, issued
    {
      && Registry() && Inv(spec)
      && (forall i :: 0 <= i < |issued| ==> Mirrors(issued[i], spec.subs[i]))
      && Listed(issued, subscribers, spec.subs)
    }

    // Registered are those of all that are open.
    static ghost predicate Listed(all: seq<EventSubscription>, registered: set<EventSubscription>, subs: seq<Sub>)
      requires |all| == |subs|
    {
      forall i :: 0 <= i < |all| ==> (all[i] in registered <==> !subs[i].closed)
    }

    lemma OneListed(registered: set<EventSubscription>, subs: seq<Sub>, i: nat, after: seq<Sub>)
      requires Registry() && |issued| == |subs| == |after| && i < |subs| && Listed(issued, registered, subs)
      requires forall j :: 0 <= j < |subs| && j != i ==> after[j] == subs[j]
      ensures after[i].closed ==> Listed(issued, registered - {issued[i]}, after)
      ensures after[i].closed == subs[i].closed ==> Listed(issued, registered, after)
    {
    }

    // A handed out subscription, as the transition system has it.
    ghost predicate Mirrors(s: EventSubscription, t: Sub)
      reads s
    {
      s.View() == t && s.Valid() && s.relay == this
    }

    // What the steps of one subscription need to know of it, and what is left to show.
    lemma MirrorOf(i: nat)
      requires Valid() && i < |issued|
      ensures Mirrors(issued[i], spec.subs[i]) && Inv(spec) && spec.subs[i].Sound()
      ensures issued[i].View() == spec.subs[i] && issued[i].Valid() && issued[i].relay == this
    {
      SubIsSound(spec, i);
      hide Inv;
    }

    lemma MirrorsNow(s: EventSubscription, t: Sub)
      requires s.View() == t && s.Valid() && s.relay == this
      ensures Mirrors(s, t)
    {
    }

    constructor (requested: int)
      ensures Valid() && spec == Init(requested) && issued == []
      ensures bufferSize == if requested > 0 then requested else 256
    {
      bufferSize := BufferSize(requested);
      subscribers, closed, issued := {}, false, [];
      spec := Init(requested);
    }

    /** A subscription is registered unless the relay is closed; then it is handed out
        closed. */
    method Subscribe(requested: int) returns (sub: EventSubscription)
      requires Valid()
      modifies this
      ensures Valid() && fresh(sub) && sub.Valid() && sub.closed == old(closed) == closed
      ensures sub.capacity == if requested > 0 then requested else bufferSize
      ensures spec == After(old(spec), RelaySpec.Subscribe(requested))
      ensures issued == if old(closed) then old(issued) else old(issued) + [sub]
    {
      var buffer := if requested <= 0 then bufferSize else requested;
      assert buffer >= 1;
      InvAfter(spec, RelaySpec.Subscribe(requested));
      JoinIs(spec, requested);
      hide Inv;
      hide Sub.Sound;
      hide Mirrors;
      hide After;
      if closed {
        sub := new EventSubscription(buffer, null, false, 0);
        return;
      }
      sub := new EventSubscription(buffer, this, true, |spec.history|);
      subscribers := subscribers + {sub};
      issued := issued + [sub];
      spec := After(spec, RelaySpec.Subscribe(requested));
      MirrorsNow(sub, spec.subs[|issued| - 1]);
    }

    // A broadcast starts with the subscriptions registered then.
    method Begin(event: Event) returns (targets: set<EventSubscription>)
      requires Valid() && Enabled(spec, RelaySpec.Begin(event))
      modifies this`spec
      ensures Valid() && spec == After(old(spec), RelaySpec.Begin(event))
      ensures targets == subscribers && ToDo(targets, spec.todo)
    {
      InvAfter(spec, RelaySpec.Begin(event));
      hide Inv;
      hide Sub.Sound;
      spec := After(spec, RelaySpec.Begin(event));
      return subscribers;
    }

    // These are the subscriptions the broadcast has still to be sent to.
    ghost predicate ToDo(rest: set<EventSubscription>, todo: set<nat>)
      reads this`issued
    {
      && (forall s :: s in rest ==> s in issued)
      && (forall i :: i in todo ==> i < |issued|)
      && forall i: nat :: i < |issued| ==> (issued[i] in rest <==> i in todo)
    }

    lemma DoneWith(rest: set<EventSubscription>, todo: set<nat>, i: nat)
      requires Valid() && i < |issued| && ToDo(rest, todo)
      ensures ToDo(rest - {issued[i]}, todo - {i})
    {
      hide Inv;
    }

    // The event is sent to one subscription, if it has room.
    method Send(sub: EventSubscription, event: Event, ghost i: nat) returns (sent: bool)
      requires Valid() && i < |issued| && issued[i] == sub && Enabled(spec, RelaySpec.Send(i))
      requires spec.history != [] && spec.history[|spec.history| - 1] == event
      modifies this`spec, sub`buffer, sub`offered, sub`failing, sub`behindAt
      ensures Valid() && spec == After(old(spec), RelaySpec.Send(i))
      ensures sent <==> spec.marking.None?
    {
      MirrorOf(i);
      InvAfter(spec, RelaySpec.Send(i));
      SendOne(spec, i);
      hide Inv;
      hide Mirrors;
      hide Sub.Sound;
      hide After;
      sent := sub.TrySend(event);
      spec := After(spec, RelaySpec.Send(i));
      MirrorsNow(sub, spec.subs[i]);
    }

    // The subscription whose send failed is marked. When its consumer has closed it
    // meanwhile, that fails and nothing more is promised.
    method Mark(sub: EventSubscription, event: Event, ghost i: nat) returns (ok: bool)
      requires Valid() && i < |issued| && issued[i] == sub && spec.marking == Some(i)
      requires spec.history != [] && spec.history[|spec.history| - 1] == event
      modifies this`spec, this`subscribers, sub
      ensures ok <==> !old(sub.closed)
      ensures spec == After(old(spec), RelaySpec.Mark) && Enabled(old(spec), RelaySpec.Mark)
      ensures ok <==> !spec.crashed
      ensures ok ==> Valid() && subscribers == old(subscribers) - {sub}
    {
      MirrorOf(i);
      if sub.closed {
        ok := sub.MarkOverflow(OverflowSignal(event));
        spec := After(spec, RelaySpec.Mark);
        return;
      }
      OneSub(spec, RelaySpec.Mark, i);
      hide Inv;
      hide Mirrors;
      hide Sub.Sound;
      hide EventSubscription.Valid;
      hide After;
      hide Enabled;
      hide Sub.Mark;
      OneListed(subscribers, spec.subs, i, After(spec, RelaySpec.Mark).subs);
      hide Listed;
      MarkSub(sub, event);
      spec := After(spec, RelaySpec.Mark);
      MirrorsNow(sub, spec.subs[i]);
      ok := true;
    }

    method MarkSub(sub: EventSubscription, event: Event)
      requires sub.Valid() && sub.failing && !sub.closed && sub.relay == this
      requires sub.offered != [] && sub.offered[|sub.offered| - 1] == event
      modifies this`subscribers, sub
      ensures sub.Valid() && sub.View() == old(sub.View()).Mark()
      ensures subscribers == old(subscribers) - {sub}
    {
      MarkIsSound(sub.View());
      hide Surviving;
      hide OverflowSignal;
      var ok := sub.MarkOverflow(OverflowSignal(event));
    }

    // A broadcast is through all its subscriptions.
    method Finish()
      requires Valid() && Enabled(spec, RelaySpec.Finish)
      modifies this`spec
      ensures Valid() && spec == After(old(spec), RelaySpec.Finish)
    {
      InvAfter(spec, RelaySpec.Finish);
      hide Inv;
      hide Sub.Sound;
      spec := After(spec, RelaySpec.Finish);
    }

    /** A whole broadcast, with nobody else acting: every registered subscription is
        offered the event, in any order. */
    method Broadcast(event: Event)
      requires Valid() && Enabled(spec, RelaySpec.Begin(event))
      modifies this`subscribers, this`spec, issued
      ensures Valid() && spec == RelaySpec.Broadcast(old(spec), event)
      ensures !spec.sending
    {
      ghost var start := spec;
      ValidInv();
      BroadcastBegins(start, event);
      assert !start.sending && start.todo == {};
      hide *;
      var targets := Begin(event);
      DeliverAll(targets, event, start);
      ValidInv();
      BroadcastEnds(start, event, spec);
      Finish();
    }

    method DeliverAll(targets: set<EventSubscription>, event: Event, ghost start: State)
      requires Valid() && ToDo(targets, spec.todo) && Midway(start, event, spec)
      modifies this`subscribers, this`spec, issued
      ensures Valid() && spec.todo == {} && Midway(start, event, spec)
    {
      hide *;
      var rest := targets;
      while rest != {}
        invariant Valid() && ToDo(rest, spec.todo) && Midway(start, event, spec)
      {
        var sub :| sub in rest;
        ghost var i := Index(rest, spec.todo, sub);
        DoneWith(rest, spec.todo, i);
        rest := rest - {sub};
        Deliver(sub, event, start, i);
      }
      NothingToDo(spec.todo);
    }

    lemma Index(rest: set<EventSubscription>, todo: set<nat>, sub: EventSubscription) returns (i: nat)
      requires ToDo(rest, todo) && sub in rest
      ensures i < |issued| && issued[i] == sub && i in todo
    {
      i :| 0 <= i < |issued| && issued[i] == sub;
    }

    lemma NothingToDo(todo: set<nat>)
      requires ToDo({}, todo)
      ensures todo == {}
    {
    }

    // One subscription's part of a broadcast.
    method Deliver(sub: EventSubscription, event: Event, ghost start: State, ghost i: nat)
      requires Valid() && i < |issued| && issued[i] == sub && i in spec.todo && Midway(start, event, spec)
      modifies this`spec, this`subscribers, sub
      ensures Valid() && Midway(start, event, spec) && spec == Deal(old(spec), i)
      ensures spec.todo == old(spec.todo) - {i}
    {
      ValidInv();
      BroadcastGoesOn(start, event, spec, i);
      hide Inv;
      hide Valid;
      hide Sub.Sound;
      hide Midway;
      var sent := Send(sub, event, i);
      if !sent {
        var ok := Mark(sub, event, i);
      }
    }

    /** No subscription is accepted any more and every registered one is closed, its
        buffer still to be read. */
    method CloseAll()
      requires Valid() && !spec.sending
      modifies this`subscribers, this`closed, this`spec, issued`closed
      ensures Valid() && spec == After(old(spec), RelaySpec.CloseAll)
    {
      EachOpen();
      hide Inv;
      hide Waits;
      hide Mirrors;
      closed := true;
      var rest := subscribers;
      subscribers := {};
      CloseEach(rest);
      AllClosed();
      spec := After(spec, RelaySpec.CloseAll);
    }

    // Closes the subscriptions taken out of the registry.
    method CloseEach(all: set<EventSubscription>)
      requires subscribers == {} && |spec.subs| == |issued|
      requires forall i :: 0 <= i < |issued| ==> Waits(issued[i], spec.subs[i], all)
      requires forall s :: s in all ==> s in issued
      modifies this`subscribers, all`closed
      ensures subscribers == {}
      ensures forall i :: 0 <= i < |issued| ==> Waits(issued[i], spec.subs[i].Leave(), {})
    {
      var rest := all;
      while rest != {}
        invariant rest <= all && subscribers == {}
        invariant forall i :: 0 <= i < |issued| ==>
          Waits(issued[i], if issued[i] in rest then spec.subs[i] else spec.subs[i].Leave(), rest)
      {
        var sub :| sub in rest;
        rest := rest - {sub};
        sub.Close();
      }
    }

    // A subscription of this relay is in the state t, and open exactly while it waits
    // to be closed.
    ghost predicate Waits(s: EventSubscription, t: Sub, waiting: set<EventSubscription>)
      reads s
    {
      Mirrors(s, t) && (s in waiting <==> !t.closed)
    }

    lemma EachOpen()
      requires Valid() && !spec.sending
      ensures |spec.subs| == |issued| && forall i :: 0 <= i < |issued| ==> Waits(issued[i], spec.subs[i], subscribers)
      ensures forall s :: s in subscribers ==> s in issued
    {
      hide Inv;
      hide Sub.Sound;
    }

    // Everything is closed once no subscription waits any more.
    lemma AllClosed()
      requires Inv(spec) && !spec.sending && closed && subscribers == {}
      requires spec.bufferSize == bufferSize && |spec.subs| == |issued|
      requires forall i, j :: 0 <= i < j < |issued| ==> issued[i] != issued[j]
      requires forall i :: 0 <= i < |issued| ==> Waits(issued[i], spec.subs[i].Leave(), {})
      ensures Inv(After(spec, RelaySpec.CloseAll))
      ensures After(spec, RelaySpec.CloseAll).closed && After(spec, RelaySpec.CloseAll).bufferSize == bufferSize
      ensures |After(spec, RelaySpec.CloseAll).subs| == |issued|
      ensures forall i :: 0 <= i < |issued| ==> Mirrors(issued[i], After(spec, RelaySpec.CloseAll).subs[i])
    {
      InvAfter(spec, RelaySpec.CloseAll);
      hide Inv;
      hide Sub.Sound;
    }

    // A consumer takes from a subscription of this relay.
    method ConsumerTakes(sub: EventSubscription, ghost i: nat) returns (event: Option<Event>)
      requires Valid() && i < |issued| && issued[i] == sub
      modifies this`spec, sub`buffer, sub`consumed
      ensures Valid() && spec == After(old(spec), RelaySpec.Take(i))
    {
      MirrorOf(i);
      OneSub(spec, RelaySpec.Take(i), i);
      OneListed(subscribers, spec.subs, i, After(spec, RelaySpec.Take(i)).subs);
      hide Listed;
      hide Inv;
      hide Mirrors;
      hide Sub.Sound;
      hide After;
      hide Sub.Take;
      event := sub.Take();
      spec := After(spec, RelaySpec.Take(i));
      MirrorsNow(sub, spec.subs[i]);
    }

    // A consumer closes a subscription of this relay, which forgets it.
    method ConsumerCloses(sub: EventSubscription, ghost i: nat)
      requires Valid() && i < |issued| && issued[i] == sub
      modifies this`spec, this`subscribers, sub`closed
      ensures Valid() && spec == After(After(old(spec), RelaySpec.Close(i)), Unlist(i))
    {
      MirrorOf(i);
      CloseOne(spec, i);
      ghost var t := After(After(spec, RelaySpec.Close(i)), Unlist(i));
      OneListed(subscribers, spec.subs, i, t.subs);
      hide Listed;
      hide Inv;
      hide Mirrors;
      hide Sub.Sound;
      hide After;
      sub.Close();
      spec := t;
      MirrorsNow(sub, spec.subs[i]);
    }

    /** The relay's whole life: while the session goes on emitting into the input, and
        after it has closed the input, every event the input kept is broadcast in order;
        then all is closed. With no client acting meanwhile, a subscription overflows
        exactly when what it holds and what comes exceed its capacity. */
    method Run(input: EventChannel, late: seq<Event>) returns (ghost sent: seq<Event>)
      requires Valid() && input.Valid() && !spec.sending
      modifies this`subscribers, this`closed, this`spec, issued, input
      ensures Valid() && input.Valid() && issued == old(issued)
      ensures input.closed && input.buffer == [] && input.consumed == old(input.consumed) + sent
      ensures input.consumed == Accepted(input.history)
      ensures Emitted(input.history) == Emitted(old(input.history)) + if old(input.closed) then [] else late
      ensures spec == After(Broadcasts(old(spec), sent), RelaySpec.CloseAll)
      ensures forall i :: 0 <= i < |issued| && !old(issued[i].closed) ==>
        (issued[i].overflowed <==> |old(issued[i].buffer)| + |sent| > issued[i].capacity)
    {
      ghost var start := spec;
      ValidInv();
      hide *;
      sent := Relay(input, late);
      CloseAll();
      RunOverflow(start, sent);
    }

    // Broadcasts what comes through the input until it is closed and empty.
    method Relay(input: EventChannel, late: seq<Event>) returns (ghost sent: seq<Event>)
      requires Valid() && input.Valid() && !spec.sending
      modifies this`subscribers, this`spec, issued, input
      ensures Valid() && !spec.sending && input.Valid() && input.closed && input.buffer == []
      ensures input.consumed == old(input.consumed) + sent && input.consumed == Accepted(input.history)
      ensures Emitted(input.history) == Emitted(old(input.history)) + if old(input.closed) then [] else late
      ensures spec == Broadcasts(old(spec), sent)
    {
      sent := [];
      ghost var start, before := spec, input.history;
      var toCome := if input.closed then [] else late;
      ghost var all := Emitted(before) + toCome;
      assert Broadcasts(start, []) == start;
      hide *;
      while !input.closed || |input.buffer| > 0
        invariant Valid() && !spec.sending && spec == Broadcasts(start, sent)
        invariant input.Valid() && input.consumed == old(input.consumed) + sent
        invariant Emitted(input.history) + toCome == all && (input.closed ==> toCome == [])
        decreases 2 * |toCome| + |input.buffer| + if input.closed then 0 else 1
      {
        var event: Option<Event>;
        event, toCome := InputMoves(input, toCome);
        if event.Some? {
          BroadcastsOneMore(start, sent, event.value);
          EnabledBegin(event.value);
          Broadcast(event.value);
          sent := sent + [event.value];
        }
      }
      InputIs(input);
    }

    lemma InputIs(input: EventChannel)
      requires input.Valid() && input.buffer == []
      ensures input.consumed == Accepted(input.history)
    {
    }

    // One thing happens at the input: the relay receives, or the session emits its next
    // event or closes the input after the last. An emitted event goes to the relay at
    // once when it is waiting.
    method InputMoves(input: EventChannel, toCome: seq<Event>) returns (event: Option<Event>, left: seq<Event>)
      requires input.Valid() && (input.closed ==> toCome == [] && input.buffer != [])
      modifies input
      ensures input.Valid() && (input.closed ==> left == [])
      ensures Emitted(input.history) + left == Emitted(old(input.history)) + toCome
      ensures input.consumed == old(input.consumed) + if event.Some? then [event.value] else []
      ensures
        2 * |left| + |input.buffer| + (if input.closed then 0 else 1)
        < 2 * |toCome| + |old(input.buffer)| + if old(input.closed) then 0 else 1
    {
      hide *;
      left := toCome;
      var sessionActs: bool := *;
      if input.closed || (!sessionActs && |input.buffer| > 0) {
        event := input.Receive();
      } else if |toCome| == 0 {
        event := None;
        input.Close();
      } else {
        var waiting: bool := *;
        waiting := waiting && |input.buffer| == 0;
        event := if waiting then Some(toCome[0]) else None;
        EmittedNext(input.history, toCome);
        var failed := input.Emit(toCome[0], waiting);
        left := toCome[1..];
      }
    }

    lemma EnabledBegin(event: Event)
      requires Valid() && !spec.sending
      ensures Enabled(spec, RelaySpec.Begin(event))
    {
    }

    lemma ValidInv()
      requires Valid()
      ensures Inv(spec) && |spec.subs| == |issued|
      ensures forall i :: 0 <= i < |issued| ==> spec.subs[i].closed == issued[i].closed
      ensures forall i :: 0 <= i < |issued| ==>
        spec.subs[i].buffer == issued[i].buffer && spec.subs[i].capacity == issued[i].capacity
    {
    }

  }

  lemma JoinIs(s: State, requested: int)
    requires !s.crashed && s.bufferSize >= 1
    ensures
      var t := After(s, Subscribe(requested));
      var sub := NewSub(if requested <= 0 then s.bufferSize else requested, |s.history|);
      && (s.closed ==> t == s) && (!s.closed ==> t == s.(subs := s.subs + [sub]))
      && (Settled(s) ==> Settled(t))
  {
  }

  // A step that changes one subscription.
  lemma OneSub(s: State, op: Op, i: nat)
    requires Inv(s) && i < |s.subs| && Enabled(s, op) && (op == Mark ==> s.marking == Some(i))
    requires op == Take(i) || (op == Mark && !s.subs[i].closed)
    ensures
      var t, u := After(s, op), s.subs[i];
      && Inv(t) && t.closed == s.closed && t.bufferSize == s.bufferSize && |t.subs| == |s.subs|
      && (forall j :: 0 <= j < |s.subs| && j != i ==> t.subs[j] == s.subs[j])
      && (op == Mark ==>
        u.offered != [] && t.subs[i] == u.Mark() && t.subs[i].closed && t.subs[i].overflowed)
      && (op == Take(i) ==> t.subs[i] == u.Take() && t.subs[i].closed == u.closed)
      && t.crashed == s.crashed && (Settled(s) ==> Settled(t))
  {
    InvAfter(s, op);
    hide Inv;
  }

  lemma SendOne(s: State, i: nat)
    requires Inv(s) && Enabled(s, Send(i)) && !s.subs[i].failing && s.history != []
    ensures
      var t, u, e := After(s, Send(i)), s.subs[i], s.history[|s.history| - 1];
      && Inv(t) && t.closed == s.closed && t.bufferSize == s.bufferSize && |t.subs| == |s.subs|
      && (forall j :: 0 <= j < |s.subs| && j != i ==> t.subs[j] == s.subs[j])
      && t.subs[i] == (if u.closed then u else u.Send(e)) && t.subs[i].Sound()
      && t.subs[i].closed == u.closed
      && (t.marking.None? <==> !u.closed && |u.buffer| < u.capacity)
      && t.crashed == s.crashed && (Settled(s) ==> Settled(t))
  {
    SubIsSound(s, i);
    InvAfter(s, Send(i));
    SubIsSound(After(s, Send(i)), i);
    hide Inv;
    hide Sub.Sound;
  }

  // A consumer's closing and the relay's forgetting one after the other.
  lemma CloseOne(s: State, i: nat)
    requires Inv(s) && !s.crashed && i < |s.subs|
    ensures
      var t := After(After(s, Close(i)), Unlist(i));
      && Inv(t) && t == s.(subs := s.subs[i := s.subs[i].Leave()])
      && (Settled(s) ==> Settled(t))
  {
    InvAfter(s, Close(i));
    InvAfter(After(s, Close(i)), Unlist(i));
    hide Inv;
    hide Sub.Sound;
  }

  lemma EmittedNext(history: seq<(Event, bool)>, toCome: seq<Event>)
    requires toCome != []
    ensures forall kept ::
      Emitted(history + [(toCome[0], kept)]) + toCome[1..] == Emitted(history) + toCome
  {
    forall kept
      ensures Emitted(history + [(toCome[0], kept)]) + toCome[1..] == Emitted(history) + toCome
    {
      assert (history + [(toCome[0], kept)])[..|history|] == history;
    }
  }

  lemma BroadcastsOneMore(start: State, sent: seq<Event>, e: Event)
    ensures Broadcasts(start, sent + [e]) == Broadcast(Broadcasts(start, sent), e)
  {
    assert (sent + [e])[..|sent|] == sent;
  }

  lemma RunOverflow(start: State, sent: seq<Event>)
    requires Inv(start) && !start.sending
    ensures
      var t := After(Broadcasts(start, sent), RelaySpec.CloseAll);
      && |t.subs| == |start.subs|
      && forall i :: 0 <= i < |start.subs| && !start.subs[i].closed ==>
        (t.subs[i].overflowed <==> |start.subs[i].buffer| + |sent| > t.subs[i].capacity)
  {
    var t := After(Broadcasts(start, sent), RelaySpec.CloseAll);
    InvBroadcasts(start, sent);
    forall i: nat | i < |start.subs| && !start.subs[i].closed
      ensures t.subs[i].overflowed <==> |start.subs[i].buffer| + |sent| > t.subs[i].capacity
    {
      UndisturbedOverflow(start, sent, i);
    }
  }
}

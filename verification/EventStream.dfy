/** The line protocol of server-sent events as the client reads it (ParseSSE in
    internal/llm/sse.go) and as an encoder writes it. The reader follows
    "Interpreting an event stream", section 9.2.6 of the WHATWG HTML Standard, in how
    it gathers data lines, except that it also dispatches at end of input, stops at a
    done marker, and skips a line data without a colon. Fields other than data are
    skipped. */
module EventStream {

  const DONE_MARKER := "[DONE]"

  type Lines = seq<string>

  // ---------- what a stream of lines means ----------

  predicate HasPrefix(s: string, p: string) {
    |p| <= |s| && s[..|p|] == p
  }

  function TrimPrefix(s: string, p: string): string {
    if HasPrefix(s, p) then s[|p|..] else s
  }

  predicate IsData(line: string) {
    HasPrefix(line, "data:")
  }

  function DataOf(line: string): string {
    TrimPrefix(TrimPrefix(line, "data:"), " ")
  }

  function Join(parts: Lines): string {
    if parts == [] then ""
    else if |parts| == 1 then parts[0]
    else parts[0] + "\n" + Join(parts[1..])
  }

  // The chunk held in pending, if any.
  function Dispatched(pending: Lines): Lines {
    if pending == [] then [] else [Join(pending)]
  }

  /** Every chunk the lines dispatch, in order, when pending holds the data lines of
      the event being read; the end of input dispatches too. */
  ghost function Chunks(lines: Lines, pending: Lines): Lines {
    if lines == [] then Dispatched(pending)
    else if lines[0] == "" then Dispatched(pending) + Chunks(lines[1..], [])
    else if IsData(lines[0]) then Chunks(lines[1..], pending + [DataOf(lines[0])])
    else Chunks(lines[1..], pending)
  }

  // The chunks before the first done marker.
  ghost function BeforeDone(chunks: Lines): Lines {
    if chunks == [] || chunks[0] == DONE_MARKER then []
    else [chunks[0]] + BeforeDone(chunks[1..])
  }

  lemma {:induction false} BeforeDoneConcat(a: Lines, b: Lines)
    ensures DONE_MARKER !in a ==> BeforeDone(a + b) == a + BeforeDone(b)
    ensures DONE_MARKER in a ==> BeforeDone(a + b) == BeforeDone(a)
  {
    if a == [] {
      assert a + b == b;
    } else {
      assert a == [a[0]] + a[1..];
      assert (a + b)[1..] == a[1..] + b;
      BeforeDoneConcat(a[1..], b);
    }
  }

  // ---------- what a reader is to do ----------

  // One thing to do: read a line, hand a chunk to the consumer, meet an error of the
  // input, or look at the context when all is done.
  datatype Action = ReadLine | Offer(chunk: string) | InputFails | LookLast

  ghost function Offers(pending: Lines): seq<Action> {
    if pending == [] then [] else [Offer(Join(pending))]
  }

  // What the lines give to do, the end of the input apart.
  ghost function LineActions(lines: Lines, pending: Lines): seq<Action> {
    if lines == [] then []
    else if lines[0] == "" then [ReadLine] + Offers(pending) + LineActions(lines[1..], [])
    else if IsData(lines[0]) then [ReadLine] + LineActions(lines[1..], pending + [DataOf(lines[0])])
    else [ReadLine] + LineActions(lines[1..], pending)
  }

  // The data lines not yet closed by a blank line.
  ghost function Unclosed(lines: Lines, pending: Lines): Lines {
    if lines == [] then pending
    else if lines[0] == "" then Unclosed(lines[1..], [])
    else if IsData(lines[0]) then Unclosed(lines[1..], pending + [DataOf(lines[0])])
    else Unclosed(lines[1..], pending)
  }

  /** All there is to do for lines when pending is not closed yet. */
  ghost function Agenda(lines: Lines, pending: Lines, readFails: bool): seq<Action> {
    LineActions(lines, pending)
      + if readFails then [InputFails] else Offers(Unclosed(lines, pending)) + [LookLast]
  }

  ghost function Offered(agenda: seq<Action>): Lines {
    if agenda == [] then [] else OfferedBy(agenda[0]) + Offered(agenda[1..])
  }

  function OfferedBy(action: Action): Lines {
    if action.Offer? then [action.chunk] else []
  }

  lemma OfferedUnfold(agenda: seq<Action>)
    requires agenda != []
    ensures Offered(agenda) == OfferedBy(agenda[0]) + Offered(agenda[1..])
  {
  }

  lemma OfferedUnfoldJoined(a: seq<Action>, b: seq<Action>)
    requires a != []
    ensures Offered(a + b) == OfferedBy(a[0]) + Offered(a[1..] + b)
  {
    hide Offered;
    OfferedUnfold(a + b);
    assert (a + b)[1..] == a[1..] + b;
  }

  lemma {:induction false} OfferedConcat(a: seq<Action>, b: seq<Action>)
    ensures Offered(a + b) == Offered(a) + Offered(b)
  {
    if a == [] {
      assert a + b == b;
    } else {
      hide *;
      OfferedUnfold(a);
      OfferedUnfoldJoined(a, b);
      OfferedConcat(a[1..], b);
    }
  }

  lemma Regroup(a: Lines, b: Lines, c: Lines)
    ensures [] + a + b + c == a + (b + c)
  {
  }

  lemma NoOffer()
    ensures Offered([ReadLine]) == [] && Offered([]) == []
  {
    assert [ReadLine][1..] == [];
  }

  lemma OfferedOffers(pending: Lines)
    ensures Offered(Offers(pending)) == Dispatched(pending)
  {
    if pending != [] {
      assert Offers(pending)[1..] == [];
    }
  }

  /** The lines offer what they dispatch, the unclosed rest only at the end. */
  lemma {:induction false} AgendaOffers(lines: Lines, pending: Lines)
    ensures Offered(LineActions(lines, pending)) + Dispatched(Unclosed(lines, pending)) == Chunks(lines, pending)
    decreases |lines|
  {
    if lines != [] {
      var rest := if lines[0] == "" then [] else if IsData(lines[0]) then pending + [DataOf(lines[0])] else pending;
      AgendaOffers(lines[1..], rest);
      var now := if lines[0] == "" then Offers(pending) else [];
      var tail := LineActions(lines[1..], rest);
      UnfoldActions(lines, pending, rest, now);
      assert Chunks(lines, pending) == Offered(now) + Chunks(lines[1..], rest) by {
        OfferedOffers(pending);
      }
      hide *;
      NoOffer();
      OfferedConcat([ReadLine] + now, tail);
      OfferedConcat([ReadLine], now);
      Regroup(Offered(now), Offered(tail), Dispatched(Unclosed(lines[1..], rest)));
    }
  }

  lemma AllChunksOffered(lines: Lines, pending: Lines)
    ensures Offered(Agenda(lines, pending, false)) == Chunks(lines, pending)
  {
    var a, o := LineActions(lines, pending), Offers(Unclosed(lines, pending));
    OfferedConcat(a, o + [LookLast]);
    OfferedConcat(o, [LookLast]);
    OfferedOffers(Unclosed(lines, pending));
    AgendaOffers(lines, pending);
    assert [LookLast][1..] == [] && Offered([LookLast]) == [];
  }

  lemma {:induction false} AgendaConcat(a: Lines, b: Lines, pending: Lines, readFails: bool)
    ensures Agenda(a + b, pending, readFails)
      == LineActions(a, pending) + Agenda(b, Unclosed(a, pending), readFails)
    decreases |a|
  {
    if a == [] {
      assert a + b == b;
      assert [] + Agenda(b, pending, readFails) == Agenda(b, pending, readFails);
    } else {
      assert (a + b)[0] == a[0] && (a + b)[1..] == a[1..] + b;
      var rest := if a[0] == "" then [] else if IsData(a[0]) then pending + [DataOf(a[0])] else pending;
      var now := if a[0] == "" then Offers(pending) else [];
      UnfoldAgenda(a + b, pending, readFails, rest, now);
      UnfoldActions(a, pending, rest, now);
      hide *;
      AgendaConcat(a[1..], b, rest, readFails);
      JoinActions([ReadLine] + now, LineActions(a[1..], rest), Agenda(b, Unclosed(a[1..], rest), readFails));
    }
  }

  lemma JoinActions(a: seq<Action>, b: seq<Action>, c: seq<Action>)
    ensures a + b + c == a + (b + c)
  {
  }

  lemma UnfoldActions(lines: Lines, pending: Lines, rest: Lines, now: seq<Action>)
    requires lines != []
    requires rest == if lines[0] == "" then [] else if IsData(lines[0]) then pending + [DataOf(lines[0])] else pending
    requires now == if lines[0] == "" then Offers(pending) else []
    ensures LineActions(lines, pending) == [ReadLine] + now + LineActions(lines[1..], rest)
    ensures Unclosed(lines, pending) == Unclosed(lines[1..], rest)
  {
  }

  lemma UnfoldAgenda(lines: Lines, pending: Lines, readFails: bool, rest: Lines, now: seq<Action>)
    requires lines != []
    requires rest == if lines[0] == "" then [] else if IsData(lines[0]) then pending + [DataOf(lines[0])] else pending
    requires now == if lines[0] == "" then Offers(pending) else []
    ensures Agenda(lines, pending, readFails) == [ReadLine] + now + Agenda(lines[1..], rest, readFails)
  {
    UnfoldActions(lines, pending, rest, now);
  }

  // ---------- doing it in given surroundings ----------

  datatype Outcome = Finished | Cancelled | EmitFailed | ReadFailed

  // What the consumer returns for a chunk: nothing, an error, or the end-of-file
  // error the reader also uses for its own done marker.
  datatype Answer = Accepts | Refuses | EndOfFile

  // What the surroundings do: whether the i-th look at the context finds it done,
  // what the consumer answers to the k-th chunk, and whether reading ends in an error.
  datatype Surroundings = Surroundings(
    cancelled: nat -> bool,
    answer: nat -> Answer,
    readFails: bool)

  // How reading ends: every chunk handed to the consumer, a refused one included, and
  // how often the context was consulted.
  datatype End = End(outcome: Outcome, emitted: Lines, looks: nat)

  /** The agenda done one by one: the context is consulted before each line, each
      chunk and at the end, and the first action that fails ends it. */
  ghost function Play(env: Surroundings, agenda: seq<Action>, emitted: Lines, looks: nat): End {
    if agenda == [] then End(Finished, emitted, looks)
    else
      match agenda[0]
      case InputFails => End(ReadFailed, emitted, looks)
      case Offer(chunk) =>
        if chunk == DONE_MARKER then End(Finished, emitted, looks)
        else if env.cancelled(looks) then End(Cancelled, emitted, looks + 1)
        else
          (match env.answer(|emitted|)
           case Accepts => Play(env, agenda[1..], emitted + [chunk], looks + 1)
           case Refuses => End(EmitFailed, emitted + [chunk], looks + 1)
           case EndOfFile => End(Finished, emitted + [chunk], looks + 1))
      case _ =>
        if env.cancelled(looks) then End(Cancelled, emitted, looks + 1)
        else Play(env, agenda[1..], emitted, looks + 1)
  }

  /** Nothing stops the agenda after n chunks and some looks: the context stays alive,
      the consumer accepts, no chunk is the done marker and the input is sound. */
  ghost predicate Passes(env: Surroundings, agenda: seq<Action>, n: nat, looks: nat) {
    && InputFails !in agenda && DONE_MARKER !in Offered(agenda)
    && (forall l: nat :: looks <= l < looks + |agenda| ==> !env.cancelled(l))
    && (forall k: nat :: n <= k < n + |Offered(agenda)| ==> env.answer(k).Accepts?)
  }

  // An action after n chunks and some looks does not end it.
  predicate GoesOn(env: Surroundings, first: Action, n: nat, looks: nat) {
    && !first.InputFails? && !env.cancelled(looks)
    && (first.Offer? ==> first.chunk != DONE_MARKER && env.answer(n).Accepts?)
  }

  lemma PassesFirst(env: Surroundings, agenda: seq<Action>, n: nat, looks: nat)
    requires agenda != []
    ensures
      var m := if agenda[0].Offer? then 1 else 0;
      Passes(env, agenda, n, looks) <==>
        GoesOn(env, agenda[0], n, looks) && Passes(env, agenda[1..], n + m, looks + 1)
  {
    var m := if agenda[0].Offer? then 1 else 0;
    var rest := agenda[1..];
    assert agenda == [agenda[0]] + rest;
    var head := if agenda[0].Offer? then [agenda[0].chunk] else [];
    assert Offered(agenda) == head + Offered(rest);
    if Passes(env, agenda, n, looks) {
      assert !env.cancelled(looks);
    }
    if !env.cancelled(looks) && Passes(env, rest, n + m, looks + 1) {
      forall l: nat | looks <= l < looks + |agenda| ensures !env.cancelled(l) {
        assert l == looks || looks + 1 <= l < looks + 1 + |rest|;
      }
    }
  }

  // What playing the first action does.
  lemma PlayFirst(env: Surroundings, agenda: seq<Action>, emitted: Lines, looks: nat)
    requires agenda != [] && GoesOn(env, agenda[0], |emitted|, looks)
    ensures
      var after := if agenda[0].Offer? then emitted + [agenda[0].chunk] else emitted;
      Play(env, agenda, emitted, looks) == Play(env, agenda[1..], after, looks + 1)
  {
  }

  // Whether it stops depends on the first action alone.
  lemma StopsAtFirst(env: Surroundings, agenda: seq<Action>, b: seq<Action>, emitted: Lines, looks: nat)
    requires agenda != [] && !GoesOn(env, agenda[0], |emitted|, looks)
    ensures Play(env, agenda + b, emitted, looks) == Play(env, agenda, emitted, looks)
  {
    assert (agenda + b)[0] == agenda[0];
  }

  // With more to come after it, the first action does the same.
  lemma PlayBoth(env: Surroundings, a: seq<Action>, b: seq<Action>, emitted: Lines, looks: nat)
    requires a != [] && GoesOn(env, a[0], |emitted|, looks)
    ensures
      var after := if a[0].Offer? then emitted + [a[0].chunk] else emitted;
      && Play(env, a, emitted, looks) == Play(env, a[1..], after, looks + 1)
      && Play(env, a + b, emitted, looks) == Play(env, a[1..] + b, after, looks + 1)
  {
    assert (a + b)[0] == a[0] && (a + b)[1..] == a[1..] + b;
    hide GoesOn;
    PlayFirst(env, a + b, emitted, looks);
    PlayFirst(env, a, emitted, looks);
  }

  lemma OfferedFirst(emitted: Lines, a: seq<Action>)
    requires a != []
    ensures (if a[0].Offer? then emitted + [a[0].chunk] else emitted) + Offered(a[1..]) == emitted + Offered(a)
  {
  }

  /** An agenda in two parts: the second is begun exactly when the first passes, and
      every action passed costs one look. */
  lemma {:induction false} PlayConcat(env: Surroundings, a: seq<Action>, b: seq<Action>, emitted: Lines, looks: nat)
    ensures Passes(env, a, |emitted|, looks) ==>
      Play(env, a + b, emitted, looks) == Play(env, b, emitted + Offered(a), looks + |a|)
    ensures !Passes(env, a, |emitted|, looks) ==> Play(env, a + b, emitted, looks) == Play(env, a, emitted, looks)
    decreases |a|
  {
    if a == [] {
      assert a + b == b && emitted + Offered(a) == emitted;
    } else {
      hide Passes;
      hide Play;
      hide GoesOn;
      PassesFirst(env, a, |emitted|, looks);
      if !GoesOn(env, a[0], |emitted|, looks) {
        StopsAtFirst(env, a, b, emitted, looks);
      } else {
        var after := if a[0].Offer? then emitted + [a[0].chunk] else emitted;
        PlayConcat(env, a[1..], b, after, looks + 1);
        PlayBoth(env, a, b, emitted, looks);
        OfferedFirst(emitted, a);
        hide *;
      }
    }
  }

  // ---------- what follows from it ----------

  /** However it ends: what is handed over is a prefix of the chunks before the done
      marker; every chunk but the last was accepted, and it fails exactly when the
      last one was refused; it is cancelled exactly when the last look at the context
      found it done, and no earlier look did. */
  ghost predicate EndsProperly(env: Surroundings, emitted: Lines, looks: nat, all: Lines, e: End) {
    emitted <= e.emitted <= all && HasReason(env, |emitted|, looks, e)
  }

  // The part of it that follows after n chunks and some looks, numbers alone.
  ghost predicate HasReason(env: Surroundings, n: nat, looks: nat, e: End) {
    && e.looks - looks >= |e.emitted| - n >= 0
    && (forall k :: n <= k < |e.emitted| - 1 ==> env.answer(k).Accepts?)
    && (e.outcome.EmitFailed? <==> |e.emitted| > n && env.answer(|e.emitted| - 1).Refuses?)
    && (e.outcome.Cancelled? <==> e.looks > looks && env.cancelled(e.looks - 1))
    && (forall l: nat :: looks <= l < e.looks - 1 ==> !env.cancelled(l))
  }

  lemma EarlierReason(env: Surroundings, n: nat, m: nat, looks: nat, e: End)
    requires m == n || (m == n + 1 && env.answer(n).Accepts?)
    requires !env.cancelled(looks) && HasReason(env, m, looks + 1, e)
    ensures HasReason(env, n, looks, e)
  {
    forall k | n <= k < |e.emitted| - 1 ensures env.answer(k).Accepts? {
      assert k == n || m <= k;
    }
    forall l: nat | looks <= l < e.looks - 1 ensures !env.cancelled(l) {
      assert l == looks || looks + 1 <= l;
    }
  }

  lemma {:induction false} PlayFacts(env: Surroundings, agenda: seq<Action>, emitted: Lines, looks: nat)
    ensures EndsProperly(env, emitted, looks, emitted + BeforeDone(Offered(agenda)), Play(env, agenda, emitted, looks))
    decreases |agenda|
  {
    if agenda == [] {
      assert emitted + [] == emitted;
    } else if GoesOn(env, agenda[0], |emitted|, looks) {
      var after := if agenda[0].Offer? then emitted + [agenda[0].chunk] else emitted;
      var e := Play(env, agenda, emitted, looks);
      PlayFacts(env, agenda[1..], after, looks + 1);
      PlayFirst(env, agenda, emitted, looks);
      ProperStep(env, agenda, emitted, looks, e);
    } else {
    }
  }

  lemma ProperStep(env: Surroundings, agenda: seq<Action>, emitted: Lines, looks: nat, e: End)
    requires agenda != [] && GoesOn(env, agenda[0], |emitted|, looks)
    requires
      var after := if agenda[0].Offer? then emitted + [agenda[0].chunk] else emitted;
      EndsProperly(env, after, looks + 1, after + BeforeDone(Offered(agenda[1..])), e)
    ensures EndsProperly(env, emitted, looks, emitted + BeforeDone(Offered(agenda)), e)
  {
    var after := if agenda[0].Offer? then emitted + [agenda[0].chunk] else emitted;
    hide HasReason;
    PrefixStep(emitted, agenda, e.emitted);
    EarlierReason(env, |emitted|, |after|, looks, e);
    hide *;
  }

  lemma BeforeDoneFirst(agenda: seq<Action>)
    requires agenda != []
    ensures agenda[0].Offer? && agenda[0].chunk != DONE_MARKER ==>
      BeforeDone(Offered(agenda)) == [agenda[0].chunk] + BeforeDone(Offered(agenda[1..]))
    ensures !agenda[0].Offer? ==> BeforeDone(Offered(agenda)) == BeforeDone(Offered(agenda[1..]))
  {
    var rest := Offered(agenda[1..]);
    if agenda[0].Offer? {
      assert ([agenda[0].chunk] + rest)[1..] == rest;
    } else {
      assert [] + rest == rest;
    }
  }

  lemma PrefixStep(emitted: Lines, agenda: seq<Action>, all: Lines)
    requires agenda != [] && (agenda[0].Offer? ==> agenda[0].chunk != DONE_MARKER)
    requires
      var after := if agenda[0].Offer? then emitted + [agenda[0].chunk] else emitted;
      after <= all <= after + BeforeDone(Offered(agenda[1..]))
    ensures emitted <= all <= emitted + BeforeDone(Offered(agenda))
  {
    BeforeDoneFirst(agenda);
    hide *;
    if agenda[0].Offer? {
      PrefixMove(emitted, [agenda[0].chunk], BeforeDone(Offered(agenda[1..])), all);
    }
  }

  lemma PrefixMove(a: Lines, h: Lines, b: Lines, all: Lines)
    requires a + h <= all <= (a + h) + b
    ensures a <= all <= a + (h + b)
  {
    assert (a + h) + b == a + (h + b);
  }

  // How reading these lines ends.
  ghost function Reading(env: Surroundings, lines: Lines): End {
    Play(env, Agenda(lines, [], env.readFails), [], 0)
  }

  /** A reading error ends it exactly when every line before it, and every chunk closed
      by a blank line, could be dealt with; those chunks have then been handed over,
      and the context was consulted once for each line and chunk. */
  lemma ReadFailedIff(env: Surroundings, lines: Lines)
    ensures
      var e, actions := Reading(env, lines), LineActions(lines, []);
      && (e.outcome.ReadFailed? <==> env.readFails && Passes(env, actions, 0, 0))
      && (e.outcome.ReadFailed? ==> e.emitted == Offered(actions) && e.looks == |lines| + |e.emitted|)
  {
    var actions := LineActions(lines, []);
    var last := if env.readFails then [InputFails] else Offers(Unclosed(lines, [])) + [LookLast];
    hide Passes;
    PlayConcat(env, actions, last, [], 0);
    NoReadError(lines, []);
    OnlyInputFails(env, actions, [], 0);
    ActionCount(lines, []);
    if env.readFails {
      assert last[0] == InputFails;
    } else {
      assert InputFails !in actions + last;
      OnlyInputFails(env, actions + last, [], 0);
    }
    assert [] + Offered(actions) == Offered(actions);
  }

  // Every action is the reading of a line or the offer of a chunk.
  lemma {:induction false} ActionCount(lines: Lines, pending: Lines)
    ensures |LineActions(lines, pending)| == |lines| + |Offered(LineActions(lines, pending))|
    decreases |lines|
  {
    if lines != [] {
      var rest := if lines[0] == "" then [] else if IsData(lines[0]) then pending + [DataOf(lines[0])] else pending;
      var now := if lines[0] == "" then Offers(pending) else [];
      var tail := LineActions(lines[1..], rest);
      UnfoldActions(lines, pending, rest, now);
      ActionCount(lines[1..], rest);
      hide *;
      NoOffer();
      OfferedConcat([ReadLine] + now, tail);
      OfferedConcat([ReadLine], now);
    }
  }

  lemma {:induction false} NoReadError(lines: Lines, pending: Lines)
    ensures InputFails !in LineActions(lines, pending)
    decreases |lines|
  {
    if lines != [] {
      var rest := if lines[0] == "" then [] else if IsData(lines[0]) then pending + [DataOf(lines[0])] else pending;
      var now := if lines[0] == "" then Offers(pending) else [];
      UnfoldActions(lines, pending, rest, now);
      NoReadError(lines[1..], rest);
      assert InputFails !in [ReadLine] + now;
    }
  }

  lemma {:induction false} OnlyInputFails(env: Surroundings, agenda: seq<Action>, emitted: Lines, looks: nat)
    requires InputFails !in agenda
    ensures !Play(env, agenda, emitted, looks).outcome.ReadFailed?
    decreases |agenda|
  {
    if agenda != [] {
      assert agenda[0] in agenda;
      var after := if agenda[0].Offer? then emitted + [agenda[0].chunk] else emitted;
      OnlyInputFails(env, agenda[1..], after, looks + 1);
    }
  }

  // The input can be read and the context lives on.
  ghost predicate Calm(env: Surroundings) {
    !env.readFails && forall n: nat :: !env.cancelled(n)
  }

  // The consumer accepts everything before its chunk m.
  ghost predicate AcceptsTo(env: Surroundings, m: nat) {
    forall k: nat :: k < m ==> env.answer(k).Accepts?
  }

  // Handed over is everything, or all up to chunk m, which the consumer did not accept.
  ghost predicate DecidedAt(env: Surroundings, m: nat, e: End, all: Lines) {
    && (m >= |all| ==> e.outcome == Finished && e.emitted == all)
    && (m < |all| && env.answer(m).Refuses? ==> e.outcome == EmitFailed && e.emitted == all[..m + 1])
    && (m < |all| && env.answer(m).EndOfFile? ==> e.outcome == Finished && e.emitted == all[..m + 1])
  }

  /** With a calm input and context the consumer alone decides: it is handed every chunk
      before the done marker, or all up to the first one it does not accept, and then
      reading fails if that one was refused and finishes without an error if it was
      answered with end of file. */
  lemma ConsumerDecides(env: Surroundings, lines: Lines, m: nat)
    requires Calm(env) && AcceptsTo(env, m)
    ensures DecidedAt(env, m, Reading(env, lines), BeforeDone(Chunks(lines, [])))
    ensures
      var e, all := Reading(env, lines), BeforeDone(Chunks(lines, []));
      if m >= |all| then e.outcome == Finished && e.emitted == all
      else match env.answer(m)
        case Accepts => true
        case Refuses => e.outcome == EmitFailed && e.emitted == all[..m + 1]
        case EndOfFile => e.outcome == Finished && e.emitted == all[..m + 1]
  {
    AllChunksOffered(lines, []);
    NoReadError(lines, []);
    var agenda := Agenda(lines, [], false);
    assert InputFails !in agenda;
    CalmPlay(env, agenda, [], 0, m);
    assert [] + BeforeDone(Offered(agenda)) == BeforeDone(Offered(agenda));
  }

  lemma {:induction false} CalmPlay(env: Surroundings, agenda: seq<Action>, emitted: Lines, looks: nat, m: nat)
    requires Calm(env) && AcceptsTo(env, m) && InputFails !in agenda && |emitted| <= m
    ensures DecidedAt(env, m, Play(env, agenda, emitted, looks), emitted + BeforeDone(Offered(agenda)))
    decreases |agenda|
  {
    if agenda == [] {
      assert emitted + [] == emitted;
    } else if CalmGoesOn(env, agenda, emitted, m) {
      assert agenda[0] in agenda && InputFails !in agenda[1..];
      hide *;
      CalmFirst(env, agenda, emitted, looks, m);
      CalmPlay(env, agenda[1..], if agenda[0].Offer? then emitted + [agenda[0].chunk] else emitted, looks + 1, m);
    } else {
      CalmStop(env, agenda, emitted, looks, m);
    }
  }

  ghost predicate CalmGoesOn(env: Surroundings, agenda: seq<Action>, emitted: Lines, m: nat)
    requires agenda != []
  {
    agenda[0].Offer? ==> agenda[0].chunk != DONE_MARKER && |emitted| < m
  }

  lemma CalmFirst(env: Surroundings, agenda: seq<Action>, emitted: Lines, looks: nat, m: nat)
    requires Calm(env) && AcceptsTo(env, m) && agenda != [] && agenda[0] != InputFails && |emitted| <= m
    requires CalmGoesOn(env, agenda, emitted, m)
    ensures
      var after := if agenda[0].Offer? then emitted + [agenda[0].chunk] else emitted;
      && |after| <= m
      && Play(env, agenda, emitted, looks) == Play(env, agenda[1..], after, looks + 1)
      && emitted + BeforeDone(Offered(agenda)) == after + BeforeDone(Offered(agenda[1..]))
  {
    hide Play;
    BeforeDoneFirst(agenda);
    PlayFirst(env, agenda, emitted, looks);
    var tail := BeforeDone(Offered(agenda[1..]));
    if agenda[0].Offer? {
      assert (emitted + [agenda[0].chunk]) + tail == emitted + ([agenda[0].chunk] + tail);
    }
  }

  lemma CalmStop(env: Surroundings, agenda: seq<Action>, emitted: Lines, looks: nat, m: nat)
    requires Calm(env) && agenda != [] && !CalmGoesOn(env, agenda, emitted, m) && |emitted| <= m
    ensures DecidedAt(env, m, Play(env, agenda, emitted, looks), emitted + BeforeDone(Offered(agenda)))
  {
    BeforeDoneFirst(agenda);
    var chunk, tail := agenda[0].chunk, BeforeDone(Offered(agenda[1..]));
    if chunk == DONE_MARKER {
      assert Offered(agenda)[0] == DONE_MARKER;
      assert emitted + [] == emitted;
    } else {
      assert (emitted + ([chunk] + tail))[..m + 1] == emitted + [chunk];
    }
  }

  /** Once the lines before have closed a done event, nothing after them changes what
      is handed over, nor anything else about how reading ends. */
  lemma DoneStopsReading(env: Surroundings, before: Lines, after: Lines, other: Lines)
    requires DONE_MARKER in Offered(LineActions(before, []))
    ensures Reading(env, before + after) == Reading(env, before + other)
  {
    hide Play;
    var actions, rest := LineActions(before, []), Unclosed(before, []);
    AgendaConcat(before, after, [], env.readFails);
    AgendaConcat(before, other, [], env.readFails);
    PlayConcat(env, actions, Agenda(after, rest, env.readFails), [], 0);
    PlayConcat(env, actions, Agenda(other, rest, env.readFails), [], 0);
  }

  // Such surroundings: never cancelled, every chunk accepted, no reading error.
  lemma Serene(m: nat)
    ensures
      var env := Surroundings(l => false, k => Accepts, false);
      Calm(env) && AcceptsTo(env, m)
  {
  }

  lemma ChunksConcat(a: Lines, b: Lines)
    requires Unclosed(a, []) == []
    ensures Chunks(a + b, []) == Chunks(a, []) + Chunks(b, [])
  {
    AllChunksOffered(a + b, []);
    AllChunksOffered(b, []);
    AgendaConcat(a, b, [], false);
    AgendaOffers(a, []);
    assert Offered(LineActions(a, [])) + Dispatched([]) == Offered(LineActions(a, []));
    OfferedConcat(LineActions(a, []), Agenda(b, [], false));
    hide Offered;
    hide Chunks;
  }

  /** A line data: [DONE] that is an event of its own ends reading, without an error: what
      comes before is handed over, and nothing of what comes after. */
  lemma LiteralDone(env: Surroundings, before: Lines, after: Lines)
    requires Unclosed(before, []) == [] && "[DONE]" !in Chunks(before, [])
    requires Calm(env) && AcceptsTo(env, |Chunks(before, [])|)
    ensures
      var e := Reading(env, before + (["data: " + "[DONE]", ""] + after));
      e.outcome == Finished && e.emitted == Chunks(before, [])
  {
    var all, done := Chunks(before, []), "[DONE]";
    ChunksConcat(before, ["data: " + done, ""] + after);
    OneEvent(done, after);
    var rest := [done] + Chunks(after, []);
    BeforeDoneConcat(all, rest);
    assert all + [] == all && BeforeDone(rest) == [];
    hide Chunks;
    hide Reading;
    ConsumerDecides(env, before + (["data: " + done, ""] + after), |all|);
  }

  /** An event of one line is handed over exactly if it is not [DONE]. */
  lemma OneLineEvent(env: Surroundings, chunk: string)
    requires Calm(env) && AcceptsTo(env, 1)
    ensures
      var e := Reading(env, ["data: " + chunk, ""]);
      e.outcome == Finished && e.emitted == if chunk == "[DONE]" then [] else [chunk]
  {
    var lines := ["data: " + chunk, ""];
    OneEvent(chunk, []);
    assert lines + [] == lines && Chunks([], []) == [] && [chunk][1..] == [];
    assert BeforeDone([chunk]) == if chunk == "[DONE]" then [] else [chunk];
    hide Chunks;
    hide Reading;
    ConsumerDecides(env, lines, 1);
  }

  /** What a line is: a blank one closes an event; one that starts with data: carries what
      follows, less one space in front; any other is skipped. */
  lemma LineIs(line: string, rest: Lines, pending: Lines)
    ensures Chunks([""] + rest, []) == Chunks(rest, [])
    ensures pending != [] ==> Chunks([""] + rest, pending) == [Join(pending)] + Chunks(rest, [])
    ensures Chunks(["data: " + line] + rest, pending) == Chunks(rest, pending + [line])
    ensures line == "" || line[0] != ' ' ==> Chunks(["data:" + line] + rest, pending) == Chunks(rest, pending + [line])
    ensures line != "" && (|line| < 5 || line[..5] != "data:") ==>
      Chunks([line] + rest, pending) == Chunks(rest, pending)
  {
    DataLine(line);
    var tight := "data:" + line;
    assert tight[..5] == "data:" && tight[5..] == line;
    assert ([""] + rest)[1..] == rest && (["data: " + line] + rest)[1..] == rest;
    assert ([tight] + rest)[1..] == rest && ([line] + rest)[1..] == rest;
  }

  // A consumer that answers its first chunk with end of file.
  function Impatient(): Surroundings {
    Surroundings(n => false, k => EndOfFile, false)
  }

  /** Such a consumer ends reading without an error, the second chunk never handed over. */
  lemma EndOfFileEndsQuietly()
    ensures
      var lines := ["data: " + "x", "", "data: " + "y", ""];
      var e := Reading(Impatient(), lines);
      Chunks(lines, []) == ["x", "y"] && e.outcome == Finished && e.emitted == ["x"]
  {
    var second := ["data: " + "y", ""];
    OneEvent("x", second);
    OneEvent("y", []);
    assert ["data: " + "x", "", "data: " + "y", ""] == ["data: " + "x", ""] + second && second + [] == second;
    assert Chunks([], []) == [];
    hide *;
    ConsumerDecides(Impatient(), ["data: " + "x", ""] + second, 0);
  }

  lemma OneEvent(x: string, rest: Lines)
    ensures Chunks(["data: " + x, ""] + rest, []) == [x] + Chunks(rest, [])
  {
    var lines := ["data: " + x, ""] + rest;
    DataLine(x);
    assert lines[1..] == [""] + rest && lines[1..][1..] == rest;
    assert [] + [x] == [x] && Join([x]) == x;
    hide IsData;
    hide DataOf;
    assert Chunks(lines[1..], [x]) == Dispatched([x]) + Chunks(rest, []);
  }

  // ---------- the reader ----------

  datatype FlushResult = Continue | StopDone | StopCancelled | StopRefused | StopEndOfFile

  // A done marker ends reading without an error, and so does a consumer's end of file.
  function Stopped(f: FlushResult): (r: Outcome)
    requires !f.Continue?
    ensures (r.Finished? <==> f.StopDone? || f.StopEndOfFile?) && (r.Cancelled? <==> f.StopCancelled?)
    ensures (r.EmitFailed? <==> f.StopRefused?) && !r.ReadFailed?
  {
    match f
    case StopDone => Finished
    case StopCancelled => Cancelled
    case StopRefused => EmitFailed
    case StopEndOfFile => Finished
  }

  class Reader {
    const env: Surroundings
    var dataLines: Lines
    var emitted: Lines   // every chunk handed to the consumer, a refused one included
    var looks: nat       // how often the context was consulted

    constructor (env: Surroundings)
      ensures this.env == env && dataLines == [] && emitted == [] && looks == 0
    {
      this.env := env;
      dataLines, emitted, looks := [], [], 0;
    }

    method ContextDone() returns (done: bool)
      modifies this`looks
      ensures looks == old(looks) + 1 && done == env.cancelled(old(looks))
    {
      done := env.cancelled(looks);
      looks := looks + 1;
    }

    /** Hands over the pending event, if there is one, whatever rest is still to do. */
    method Flush(ghost rest: seq<Action>) returns (r: FlushResult)
      modifies this
      ensures dataLines == []
      ensures Play(env, Offers(old(dataLines)) + rest, old(emitted), old(looks))
        == if r.Continue? then Play(env, rest, emitted, looks) else End(Stopped(r), emitted, looks)
    {
      PlayOffers(env, dataLines, rest, emitted, looks);
      hide Play;
      hide Join;
      if |dataLines| == 0 {
        return Continue;
      }
      var chunk := Join(dataLines);
      dataLines := [];
      if chunk == DONE_MARKER {
        return StopDone;
      }
      var cancelled := ContextDone();
      if cancelled {
        return StopCancelled;
      }
      var answer := env.answer(|emitted|);
      emitted := emitted + [chunk];
      match answer
      case Accepts => r := Continue;
      case Refuses => r := StopRefused;
      case EndOfFile => r := StopEndOfFile;
    }

    /** Reads exactly as the agenda of the lines is to be done: the context is consulted
        before every line and every chunk, in this order, and reading stops at the
        first thing that does not pass. */
    method ParseSSE(lines: Lines) returns (r: Outcome)
      requires dataLines == [] && emitted == [] && looks == 0
      modifies this
      ensures End(r, emitted, looks) == Reading(env, lines)
      ensures emitted <= BeforeDone(Chunks(lines, []))
      ensures forall k :: 0 <= k < |emitted| - 1 ==> env.answer(k).Accepts?
      ensures r.EmitFailed? <==> emitted != [] && env.answer(|emitted| - 1).Refuses?
      ensures r.Cancelled? <==> looks > 0 && env.cancelled(looks - 1)
      ensures forall l: nat :: l < looks - 1 ==> !env.cancelled(l)
      ensures r.ReadFailed? <==> env.readFails && Passes(env, LineActions(lines, []), 0, 0)
    {
      hide *;
      Begin(env, lines);
      ReadFailedIff(env, lines);
      ReadingFacts(env, lines);
      var i := 0;
      while i < |lines|
        invariant 0 <= i <= |lines|
        invariant Reading(env, lines) == Play(env, Agenda(lines[i..], dataLines, env.readFails), emitted, looks)
      {
        PlayLine(env, lines, i, dataLines, emitted, looks);
        var cancelled := ContextDone();
        if cancelled {
          return Cancelled;
        }
        var line := lines[i];
        if line == "" {
          var f := Flush(Agenda(lines[i + 1..], [], env.readFails));
          if !f.Continue? {
            return Stopped(f);
          }
        } else if HasPrefix(line, ":") {
          CommentIsNotData(line);
        } else if IsData(line) {
          dataLines := dataLines + [DataOf(line)];
        }
        i := i + 1;
      }
      PlayEnd(env, lines, dataLines, emitted, looks);
      if env.readFails {
        return ReadFailed;
      }
      var f := Flush([LookLast]);
      if !f.Continue? {
        return Stopped(f);
      }
      PlayLook(env, emitted, looks);
      var cancelled := ContextDone();
      r := if cancelled then Cancelled else Finished;
    }
  }

  lemma Begin(env: Surroundings, lines: Lines)
    ensures Reading(env, lines) == Play(env, Agenda(lines[0..], [], env.readFails), [], 0)
  {
    assert lines[0..] == lines;
  }

  lemma ReadingFacts(env: Surroundings, lines: Lines)
    ensures
      var e := Reading(env, lines);
      && e.emitted <= BeforeDone(Chunks(lines, []))
      && (forall k :: 0 <= k < |e.emitted| - 1 ==> env.answer(k).Accepts?)
      && (e.outcome.EmitFailed? <==> e.emitted != [] && env.answer(|e.emitted| - 1).Refuses?)
      && (e.outcome.Cancelled? <==> e.looks > 0 && env.cancelled(e.looks - 1))
      && (forall l: nat :: l < e.looks - 1 ==> !env.cancelled(l))
  {
    hide *;
    var all := BeforeDone(Offered(Agenda(lines, [], env.readFails)));
    PlayFacts(env, Agenda(lines, [], env.readFails), [], 0);
    AgendaPrefix(lines, env.readFails);
    ReadingIs(env, lines);
    assert [] + all == all;
    ProperFromStart(env, all, Reading(env, lines));
  }

  lemma ProperFromStart(env: Surroundings, all: Lines, e: End)
    requires EndsProperly(env, [], 0, all, e)
    ensures e.emitted <= all
    ensures forall k :: 0 <= k < |e.emitted| - 1 ==> env.answer(k).Accepts?
    ensures e.outcome.EmitFailed? <==> e.emitted != [] && env.answer(|e.emitted| - 1).Refuses?
    ensures e.outcome.Cancelled? <==> e.looks > 0 && env.cancelled(e.looks - 1)
    ensures forall l: nat :: l < e.looks - 1 ==> !env.cancelled(l)
  {
  }

  lemma ReadingIs(env: Surroundings, lines: Lines)
    ensures Reading(env, lines) == Play(env, Agenda(lines, [], env.readFails), [], 0)
  {
  }

  // A reading error only shortens what is offered.
  lemma AgendaPrefix(lines: Lines, readFails: bool)
    ensures BeforeDone(Offered(Agenda(lines, [], readFails))) <= BeforeDone(Chunks(lines, []))
  {
    AllChunksOffered(lines, []);
    if readFails {
      var actions := LineActions(lines, []);
      OfferedConcat(actions, [InputFails]);
      assert [InputFails][1..] == [] && Offered([InputFails]) == [];
      assert Offered(actions) + [] == Offered(actions);
      AgendaOffers(lines, []);
      BeforeDoneConcat(Offered(actions), Dispatched(Unclosed(lines, [])));
      BeforeDoneConcat(Offered(actions), []);
    }
  }

  // Reading one line.
  lemma PlayLine(env: Surroundings, lines: Lines, i: nat, pending: Lines, emitted: Lines, looks: nat)
    requires i < |lines|
    ensures
      var all := Play(env, Agenda(lines[i..], pending, env.readFails), emitted, looks);
      var rest := lines[i + 1..];
      if env.cancelled(looks) then all == End(Cancelled, emitted, looks + 1)
      else if lines[i] == "" then
        all == Play(env, Offers(pending) + Agenda(rest, [], env.readFails), emitted, looks + 1)
      else if IsData(lines[i]) then
        all == Play(env, Agenda(rest, pending + [DataOf(lines[i])], env.readFails), emitted, looks + 1)
      else all == Play(env, Agenda(rest, pending, env.readFails), emitted, looks + 1)
  {
    hide IsData;
    hide DataOf;
    hide LineActions;
    hide Offers;
    hide Agenda;
    var here := lines[i..];
    assert here[0] == lines[i] && here[1..] == lines[i + 1..];
    var rest := if here[0] == "" then [] else if IsData(here[0]) then pending + [DataOf(here[0])] else pending;
    var now := if here[0] == "" then Offers(pending) else [];
    UnfoldAgenda(here, pending, env.readFails, rest, now);
    var agenda, tail := Agenda(here, pending, env.readFails), now + Agenda(here[1..], rest, env.readFails);
    assert agenda == [ReadLine] + tail;
    assert agenda[1..] == tail && (here[0] != "" ==> tail == Agenda(here[1..], rest, env.readFails));
  }

  // The end of the lines.
  lemma PlayEnd(env: Surroundings, lines: Lines, pending: Lines, emitted: Lines, looks: nat)
    ensures
      var all := Play(env, Agenda(lines[|lines|..], pending, env.readFails), emitted, looks);
      if env.readFails then all == End(ReadFailed, emitted, looks)
      else all == Play(env, Offers(pending) + [LookLast], emitted, looks)
  {
    assert lines[|lines|..] == [];
    assert [] + [InputFails] == [InputFails];
    assert [] + (Offers(pending) + [LookLast]) == Offers(pending) + [LookLast];
  }

  lemma PlayLook(env: Surroundings, emitted: Lines, looks: nat)
    ensures Play(env, [LookLast], emitted, looks)
      == End(if env.cancelled(looks) then Cancelled else Finished, emitted, looks + 1)
  {
    assert [LookLast][1..] == [];
  }

  // Handing over what is pending.
  lemma PlayOffers(env: Surroundings, pending: Lines, rest: seq<Action>, emitted: Lines, looks: nat)
    ensures
      var all, chunk := Play(env, Offers(pending) + rest, emitted, looks), Join(pending);
      if pending == [] then all == Play(env, rest, emitted, looks)
      else if chunk == DONE_MARKER then all == End(Finished, emitted, looks)
      else if env.cancelled(looks) then all == End(Cancelled, emitted, looks + 1)
      else match env.answer(|emitted|)
        case Accepts => all == Play(env, rest, emitted + [chunk], looks + 1)
        case Refuses => all == End(EmitFailed, emitted + [chunk], looks + 1)
        case EndOfFile => all == End(Finished, emitted + [chunk], looks + 1)
  {
    hide Join;
    var agenda := Offers(pending) + rest;
    if pending == [] {
      assert agenda == rest;
    } else {
      assert agenda[0] == Offer(Join(pending)) && agenda[1..] == rest;
    }
  }

  lemma DataLine(part: string)
    ensures IsData("data: " + part) && DataOf("data: " + part) == part && "data: " + part != ""
  {
    var line := "data: " + part;
    assert line[..5] == "data:";
    assert line[5..] == " " + part;
    assert (" " + part)[..1] == " " && (" " + part)[1..] == part;
  }

  lemma CommentIsNotData(line: string)
    requires HasPrefix(line, ":")
    ensures !IsData(line)
  {
    assert line[..1][0] == ':';
    assert |line| >= 5 ==> line[..5][0] == line[0];
  }
}

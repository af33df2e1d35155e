/** One server-sent-events connection against any number of emitting threads: subscribe, replay the
    log, then stream live. Events are named by their position in the log. */
module EventStream {
  import opened JsonValues

  datatype Phase =
    | Unconnected
    | Subscribed
    | Replaying
    | Live
    | Closed

  /** A frame carries an id line and an event. */
  datatype Frame = Frame(id: int, event: nat)

  datatype State = State(
    since: int,              // the index the client asked to replay from
    phase: Phase,
    written: nat,            // events in the log file
    notifying: set<nat>,     // written, with our callback in the snapshot, callback still to be called
    queue: seq<nat>,         // handed over by the callback, in the order of the calls
    replay: seq<nat>,        // read from the log, not yet sent
    sent: seq<Frame>,
    subscribedAt: nat,       // log length at subscribe, at the history read, and at unsubscribe
    readAt: nat,
    closedAt: nat)

  datatype Event = Emit | CallBack(event: nat) | Subscribe | ReadHistory | SendReplay | SendLive | Disconnect

  function Connection(since: int, written: nat): State {
    State(since, Unconnected, written, {}, [], [], [], 0, 0, 0)
  }

  /** `history(since)` skips the first `since` events, if that is positive. */
  function First(since: int): nat {
    if since > 0 then since else 0
  }

  function Range(from: nat, to: nat): (r: seq<nat>)
    ensures |r| == if from < to then to - from else 0
    ensures forall k :: 0 <= k < |r| ==> r[k] == from + k
  {
    if from < to then seq(to - from, k requires 0 <= k < to - from => from + k) else []
  }

  predicate Listening(phase: Phase) {
    phase == Subscribed || phase == Replaying || phase == Live
  }

  function Next(s: State, e: Event): State {
    match e
    case Emit =>
      s.(written := s.written + 1,
         notifying := if Listening(s.phase) then s.notifying + {s.written} else s.notifying)
    case CallBack(event) =>
      if event in s.notifying then s.(notifying := s.notifying - {event}, queue := s.queue + [event]) else s
    case Subscribe =>
      if s.phase == Unconnected then s.(phase := Subscribed, subscribedAt := s.written) else s
    case ReadHistory =>
      if s.phase == Subscribed
      then s.(phase := Replaying, readAt := s.written, replay := Range(First(s.since), s.written))
      else s
    case SendReplay =>
      if s.phase != Replaying then s
      else if s.replay == [] then s.(phase := Live)
      else
        s.(sent := s.sent + [Frame(s.since + |s.sent|, s.replay[0])], replay := s.replay[1..])
    case SendLive =>
      if s.phase != Live || s.queue == [] then s
      else s.(sent := s.sent + [Frame(s.written - 1, s.queue[0])], queue := s.queue[1..])
    case Disconnect =>
      if Listening(s.phase) then s.(phase := Closed, closedAt := s.written) else s
  }

  function After(s: State, schedule: seq<Event>): State
    decreases |schedule|
  {
    if schedule == [] then s else After(Next(s, schedule[0]), schedule[1..])
  }

  // ---------------------------------------------------------------- exact accounting

  function Events(frames: seq<Frame>): seq<nat> {
    seq(|frames|, i requires 0 <= i < |frames| => frames[i].event)
  }

  function One(b: bool): nat {
    if b then 1 else 0
  }

  function Count(s: seq<nat>, x: nat): nat {
    if s == [] then 0 else One(s[0] == x) + Count(s[1..], x)
  }

  /** How often an event was read by the history call. */
  function Replayed(s: State, event: nat): nat {
    One(First(s.since) <= event < s.readAt)
  }

  /** How often an event was, or will be, handed over live. */
  function Streamed(s: State, event: nat): nat {
    One(s.phase != Unconnected && s.subscribedAt <= event < (if s.phase == Closed then s.closedAt else s.written))
  }

  ghost predicate Accounted(s: State, event: nat) {
    Count(Events(s.sent), event) + Count(s.replay, event) + Count(s.queue, event) + One(event in s.notifying)
      == Replayed(s, event) + Streamed(s, event)
  }

  /** Where the replayed frames are, and what is left of them. */
  ghost predicate InOrder(s: State) {
    && (s.phase == Unconnected || s.phase == Subscribed ==> s.sent == [] && s.replay == [])
    && (s.phase == Unconnected ==> s.queue == [] && s.notifying == {})
    && (s.phase == Replaying ==> Events(s.sent) + s.replay == Range(First(s.since), s.readAt))
    && (s.phase == Live ==>
          s.replay == [] && Range(First(s.since), s.readAt) <= Events(s.sent))
    && s.subscribedAt <= s.written && s.readAt <= s.written && s.closedAt <= s.written
    && (s.phase == Unconnected || s.phase == Subscribed ==> s.readAt == 0)
    && forall event :: event in s.notifying ==> event < s.written
  }

  lemma {:induction false} CountLast(s: seq<nat>, x: nat, y: nat)
    ensures Count(s + [x], y) == Count(s, y) + One(x == y)
  {
    if s == [] {
      assert s + [x] == [x];
    } else {
      CountLast(s[1..], x, y);
      assert (s + [x])[1..] == s[1..] + [x];
    }
  }

  lemma {:induction false} CountIff(s: seq<nat>, x: nat)
    ensures x in s <==> Count(s, x) > 0
  {
    if s != [] {
      CountIff(s[1..], x);
    }
  }

  lemma EventsLast(frames: seq<Frame>, f: Frame)
    ensures Events(frames + [f]) == Events(frames) + [f.event]
  {
  }

  lemma {:induction false} CountRange(from: nat, to: nat, event: nat)
    ensures Count(Range(from, to), event) == One(from <= event < to)
    decreases if from < to then to - from else 0
  {
    if from < to {
      CountRange(from, to - 1, event);
      CountLast(Range(from, to - 1), to - 1, event);
      assert Range(from, to) == Range(from, to - 1) + [to - 1];
    }
  }

  lemma InOrderKept(s: State, e: Event)
    requires InOrder(s)
    ensures InOrder(Next(s, e))
  {
    match e {
      case SendReplay =>
        if s.phase == Replaying && s.replay != [] {
          var f := Frame(s.since + |s.sent|, s.replay[0]);
          EventsLast(s.sent, f);
          assert Events(s.sent) + s.replay == (Events(s.sent) + [s.replay[0]]) + s.replay[1..];
        }
      case SendLive =>
        if s.phase == Live && s.queue != [] {
          EventsLast(s.sent, Frame(s.written - 1, s.queue[0]));
        }
      case _ =>
    }
  }

  lemma AccountedReplay(s: State, event: nat)
    requires Accounted(s, event)
    ensures Accounted(Next(s, SendReplay), event)
  {
    hide Range, Events;
    if s.phase == Replaying && s.replay != [] {
      EventsLast(s.sent, Frame(s.since + |s.sent|, s.replay[0]));
      CountLast(Events(s.sent), s.replay[0], event);
    }
  }

  lemma AccountedLive(s: State, event: nat)
    requires Accounted(s, event)
    ensures Accounted(Next(s, SendLive), event)
  {
    hide Range, Events;
    if s.phase == Live && s.queue != [] {
      EventsLast(s.sent, Frame(s.written - 1, s.queue[0]));
      CountLast(Events(s.sent), s.queue[0], event);
    }
  }

  lemma AccountedRead(s: State, event: nat)
    requires InOrder(s) && Accounted(s, event)
    ensures Accounted(Next(s, ReadHistory), event)
  {
    hide Range, Events;
    CountRange(First(s.since), s.written, event);
  }

  lemma AccountedCall(s: State, k: nat, event: nat)
    requires Accounted(s, event)
    ensures Accounted(Next(s, CallBack(k)), event)
  {
    hide Range, Events;
    CountLast(s.queue, k, event);
  }

  lemma AccountedKept(s: State, e: Event, event: nat)
    requires InOrder(s) && Accounted(s, event)
    ensures Accounted(Next(s, e), event)
  {
    match e {
      case CallBack(k) => AccountedCall(s, k, event);
      case ReadHistory => AccountedRead(s, event);
      case SendReplay => AccountedReplay(s, event);
      case SendLive => AccountedLive(s, event);
      case _ => hide Range, Events;
    }
  }

  lemma {:induction false} AccountedAlways(s: State, schedule: seq<Event>, event: nat)
    requires InOrder(s) && Accounted(s, event)
    ensures InOrder(After(s, schedule)) && Accounted(After(s, schedule), event)
    decreases |schedule|
  {
    hide InOrder, Accounted, Next;
    if schedule != [] {
      InOrderKept(s, schedule[0]);
      AccountedKept(s, schedule[0], event);
      AccountedAlways(Next(s, schedule[0]), schedule[1..], event);
    }
  }

  lemma Reached(since: int, written: nat, schedule: seq<Event>, event: nat)
    ensures var s := After(Connection(since, written), schedule); InOrder(s) && Accounted(s, event)
  {
    var s := Connection(since, written);
    assert Events(s.sent) == [];
    AccountedAlways(s, schedule, event);
  }

  // ---------------------------------------------------------------- delivery

  predicate Quiet(s: State) {
    s.phase == Live && s.queue == [] && s.notifying == {}
  }

  /** Whatever the emitters do, once nothing is pending every event from the requested index on has been
      sent once or twice, and twice exactly if it was written between subscribe and the history read. */
  lemma DeliveredOnceOrTwice(since: int, written: nat, schedule: seq<Event>, event: nat)
    requires Quiet(After(Connection(since, written), schedule))
    ensures var s := After(Connection(since, written), schedule);
      var copies := Count(Events(s.sent), event);
      && (First(since) <= event < s.written ==> copies == if s.subscribedAt <= event < s.readAt then 2 else 1)
      && (event < First(since) ==> copies == One(s.subscribedAt <= event < s.written))
      && (event >= s.written ==> copies == 0)
  {
    Reached(since, written, schedule, event);
    var s := After(Connection(since, written), schedule);
    SubscribeBeforeRead(since, written, schedule);
  }

  ghost predicate ReadAfterSubscribe(s: State) {
    && (s.phase == Replaying || s.phase == Live ==> s.subscribedAt <= s.readAt)
    && First(s.since) >= 0
  }

  /** No frame has been numbered beyond the log, and replayed frames are numbered without gaps. */
  ghost predicate Numbered(s: State) {
    && (forall f :: f in s.sent ==> f.id < s.written)
    && (s.phase == Replaying ==> forall i :: 0 <= i < |s.sent| ==> s.sent[i].id == s.since + i)
  }

  lemma ReadAfterSubscribeKept(s: State, e: Event)
    requires InOrder(s) && ReadAfterSubscribe(s)
    ensures ReadAfterSubscribe(Next(s, e)) && Next(s, e).since == s.since
  {
    hide Range, Events, First;
  }

  lemma NumberedKept(s: State, e: Event)
    requires InOrder(s) && Numbered(s)
    ensures Numbered(Next(s, e))
  {
    if e == SendReplay && s.phase == Replaying && s.replay != [] {
      assert |s.sent| < |Range(First(s.since), s.readAt)|;
    }
  }

  lemma {:induction false} ReadAfterSubscribeAlways(s: State, schedule: seq<Event>)
    requires InOrder(s) && ReadAfterSubscribe(s) && Numbered(s)
    ensures ReadAfterSubscribe(After(s, schedule)) && Numbered(After(s, schedule))
    ensures After(s, schedule).since == s.since
    decreases |schedule|
  {
    hide InOrder, ReadAfterSubscribe, Numbered, Next;
    if schedule != [] {
      InOrderKept(s, schedule[0]);
      ReadAfterSubscribeKept(s, schedule[0]);
      NumberedKept(s, schedule[0]);
      ReadAfterSubscribeAlways(Next(s, schedule[0]), schedule[1..]);
    }
  }

  lemma SubscribeBeforeRead(since: int, written: nat, schedule: seq<Event>)
    ensures ReadAfterSubscribe(After(Connection(since, written), schedule))
    ensures Numbered(After(Connection(since, written), schedule))
    ensures After(Connection(since, written), schedule).since == since
  {
    assert Events(Connection(since, written).sent) == [];
    ReadAfterSubscribeAlways(Connection(since, written), schedule);
  }

  /** Once a client has disconnected nothing more is sent to it, and no event written later is handed over. */
  lemma DisconnectEnds(since: int, written: nat, before: seq<Event>, after: seq<Event>, event: nat)
    requires Listening(After(Connection(since, written), before).phase)
    ensures var s := After(Connection(since, written), before); var t := After(Next(s, Disconnect), after);
      && t.phase == Closed && t.sent == s.sent
      && (event >= s.written ==> event !in t.queue && event !in t.notifying)
  {
    Reached(since, written, before, event);
    var s := After(Connection(since, written), before);
    var closed := Next(s, Disconnect);
    InOrderKept(s, Disconnect);
    AccountedKept(s, Disconnect, event);
    ClosedKeeps(closed, after);
    AccountedAlways(closed, after, event);
    var t := After(closed, after);
    CountIff(t.queue, event);
    CountIff(Events(t.sent), event);
    hide After, Range;
  }

  lemma {:induction false} ClosedKeeps(s: State, schedule: seq<Event>)
    requires s.phase == Closed
    ensures var t := After(s, schedule);
      t.phase == Closed && t.sent == s.sent && t.readAt == s.readAt && t.closedAt == s.closedAt && t.since == s.since
      && t.subscribedAt == s.subscribedAt
    decreases |schedule|
  {
    if schedule != [] {
      ClosedKeeps(Next(s, schedule[0]), schedule[1..]);
    }
  }

  // ---------------------------------------------------------------- reconnecting

  /** The frame ids are meant for reconnecting: a client that has seen id n asks for n + 1. Of the events up
      to the id of its last frame, it then misses exactly those that were still on their way. */
  lemma ReconnectMissesIff(since: int, written: nat, schedule: seq<Event>, event: nat)
    requires var s := After(Connection(since, written), schedule);
      && s.phase == Live && s.sent != [] && First(since) <= event <= s.sent[|s.sent| - 1].id
    ensures var s := After(Connection(since, written), schedule);
      event !in Events(s.sent) <==> event >= s.readAt && (event in s.queue || event in s.notifying)
  {
    Reached(since, written, schedule, event);
    SubscribeBeforeRead(since, written, schedule);
    var s := After(Connection(since, written), schedule);
    hide After, Range;
    assert s.sent[|s.sent| - 1] in s.sent && event < s.written;
    CountIff(Events(s.sent), event);
    CountIff(s.queue, event);
    if event < s.readAt {
      PrefixHas(Range(First(since), s.readAt), Events(s.sent), event - First(since));
    }
  }

  /** A client that leaves during the replay and reconnects misses nothing up to the id of its last frame. */
  lemma LeavingTheReplayMissesNothing(since: int, written: nat, schedule: seq<Event>, event: nat)
    requires var s := After(Connection(since, written), schedule);
      && s.phase == Replaying && s.sent != [] && First(since) <= event <= s.sent[|s.sent| - 1].id
    ensures event in Events(After(Connection(since, written), schedule).sent)
  {
    Reached(since, written, schedule, event);
    SubscribeBeforeRead(since, written, schedule);
    var s := After(Connection(since, written), schedule);
    hide After, Accounted;
    var k := event - First(since);
    assert Events(s.sent)[k] == (Events(s.sent) + s.replay)[k] == event;
  }

  lemma PrefixHas(prefix: seq<nat>, whole: seq<nat>, k: int)
    requires prefix <= whole && 0 <= k < |prefix|
    ensures prefix[k] in whole
  {
  }

  lemma {:induction false} AfterFirst(s: State, e: Event, rest: seq<Event>)
    ensures After(s, [e] + rest) == After(Next(s, e), rest)
  {
    hide Next;
    assert ([e] + rest)[1..] == rest;
  }

  const OVERTAKEN: seq<Event> := [Emit, Emit, CallBack(0), CallBack(1), SendLive]

  lemma Overtaken(live: State)
    requires live == State(0, Live, 0, {}, [], [], [], 0, 0, 0)
    ensures After(live, OVERTAKEN) == live.(written := 2, queue := [1], sent := [Frame(1, 0)])
  {
    hide After;
    var one := live.(written := 1, notifying := {0});
    var two := live.(written := 2, notifying := {0, 1});
    var three := two.(notifying := {1}, queue := [0]);
    var four := two.(notifying := {}, queue := [0, 1]);
    assert {} + {0} == {0} && {0} + {1} == {0, 1} && {0, 1} - {0} == {1} && {1} - {1} == {};
    assert Next(live, Emit) == one && Next(one, Emit) == two;
    assert Next(two, CallBack(0)) == three;
    assert Next(three, CallBack(1)) == four;
    assert Next(four, SendLive) == live.(written := 2, queue := [1], sent := [Frame(1, 0)]);
    AfterFirst(live, Emit, OVERTAKEN[1..]);
    AfterFirst(one, Emit, OVERTAKEN[2..]);
    AfterFirst(two, CallBack(0), OVERTAKEN[3..]);
    AfterFirst(three, CallBack(1), OVERTAKEN[4..]);
    AfterFirst(four, SendLive, []);
    AfterNothing(Next(four, SendLive));
    assert OVERTAKEN == [Emit] + OVERTAKEN[1..] && OVERTAKEN[1..] == [Emit] + OVERTAKEN[2..];
    assert OVERTAKEN[2..] == [CallBack(0)] + OVERTAKEN[3..] && OVERTAKEN[3..] == [CallBack(1)] + OVERTAKEN[4..];
    assert OVERTAKEN[4..] == [SendLive] + [];
  }

  /** Two events are written before the first one goes out: its frame carries the id of the second. */
  lemma ReconnectCanMiss()
    ensures var s := After(Connection(0, 0), [Subscribe, ReadHistory, SendReplay] + OVERTAKEN);
      s.phase == Live && s.sent == [Frame(1, 0)] && s.written == 2 && 1 !in Events(s.sent)
  {
    hide After;
    var live := State(0, Live, 0, {}, [], [], [], 0, 0, 0);
    LiveAfterThree(OVERTAKEN);
    Overtaken(live);
  }

  lemma AfterNothing(s: State)
    ensures After(s, []) == s
  {
  }

  lemma LiveAfterThree(rest: seq<Event>)
    ensures After(Connection(0, 0), [Subscribe, ReadHistory, SendReplay] + rest)
         == After(State(0, Live, 0, {}, [], [], [], 0, 0, 0), rest)
  {
    hide After;
    var start := Connection(0, 0);
    AfterFirst(start, Subscribe, [ReadHistory, SendReplay] + rest);
    AfterFirst(Next(start, Subscribe), ReadHistory, [SendReplay] + rest);
    AfterFirst(Next(Next(start, Subscribe), ReadHistory), SendReplay, rest);
    assert [Subscribe, ReadHistory, SendReplay] + rest == [Subscribe] + ([ReadHistory, SendReplay] + rest);
    assert [ReadHistory, SendReplay] + rest == [ReadHistory] + ([SendReplay] + rest);
  }

  // ---------------------------------------------------------------- order

  /** The part of what was sent that did not come from the history. */
  function LivePart(s: State): seq<nat> {
    var replayed := |Range(First(s.since), s.readAt)|;
    if s.phase == Live && replayed <= |s.sent| then Events(s.sent)[replayed..] else []
  }

  /** What was handed over to the connection live: already sent, or queued. */
  function HandedOver(s: State): seq<nat> {
    LivePart(s) + s.queue
  }

  /** What was handed over is the log since the subscription, in order and without gaps. */
  ghost predicate WithoutGaps(s: State) {
    HandedOver(s) == Range(s.subscribedAt, s.subscribedAt + |HandedOver(s)|)
  }

  /** Every callback that is called is that of the oldest event still to be handed over. */
  ghost predicate CalledInLogOrder(s: State, schedule: seq<Event>)
    decreases |schedule|
  {
    schedule != [] ==>
      && (schedule[0].CallBack? && schedule[0].event in s.notifying ==> Oldest(s, schedule[0].event))
      && CalledInLogOrder(Next(s, schedule[0]), schedule[1..])
  }

  ghost predicate Oldest(s: State, event: nat) {
    forall other :: other in s.notifying ==> event <= other
  }

  /** So far in log order: what is still to be handed over are the events behind. */
  ghost predicate StreamInOrder(s: State) {
    Listening(s.phase) ==>
      && WithoutGaps(s)
      && s.subscribedAt + |HandedOver(s)| <= s.written
      && forall event :: event in s.notifying <==> s.subscribedAt + |HandedOver(s)| <= event < s.written
  }

  lemma HandedOverStep(s: State, e: Event)
    requires InOrder(s) && Listening(s.phase) && Listening(Next(s, e).phase)
    ensures Next(s, e).subscribedAt == s.subscribedAt
    ensures HandedOver(Next(s, e))
      == HandedOver(s) + (if e.CallBack? && e.event in s.notifying then [e.event] else [])
  {
    match e {
      case SendReplay =>
        if s.phase == Replaying && s.replay == [] {
          assert |s.sent| == |Range(First(s.since), s.readAt)|;
        }
      case SendLive => HandedOverSend(s);
      case CallBack(event) => assert LivePart(Next(s, e)) == LivePart(s);
      case Emit => assert HandedOver(Next(s, e)) == HandedOver(s);
      case _ =>
    }
  }

  lemma HandedOverSend(s: State)
    requires InOrder(s)
    ensures HandedOver(Next(s, SendLive)) == HandedOver(s)
  {
    if s.phase == Live && s.queue != [] {
      var t := Next(s, SendLive);
      EventsLast(s.sent, Frame(s.written - 1, s.queue[0]));
      assert LivePart(t) == LivePart(s) + [s.queue[0]];
      assert (LivePart(s) + [s.queue[0]]) + s.queue[1..] == LivePart(s) + s.queue;
    }
  }

  lemma {:induction false} ClosedStays(s: State, schedule: seq<Event>)
    requires s.phase == Closed
    ensures After(s, schedule).phase == Closed
    decreases |schedule|
  {
    if schedule != [] {
      ClosedStays(Next(s, schedule[0]), schedule[1..]);
    }
  }

  lemma OnceListening(s: State, e: Event)
    ensures Listening(s.phase) && Next(s, e).phase != Closed ==> Listening(Next(s, e).phase)
  {
  }

  /** What was handed over stays so, in place. */
  lemma {:induction false} HandedOverGrows(s: State, schedule: seq<Event>)
    requires InOrder(s) && Listening(s.phase) && Listening(After(s, schedule).phase)
    ensures HandedOver(s) <= HandedOver(After(s, schedule))
    ensures After(s, schedule).subscribedAt == s.subscribedAt
    decreases |schedule|
  {
    hide InOrder, HandedOver, Next;
    if schedule != [] {
      var t := Next(s, schedule[0]);
      if t.phase == Closed {
        ClosedStays(t, schedule[1..]);
      }
      OnceListening(s, schedule[0]);
      InOrderKept(s, schedule[0]);
      HandedOverStep(s, schedule[0]);
      HandedOverGrows(t, schedule[1..]);
    }
  }

  lemma RangeLast(from: nat, to: nat)
    requires from <= to
    ensures Range(from, to + 1) == Range(from, to) + [to]
  {
  }

  lemma StreamAfterCall(s: State, event: nat)
    requires InOrder(s) && StreamInOrder(s) && Listening(s.phase) && event in s.notifying && Oldest(s, event)
    ensures StreamInOrder(Next(s, CallBack(event)))
  {
    HandedOverStep(s, CallBack(event));
    var base := s.subscribedAt + |HandedOver(s)|;
    RangeLast(s.subscribedAt, base);
    hide InOrder, HandedOver, Range;
    assert base in s.notifying && event == base;
  }

  lemma StreamAfterOther(s: State, e: Event)
    requires InOrder(s) && StreamInOrder(s) && Listening(s.phase) && Listening(Next(s, e).phase)
    requires !(e.CallBack? && e.event in s.notifying)
    ensures StreamInOrder(Next(s, e))
  {
    HandedOverStep(s, e);
    hide InOrder, HandedOver, Range;
    assert HandedOver(Next(s, e)) == HandedOver(s);
  }

  lemma StreamKept(s: State, e: Event)
    requires InOrder(s) && StreamInOrder(s)
    requires e.CallBack? && e.event in s.notifying ==> Oldest(s, e.event)
    ensures StreamInOrder(Next(s, e))
  {
    if Listening(s.phase) && Listening(Next(s, e).phase) {
      hide InOrder, StreamInOrder, Next, Oldest;
      if e.CallBack? && e.event in s.notifying {
        StreamAfterCall(s, e.event);
      } else {
        StreamAfterOther(s, e);
      }
    } else if Listening(Next(s, e).phase) {
      assert HandedOver(Next(s, e)) == [];
    }
  }

  /** A callback out of turn leaves a gap for good. */
  lemma OutOfTurn(s: State, schedule: seq<Event>)
    requires InOrder(s) && StreamInOrder(s) && schedule != [] && Listening(After(s, schedule).phase)
    requires schedule[0].CallBack? && schedule[0].event in s.notifying && !Oldest(s, schedule[0].event)
    ensures !WithoutGaps(After(s, schedule))
  {
    var e, t, end := schedule[0], Next(s, schedule[0]), After(s, schedule);
    assert Listening(s.phase) by {
      if s.phase == Closed {
        ClosedStays(s, schedule);
      }
    }
    InOrderKept(s, e);
    HandedOverStep(s, e);
    HandedOverGrows(t, schedule[1..]);
    hide After, InOrder, HandedOver;
    var base := s.subscribedAt + |HandedOver(s)|;
    assert HandedOver(end)[|HandedOver(s)|] == e.event && e.event > base;
  }

  /** From a stream in order: it stays in order if and only if no callback is called out of turn. */
  lemma {:induction false} StreamStaysInOrderIff(s: State, schedule: seq<Event>)
    requires InOrder(s) && StreamInOrder(s) && Listening(After(s, schedule).phase)
    ensures WithoutGaps(After(s, schedule)) <==> CalledInLogOrder(s, schedule)
    ensures CalledInLogOrder(s, schedule) ==> StreamInOrder(After(s, schedule))
    decreases |schedule|
  {
    hide InOrder, StreamInOrder, WithoutGaps, Next, Oldest;
    if schedule == [] {
      InOrderIsWithoutGaps(s);
    } else if schedule[0].CallBack? && schedule[0].event in s.notifying && !Oldest(s, schedule[0].event) {
      OutOfTurn(s, schedule);
    } else {
      InOrderKept(s, schedule[0]);
      StreamKept(s, schedule[0]);
      StreamStaysInOrderIff(Next(s, schedule[0]), schedule[1..]);
    }
  }

  lemma InOrderIsWithoutGaps(s: State)
    requires StreamInOrder(s) && Listening(s.phase)
    ensures WithoutGaps(s)
  {
  }

  /** For any number of emitters, as long as the client is connected: what it was handed over live is the log
      since its subscription, in order and without gaps, if and only if every callback was called for the
      oldest event still to be handed over. */
  lemma InLogOrderIff(since: int, written: nat, schedule: seq<Event>)
    requires Listening(After(Connection(since, written), schedule).phase)
    ensures WithoutGaps(After(Connection(since, written), schedule)) <==>
      CalledInLogOrder(Connection(since, written), schedule)
  {
    hide After, CalledInLogOrder, WithoutGaps;
    assert Events(Connection(since, written).sent) == [];
    StreamStaysInOrderIff(Connection(since, written), schedule);
  }

  /** Callbacks called in log order show the client the history from the requested index, and then every event
      since the subscription, each part in log order and without gaps. */
  lemma CalledInOrderIsInOrder(since: int, written: nat, schedule: seq<Event>)
    requires CalledInLogOrder(Connection(since, written), schedule)
    requires After(Connection(since, written), schedule).phase == Live
    ensures var s := After(Connection(since, written), schedule);
      exists n :: s.subscribedAt <= n <= s.written
        && Events(s.sent) == Range(First(since), s.readAt) + Range(s.subscribedAt, n)
  {
    assert Events(Connection(since, written).sent) == [];
    StreamStaysInOrderIff(Connection(since, written), schedule);
    Reached(since, written, schedule, 0);
    SubscribeBeforeRead(since, written, schedule);
    var s := After(Connection(since, written), schedule);
    hide After, CalledInLogOrder, Accounted;
    var n := s.subscribedAt + |LivePart(s)|;
    assert LivePart(s) == HandedOver(s)[..|LivePart(s)|];
    assert Range(s.subscribedAt, n) == LivePart(s);
    assert Events(s.sent) == Range(First(since), s.readAt) + LivePart(s);
  }

  /** No event is written before the callback of the one before has been called: a single emitter. */
  ghost predicate OneEmitter(s: State, schedule: seq<Event>)
    decreases |schedule|
  {
    schedule != [] ==>
      (schedule[0] == Emit ==> s.notifying == {}) && OneEmitter(Next(s, schedule[0]), schedule[1..])
  }

  lemma {:induction false} OneEmitterCallsInOrder(s: State, schedule: seq<Event>)
    requires OneEmitter(s, schedule) && forall x, y :: x in s.notifying && y in s.notifying ==> x == y
    ensures CalledInLogOrder(s, schedule)
    decreases |schedule|
  {
    if schedule != [] {
      OneEmitterCallsInOrder(Next(s, schedule[0]), schedule[1..]);
    }
  }

  /** So with a single emitter the client sees the history from the requested index, then every event since
      the subscription, each part in log order and without gaps. */
  lemma OneEmitterIsInOrder(since: int, written: nat, schedule: seq<Event>)
    requires OneEmitter(Connection(since, written), schedule)
    requires After(Connection(since, written), schedule).phase == Live
    ensures var s := After(Connection(since, written), schedule);
      exists n :: s.subscribedAt <= n <= s.written
        && Events(s.sent) == Range(First(since), s.readAt) + Range(s.subscribedAt, n)
  {
    OneEmitterCallsInOrder(Connection(since, written), schedule);
    CalledInOrderIsInOrder(since, written, schedule);
  }

  const CROSSED: seq<Event> := [Emit, Emit, CallBack(1), CallBack(0), SendLive, SendLive]

  /** With two emitters the stream can leave log order. */
  lemma TwoEmittersCanCross()
    ensures var s := After(Connection(0, 0), [Subscribe, ReadHistory, SendReplay] + CROSSED);
      Events(s.sent) == [1, 0]
  {
    hide After;
    var live := State(0, Live, 0, {}, [], [], [], 0, 0, 0);
    LiveAfterThree(CROSSED);
    Crossed(live);
  }

  lemma Crossed(live: State)
    requires live == State(0, Live, 0, {}, [], [], [], 0, 0, 0)
    ensures After(live, CROSSED) == live.(written := 2, sent := [Frame(1, 1), Frame(1, 0)])
  {
    hide After;
    var one := live.(written := 1, notifying := {0});
    var two := live.(written := 2, notifying := {0, 1});
    var three := two.(notifying := {0}, queue := [1]);
    var four := two.(notifying := {}, queue := [1, 0]);
    var five := four.(queue := [0], sent := [Frame(1, 1)]);
    assert {} + {0} == {0} && {0} + {1} == {0, 1} && {0, 1} - {1} == {0} && {0} - {0} == {};
    assert Next(live, Emit) == one && Next(one, Emit) == two;
    assert Next(two, CallBack(1)) == three;
    assert Next(three, CallBack(0)) == four;
    assert Next(four, SendLive) == five;
    assert Next(five, SendLive) == live.(written := 2, sent := [Frame(1, 1), Frame(1, 0)]);
    AfterFirst(live, Emit, CROSSED[1..]);
    AfterFirst(one, Emit, CROSSED[2..]);
    AfterFirst(two, CallBack(1), CROSSED[3..]);
    AfterFirst(three, CallBack(0), CROSSED[4..]);
    AfterFirst(four, SendLive, CROSSED[5..]);
    AfterFirst(five, SendLive, []);
    AfterNothing(Next(five, SendLive));
    assert CROSSED == [Emit] + CROSSED[1..] && CROSSED[1..] == [Emit] + CROSSED[2..];
    assert CROSSED[2..] == [CallBack(1)] + CROSSED[3..] && CROSSED[3..] == [CallBack(0)] + CROSSED[4..];
    assert CROSSED[4..] == [SendLive] + CROSSED[5..] && CROSSED[5..] == [SendLive] + [];
  }
}

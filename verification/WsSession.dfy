/** The WebSocket session of the client SDK (`ws.rs`): connect, subscribe, forward, reconnect.

    Sockets, TLS and the scheduler are a script: `World` says how every connect attempt ends and, for a
    live connection, what every poll of the stream returns and how long it takes. The consumer is the
    number of channel sends it accepts before it is dropped. Time is counted in milliseconds. */
module WsSession {
  import opened Naturals
  import opened Wrappers
  import opened Retry

  // ---------------------------------------------------------------------------------------------
  // Messages
  // ---------------------------------------------------------------------------------------------

  datatype Json =
    | JNull
    | JBool(b: bool)
    | JNumber(digits: string)
    | JString(text: string)
    | JArray(items: seq<Json>)
    | JObject(fields: map<string, Json>)

  /** `event.get("id").and_then(as_str)`. */
  function StringId(event: Json): Option<string> {
    if event.JObject? && "id" in event.fields && event.fields["id"].JString?
    then Some(event.fields["id"].text)
    else None
  }

  datatype StreamMessage =
    | Anomaly(event: Json)
    | RiskUpdate(report: Json, previousScore: real, delta: real)
    | LagNotice(dropped: nat)
    | Reconnected
    | ResumeFailed(lostWindow: string)

  datatype ClientError = WebSocketClosed(exhausted: nat) | UrlError | SerdeError

  datatype Item = Delivered(message: StreamMessage) | Failed(error: ClientError)

  datatype ReportBody = ReportBody(report: Json, previousScore: real, delta: real)

  /** A text frame after JSON parsing; `None` is a frame of a known type whose body does not parse. */
  datatype Text =
    | Untyped
    | Subscribed
    | Event(body: Option<Json>)
    | Report(update: Option<ReportBody>)
    | HeartbeatPing
    | Lag(dropped: Option<nat>)
    | ReplayTruncated(fromId: Option<string>)
    | Closing
    | OtherType(kind: string)

  /** Frames of RFC 6455: data frames and the control frames of sections 5.5.1 to 5.5.3. */
  datatype Frame =
    | TextFrame(text: Text)
    | CloseFrame(code: Option<nat>)
    | PingFrame(payload: seq<bv8>)
    | PongFrame(payload: seq<bv8>)
    | BinaryFrame
    | RawFrame

  datatype Arrival = Received(frame: Frame) | StreamError | StreamEnded

  /** One poll of the stream: an arrival `after` some time, whose handling keeps the connection loop `busy`, or a
      timeout noticed `overrun` late. */
  datatype Poll = Arrived(after: nat, arrival: Arrival, busy: nat) | TimedOut(overrun: nat)

  datatype Attempt =
    | UrlRejected
    | ConnectFailed
    | SerializeFailed
    | SubscribeFailed
    | Live(polls: seq<Poll>)

  type World = nat -> Attempt

  datatype Reply = PongText | PongEcho(payload: seq<bv8>)

  /** What an observer of the connection loop sees, in order. */
  datatype Act =
    | Slept(millis: nat)
    | Connect
    | Subscribe(resumeFrom: Option<string>)
    | Polled(idle: nat, wait: nat)
    | Lapsed
    | Answer(reply: Reply)
    | Out(item: Item)

  const HEARTBEAT_TIMEOUT: nat := 90_000
  const POLL_SLICE: nat := 5_000
  const U32_MAX: nat := 0xFFFF_FFFF

  // ---------------------------------------------------------------------------------------------
  // One connection
  // ---------------------------------------------------------------------------------------------

  predicate IsPing(frame: Frame) { frame.PingFrame? || frame == TextFrame(HeartbeatPing) }

  /** The frames on which the inner loop breaks. */
  predicate IsBreaking(frame: Frame) { frame.CloseFrame? || frame == TextFrame(Closing) }

  /** The stream message a frame decodes to, if it is well formed and of a forwarded type. */
  function Decoded(frame: Frame): Option<StreamMessage> {
    match frame
    case TextFrame(Event(Some(event))) => Some(Anomaly(event))
    case TextFrame(Report(Some(u))) => Some(RiskUpdate(u.report, u.previousScore, u.delta))
    case TextFrame(Lag(Some(dropped))) => Some(LagNotice(dropped))
    case TextFrame(ReplayTruncated(Some(fromId))) => Some(ResumeFailed(fromId))
    case _ => None
  }

  /** The acts a frame causes: the pong due to a ping, or the forwarding of a decoded message. */
  function Reaction(frame: Frame): seq<Act> {
    if frame == TextFrame(HeartbeatPing) then [Answer(PongText)]
    else if frame.PingFrame? then [Answer(PongEcho(frame.payload))]
    else match Decoded(frame)
      case Some(message) => [Out(Delivered(message))]
      case None => []
  }

  /** How long the next poll may take: the rest of the heartbeat window (saturating), at most 5 s. */
  function Wait(idle: nat): nat {
    Min(if idle < HEARTBEAT_TIMEOUT then HEARTBEAT_TIMEOUT - idle else 0, POLL_SLICE)
  }

  /** Does the inner loop leave on this poll? */
  predicate Ends(poll: Poll) {
    poll.Arrived? && (poll.arrival.Received? ==> IsBreaking(poll.arrival.frame))
  }

  /** The time since the last ping after one more poll. */
  function IdleAfter(idle: nat, poll: Poll): nat {
    match poll
    case TimedOut(overrun) => idle + Wait(idle) + overrun
    case Arrived(after, arrival, busy) =>
      if arrival.Received? && IsPing(arrival.frame) then busy else idle + after + busy
  }

  function PollActs(idle: nat, poll: Poll): seq<Act> {
    [Polled(idle, Wait(idle))] +
    (match poll
     case TimedOut(_) => [Lapsed]
     case Arrived(_, Received(frame), _) => if IsBreaking(frame) then [] else Reaction(frame)
     case Arrived(_, _, _) => [])
  }

  /** The acts of a connection whose last ping is `idle` old and whose remaining polls are `polls`; a
      script that is used up is a stream that ended. */
  function ConnectionActs(polls: seq<Poll>, idle: nat): seq<Act> {
    if idle >= HEARTBEAT_TIMEOUT then []
    else if polls == [] then [Polled(idle, Wait(idle))]
    else if Ends(polls[0]) then PollActs(idle, polls[0])
    else PollActs(idle, polls[0]) + ConnectionActs(polls[1..], IdleAfter(idle, polls[0]))
  }

  /** Poll `j` of a script. */
  function PollAt(polls: seq<Poll>, j: nat): Poll {
    if j < |polls| then polls[j] else Arrived(0, StreamEnded, 0)
  }

  /** The definition of `ConnectionActs`, one poll further into the script. */
  lemma ConnectionStep(polls: seq<Poll>, j: nat, idle: nat)
    requires j <= |polls|
    ensures idle >= HEARTBEAT_TIMEOUT ==> ConnectionActs(polls[j..], idle) == []
    ensures idle < HEARTBEAT_TIMEOUT && Ends(PollAt(polls, j)) ==>
      ConnectionActs(polls[j..], idle) == PollActs(idle, PollAt(polls, j))
    ensures idle < HEARTBEAT_TIMEOUT && !Ends(PollAt(polls, j)) ==>
      && j < |polls|
      && ConnectionActs(polls[j..], idle) ==
         PollActs(idle, polls[j]) + ConnectionActs(polls[j + 1..], IdleAfter(idle, polls[j]))
  {
    assert j < |polls| ==> polls[j..][1..] == polls[j + 1..];
  }

  // ---------------------------------------------------------------------------------------------
  // The whole session
  // ---------------------------------------------------------------------------------------------

  /** The channel output of some acts. */
  function Output(acts: seq<Act>): seq<Item> {
    if acts == [] then []
    else
      var last := acts[|acts| - 1];
      Output(acts[..|acts| - 1]) + if last.Out? then [last.item] else []
  }

  /** One step of the resume cursor over the channel output. */
  function CursorStep(cursor: Option<string>, item: Item): Option<string> {
    match item
    case Delivered(Anomaly(event)) => if StringId(event).Some? then StringId(event) else cursor
    case Delivered(ResumeFailed(_)) => None
    case _ => cursor
  }

  /** The resume cursor as a function of the channel output alone. */
  function Cursor(items: seq<Item>): Option<string> {
    if items == [] then None else CursorStep(Cursor(items[..|items| - 1]), items[|items| - 1])
  }

  /** What the connection loop does between the failure of attempt `i - 1` and attempt `i`. */
  function Prelude(i: nat): seq<Act>
    requires i <= U32_MAX
  {
    if i == 0 then [] else [Slept(ReconnectMillis(i - 1)), Out(Delivered(Reconnected))]
  }

  /** The acts of an attempt after its prelude, and whether the session goes on after it. */
  function AttemptActs(attempt: Attempt, cursor: Option<string>): seq<Act> {
    match attempt
    case UrlRejected => [Out(Failed(UrlError))]
    case ConnectFailed => [Connect]
    case SerializeFailed => [Connect, Out(Failed(SerdeError))]
    case SubscribeFailed => [Connect, Subscribe(cursor)]
    case Live(polls) => [Connect, Subscribe(cursor)] + ConnectionActs(polls, 0)
  }

  predicate IsFatal(attempt: Attempt) { attempt.UrlRejected? || attempt.SerializeFailed? }

  /** The acts from attempt `i` on, given those before it, if the consumer stays. */
  function Session(world: World, i: nat, max: nat, past: seq<Act>): seq<Act>
    requires max < U32_MAX && i <= max + 1
    decreases max + 1 - i
  {
    if i > max then [Out(Failed(WebSocketClosed(max)))]
    else
      var now := Prelude(i) + AttemptActs(world(i), Cursor(Output(past + Prelude(i))));
      if IsFatal(world(i)) then now else now + Session(world, i + 1, max, past + now)
  }

  /** The value of the `u32` reconnect count after `n` failed attempts, with wrapping increments. */
  function CountAfter(n: nat): (count: nat)
    ensures count <= U32_MAX
  {
    n % 0x1_0000_0000
  }

  lemma CountStep(n: nat)
    ensures CountAfter(0) == 0 && CountAfter(n + 1) == (CountAfter(n) + 1) % 0x1_0000_0000
  {
  }

  /** The acts of the next `n` passes of the outer loop from attempt `p` on, for any limit: the loop itself,
      with its wrapping count, whether or not it ever ends. */
  function Passes(world: World, p: nat, n: nat, max: nat, past: seq<Act>): seq<Act>
    requires max <= U32_MAX
    decreases n
  {
    if n == 0 then []
    else if CountAfter(p) > max then [Out(Failed(WebSocketClosed(max)))]
    else
      var now := Prelude(CountAfter(p)) + AttemptActs(world(p), Cursor(Output(past + Prelude(CountAfter(p)))));
      if IsFatal(world(p)) then now else now + Passes(world, p + 1, n - 1, max, past + now)
  }

  /** The definition of `Passes`, one pass at a time. */
  lemma PassStep(world: World, p: nat, n: nat, max: nat, past: seq<Act>)
    requires max <= U32_MAX && n > 0
    ensures CountAfter(p) > max ==> Passes(world, p, n, max, past) == [Out(Failed(WebSocketClosed(max)))]
    ensures CountAfter(p) <= max ==>
      var now := Prelude(CountAfter(p)) + AttemptActs(world(p), Cursor(Output(past + Prelude(CountAfter(p)))));
      Passes(world, p, n, max, past) ==
      now + if IsFatal(world(p)) then [] else Passes(world, p + 1, n - 1, max, past + now)
  {
  }

  /** The same after some past: what a pass adds, and what is left. */
  lemma PassSplits(world: World, p: nat, n: nat, max: nat, past: seq<Act>)
    requires max <= U32_MAX && n > 0 && CountAfter(p) <= max
    ensures
      var now := Prelude(CountAfter(p)) + AttemptActs(world(p), Cursor(Output(past + Prelude(CountAfter(p)))));
      past + Passes(world, p, n, max, past) ==
      if IsFatal(world(p)) then past + now else past + now + Passes(world, p + 1, n - 1, max, past + now)
  {
    hide Prelude, AttemptActs, Passes, Cursor, Output, IsFatal, CountAfter;
    PassStep(world, p, n, max, past);
  }

  /** The acts of an attempt, one by one. */
  lemma AttemptSplits(past: seq<Act>, attempt: Attempt, cursor: Option<string>)
    ensures
      past + AttemptActs(attempt, cursor) ==
      match attempt
      case UrlRejected => past + [Out(Failed(UrlError))]
      case ConnectFailed => past + [Connect]
      case SerializeFailed => past + [Connect] + [Out(Failed(SerdeError))]
      case SubscribeFailed => past + [Connect] + [Subscribe(cursor)]
      case Live(polls) => past + [Connect] + [Subscribe(cursor)] + ConnectionActs(polls, 0)
  {
    hide ConnectionActs;
  }

  lemma NoPasses(world: World, p: nat, max: nat, past: seq<Act>)
    requires max <= U32_MAX
    ensures Passes(world, p, 0, max, past) == []
  {
  }

  /** Below the largest limit `max + 2` passes are the whole session. */
  lemma {:induction false} PassesAreSession(world: World, p: nat, n: nat, max: nat, past: seq<Act>)
    requires max < U32_MAX && p <= max + 1 && p + n >= max + 2
    ensures Passes(world, p, n, max, past) == Session(world, p, max, past)
    decreases n
  {
    hide Cursor, Output, Prelude, AttemptActs, Session, Passes;
    PassStep(world, p, n, max, past);
    if p > max {
      SessionEnd(world, max, past);
    } else {
      SessionStep(world, p, max, past);
      var now := Prelude(p) + AttemptActs(world(p), Cursor(Output(past + Prelude(p))));
      if !IsFatal(world(p)) {
        PassesAreSession(world, p + 1, n - 1, max, past + now);
      }
    }
  }

  /** The definition of `Session`, with the cursor taken where the subscribe message is built. */
  lemma SessionStep(world: World, i: nat, max: nat, past: seq<Act>)
    requires max < U32_MAX && i <= max
    ensures
      var now := Prelude(i) + AttemptActs(world(i), Cursor(Output(past + Prelude(i))));
      Session(world, i, max, past) ==
      now + if IsFatal(world(i)) then [] else Session(world, i + 1, max, past + now)
  {
  }

  lemma SessionEnd(world: World, max: nat, past: seq<Act>)
    requires max < U32_MAX
    ensures Session(world, max + 1, max, past) == [Out(Failed(WebSocketClosed(max)))]
  {
  }

  /** Does a consumer that accepts `room` sends (any number, if `None`) accept all of these? */
  predicate Fits(acts: seq<Act>, room: Option<nat>) { room.Some? ==> |Output(acts)| <= room.value }

  /** What happens of a session before the consumer is found gone: its longest prefix that fits. */
  function Observed(acts: seq<Act>, room: Option<nat>): (seen: seq<Act>)
    ensures seen <= acts && Fits(seen, room)
  {
    if Fits(acts, room) then acts else Observed(acts[..|acts| - 1], room)
  }

  lemma {:induction false} OutputOfConcat(a: seq<Act>, b: seq<Act>)
    ensures Output(a + b) == Output(a) + Output(b)
  {
    if b == [] {
      assert a + b == a;
    } else {
      assert (a + b)[..|a + b| - 1] == a + b[..|b| - 1];
      OutputOfConcat(a, b[..|b| - 1]);
    }
  }

  /** No send but the last one can have failed. */
  ghost predicate Halted(acts: seq<Act>, room: Option<nat>) { acts == [] || Fits(acts[..|acts| - 1], room) }

  lemma FitsIsHalted(acts: seq<Act>, room: Option<nat>)
    requires Fits(acts, room)
    ensures Halted(acts, room)
  {
  }

  /** What the loop does of a session: everything up to the first send that fails, and that send. */
  function Tried(acts: seq<Act>, room: Option<nat>): (tried: seq<Act>)
    ensures tried <= acts && Halted(tried, room)
  {
    if acts == [] || Fits(acts[..|acts| - 1], room) then acts else Tried(acts[..|acts| - 1], room)
  }

  /** The only way to stop early is at a send that fails. */
  lemma {:induction false} TriedIs(acts: seq<Act>, more: seq<Act>, room: Option<nat>)
    requires acts <= more && Halted(acts, room) && (acts == more || !Fits(acts, room))
    ensures Tried(more, room) == acts
  {
    if |acts| == |more| {
      assert acts == more;
    } else {
      var front := more[..|more| - 1];
      assert front == acts + front[|acts|..];
      OutputOfConcat(acts, front[|acts|..]);
      TriedIs(acts, front, room);
    }
  }

  /** A session that fits is done to its end. Otherwise what is done is what is observed and one act more, the
      send that fails; the rest of the session, whatever it is, is not even tried. */
  lemma {:induction false} TriedMeaning(acts: seq<Act>, room: Option<nat>)
    ensures Observed(Tried(acts, room), room) == Observed(acts, room)
    ensures Fits(acts, room) ==> Tried(acts, room) == acts == Observed(acts, room)
    ensures !Fits(acts, room) ==>
      var seen := Observed(acts, room);
      |seen| < |acts| && acts[|seen|].Out? && Tried(acts, room) == seen + [acts[|seen|]]
  {
    if acts == [] {
    } else {
      var front := acts[..|acts| - 1];
      OutputAppend(front, acts[|acts| - 1]);
      assert acts == front + [acts[|acts| - 1]];
      if !Fits(acts, room) {
        TriedMeaning(front, room);
      }
    }
  }

  /** What would have followed a send that fails makes no difference. */
  lemma {:induction false} TriedStops(acts: seq<Act>, more: seq<Act>, room: Option<nat>)
    requires acts <= more && !Fits(acts, room)
    ensures Tried(more, room) == Tried(acts, room) && Observed(more, room) == Observed(acts, room)
  {
    if |acts| == |more| {
      assert acts == more;
    } else {
      var front := more[..|more| - 1];
      assert front == acts + front[|acts|..] && more == front + [more[|more| - 1]];
      OutputOfConcat(acts, front[|acts|..]);
      OutputOfConcat(front, [more[|more| - 1]]);
      TriedStops(acts, front, room);
    }
  }

  lemma OutputAppend(acts: seq<Act>, act: Act)
    ensures act.Out? ==> Output(acts + [act]) == Output(acts) + [act.item]
    ensures !act.Out? ==> Output(acts + [act]) == Output(acts)
    ensures act.Out? ==> Cursor(Output(acts + [act])) == CursorStep(Cursor(Output(acts)), act.item)
  {
    assert (acts + [act])[..|acts|] == acts;
    if act.Out? {
      assert (Output(acts) + [act.item])[..|Output(acts)|] == Output(acts);
    }
  }

  // ---------------------------------------------------------------------------------------------
  // The connection loop
  // ---------------------------------------------------------------------------------------------

  /** The state of `ws_connection_loop`. `room` is the number of sends the consumer still accepts;
      `acts` is everything the loop has tried so far, a failed send included. */
  class Connection {
    const max: nat
    const patience: Option<nat>
    var lastEventId: Option<string>
    var reconnectCount: nat
    var clock: nat
    var lastPing: nat
    var room: Option<nat>
    ghost var acts: seq<Act>

    /** The channel and the clock are accounted for. */
    ghost predicate Accounted()
      reads this
    {
      && lastPing <= clock
      && Fits(acts, patience)
      && room == if patience.None? then None else Some(patience.value - |Output(acts)|)
    }

    ghost predicate Valid()
      reads this
    {
      Accounted() && lastEventId == Cursor(Output(acts))
    }

    constructor (max: nat, patience: Option<nat>)
      ensures Valid() && this.max == max && this.patience == patience
      ensures acts == [] && reconnectCount == 0
    {
      this.max, this.patience, room := max, patience, patience;
      lastEventId, reconnectCount, clock, lastPing, acts := None, 0, 0, 0, [];
    }

    /** Records an act that is not a send. */
    ghost method Record(act: Act)
      requires Valid() && !act.Out?
      modifies this`acts
      ensures Valid() && acts == old(acts) + [act]
    {
      OutputAppend(acts, act);
      acts := acts + [act];
    }

    /** `tx.send(..).await`: fails exactly when the consumer has dropped the receiver. */
    method Send(item: Item) returns (accepted: bool)
      requires Accounted()
      modifies this`room, this`acts
      ensures acts == old(acts) + [Out(item)]
      ensures accepted <==> Fits(acts, patience)
      ensures accepted ==> Accounted()
      ensures Halted(acts, patience)
    {
      assert (acts + [Out(item)])[..|acts|] == acts;
      OutputAppend(acts, Out(item));
      acts := acts + [Out(item)];
      if room == Some(0) {
        return false;
      }
      if room.Some? {
        room := Some(room.value - 1);
      }
      return true;
    }

    /** The `match ws_msg` of the inner loop, for a frame that does not break it. */
    method Handle(frame: Frame) returns (accepted: bool)
      requires Valid() && !IsBreaking(frame)
      modifies this`lastEventId, this`lastPing, this`room, this`acts
      ensures acts == old(acts) + Reaction(frame)
      ensures accepted <==> Fits(acts, patience)
      ensures accepted ==> Valid()
      ensures lastPing == if IsPing(frame) then clock else old(lastPing)
      ensures Halted(acts, patience)
    {
      hide Cursor, Output, Halted;
      FitsIsHalted(acts, patience);
      accepted := true;
      match frame
      case TextFrame(Event(Some(event))) =>
        if StringId(event).Some? {
          lastEventId := StringId(event);
        }
        OutputAppend(acts, Out(Delivered(Anomaly(event))));
        accepted := Send(Delivered(Anomaly(event)));
      case TextFrame(Report(Some(u))) =>
        OutputAppend(acts, Out(Delivered(RiskUpdate(u.report, u.previousScore, u.delta))));
        accepted := Send(Delivered(RiskUpdate(u.report, u.previousScore, u.delta)));
      case TextFrame(HeartbeatPing) =>
        lastPing := clock;
        Record(Answer(PongText));
        FitsIsHalted(acts, patience);
      case TextFrame(Lag(Some(dropped))) =>
        OutputAppend(acts, Out(Delivered(LagNotice(dropped))));
        accepted := Send(Delivered(LagNotice(dropped)));
      case TextFrame(ReplayTruncated(Some(fromId))) =>
        lastEventId := None;
        OutputAppend(acts, Out(Delivered(ResumeFailed(fromId))));
        accepted := Send(Delivered(ResumeFailed(fromId)));
      case PingFrame(payload) =>
        lastPing := clock;
        Record(Answer(PongEcho(payload)));
        FitsIsHalted(acts, patience);
      case _ =>
    }

    /** One turn of the inner loop: a bounded wait, then the arrival is handled. */
    method Turn(poll: Poll) returns (ended: bool, accepted: bool)
      requires Valid() && clock - lastPing < HEARTBEAT_TIMEOUT
      modifies this`lastEventId, this`clock, this`lastPing, this`room, this`acts
      ensures acts == old(acts) + PollActs(old(clock - lastPing), poll)
      ensures accepted <==> Fits(acts, patience)
      ensures accepted ==> Valid() && ended == Ends(poll)
      ensures accepted && !ended ==> clock - lastPing == IdleAfter(old(clock - lastPing), poll)
      ensures Halted(acts, patience)
    {
      hide Cursor, Output, Reaction, Halted;
      var remaining := HEARTBEAT_TIMEOUT - (clock - lastPing);
      var wait := Min(remaining, POLL_SLICE);
      Record(Polled(clock - lastPing, wait));
      match poll
      case TimedOut(overrun) =>
        clock := clock + wait + overrun;
        Record(Lapsed);
        FitsIsHalted(acts, patience);
        return false, true;
      case Arrived(after, arrival, busy) =>
        clock := clock + after;
        if !arrival.Received? || IsBreaking(arrival.frame) {
          FitsIsHalted(acts, patience);
          return true, true;
        }
        accepted := Handle(arrival.frame);
        clock := clock + busy;
        return false, accepted;
    }

    /** The inner loop over one live connection. */
    method Serve(polls: seq<Poll>) returns (accepted: bool)
      requires Valid()
      modifies this`lastEventId, this`clock, this`lastPing, this`room, this`acts
      ensures accepted <==> Fits(acts, patience)
      ensures accepted ==> Valid() && acts == old(acts) + ConnectionActs(polls, 0)
      ensures acts <= old(acts) + ConnectionActs(polls, 0) && Halted(acts, patience)
    {
      hide Cursor, Output, IdleAfter, PollActs, ConnectionActs, Ends, Halted;
      lastPing := clock;
      var j := 0;
      ghost var goal := acts + ConnectionActs(polls, 0);
      assert polls[0..] == polls;
      while clock - lastPing < HEARTBEAT_TIMEOUT
        invariant Valid() && j <= |polls|
        invariant goal == acts + ConnectionActs(polls[j..], clock - lastPing)
        decreases |polls| - j
      {
        var poll := PollAt(polls, j);
        ConnectionStep(polls, j, clock - lastPing);
        var ended;
        ended, accepted := Turn(poll);
        if ended || !accepted {
          return;
        }
        j := j + 1;
      }
      ConnectionStep(polls, j, clock - lastPing);
      FitsIsHalted(acts, patience);
      return true;
    }

    /** The reconnect backoff, and the notice that is sent before the connect attempt. */
    method Reconnect() returns (accepted: bool)
      requires Valid() && reconnectCount <= U32_MAX
      modifies this`clock, this`room, this`acts
      ensures acts == old(acts) + Prelude(reconnectCount)
      ensures accepted <==> Fits(acts, patience)
      ensures accepted ==> Valid()
      ensures Halted(acts, patience)
    {
      hide Cursor, Output, ReconnectMillis, Halted;
      FitsIsHalted(acts, patience);
      if reconnectCount == 0 {
        return true;
      }
      var delay := ReconnectBackoff(reconnectCount - 1);
      clock := clock + delay;
      Record(Slept(delay));
      OutputAppend(acts, Out(Delivered(Reconnected)));
      accepted := Send(Delivered(Reconnected));
    }

    /** One pass over the body of the outer loop after the notice; `goOn` is false on its returns. */
    method Try(attempt: Attempt) returns (goOn: bool)
      requires Valid()
      modifies this`lastEventId, this`clock, this`lastPing, this`room, this`acts
      ensures acts <= old(acts) + AttemptActs(attempt, Cursor(Output(old(acts))))
      ensures goOn ==> !IsFatal(attempt) && Valid()
      ensures goOn || Fits(acts, patience) ==> acts == old(acts) + AttemptActs(attempt, Cursor(Output(old(acts))))
      ensures !goOn ==> IsFatal(attempt) || !Fits(acts, patience)
      ensures Halted(acts, patience)
    {
      hide Cursor, Output, ConnectionActs, AttemptActs, Halted, Fits;
      AttemptSplits(acts, attempt, Cursor(Output(acts)));
      if attempt.UrlRejected? {
        var _ := Send(Failed(UrlError));
        return false;
      }
      Record(Connect);
      FitsIsHalted(acts, patience);
      if attempt.ConnectFailed? {
        return true;
      }
      if attempt.SerializeFailed? {
        var _ := Send(Failed(SerdeError));
        return false;
      }
      OutputAppend(old(acts), Connect);
      Record(Subscribe(lastEventId));
      FitsIsHalted(acts, patience);
      if attempt.SubscribeFailed? {
        return true;
      }
      goOn := Serve(attempt.polls);
    }

    /** One pass of the outer loop: the notice, then the attempt. */
    method Pass(attempt: Attempt) returns (goOn: bool)
      requires Valid() && reconnectCount <= U32_MAX
      modifies this`lastEventId, this`clock, this`lastPing, this`room, this`acts
      ensures
        var now := Prelude(reconnectCount) + AttemptActs(attempt, Cursor(Output(old(acts) + Prelude(reconnectCount))));
        && acts <= old(acts) + now
        && (goOn || Fits(acts, patience) ==> acts == old(acts) + now)
      ensures goOn ==> !IsFatal(attempt) && Valid()
      ensures !goOn ==> IsFatal(attempt) || !Fits(acts, patience)
      ensures Halted(acts, patience)
    {
      hide Cursor, Output, Prelude, AttemptActs, Halted;
      var accepted := Reconnect();
      if !accepted {
        return false;
      }
      goOn := Try(attempt);
    }

    /** The outer loop of `ws_connection_loop` for at most `passes` passes, for any `u32` limit; `ended` tells
        that it returned. It does everything up to and including the first send that fails, and nothing after. */
    method RunFor(world: World, passes: nat) returns (ended: bool)
      requires Valid() && acts == [] && reconnectCount == 0 && max <= U32_MAX
      modifies this
      ensures acts == Tried(Passes(world, 0, passes, max, []), patience)
      ensures !ended ==> Fits(acts, patience) && acts == Passes(world, 0, passes, max, [])
      ensures !ended ==> reconnectCount == CountAfter(passes)
    {
      hide Cursor, Output, Passes, Prelude, AttemptActs, Halted, Tried, IsFatal, CountAfter;
      CountStep(0);
      ghost var goal := Passes(world, 0, passes, max, []);
      assert goal == [] + goal;
      var p := 0;
      while p < passes
        invariant Valid() && p <= passes && reconnectCount == CountAfter(p)
        invariant goal == acts + Passes(world, p, passes - p, max, acts)
        decreases passes - p
      {
        if reconnectCount > max {
          PassStep(world, p, passes - p, max, acts);
          var _ := Send(Failed(WebSocketClosed(max)));
          TriedIs(acts, goal, patience);
          return true;
        }
        PassSplits(world, p, passes - p, max, acts);
        var goOn := Pass(world(p));
        if !goOn {
          TriedIs(acts, goal, patience);
          return true;
        }
        CountStep(p);
        reconnectCount := (reconnectCount + 1) % 0x1_0000_0000;
        p := p + 1;
      }
      NoPasses(world, p, max, acts);
      assert goal == acts + [] == acts;
      FitsIsHalted(acts, patience);
      TriedIs(acts, goal, patience);
      return false;
    }

    /** `ws_connection_loop`, for every limit below the largest `u32`: it ends, after what `Session` lists or at the
        first send of it that fails. */
    method Run(world: World)
      requires Valid() && acts == [] && reconnectCount == 0 && max < U32_MAX
      modifies this
      ensures acts == Tried(Session(world, 0, max, []), patience)
    {
      hide Session, Passes, Tried;
      PassesAreSession(world, 0, max + 2, max, []);
      var _ := RunFor(world, max + 2);
    }
  }
}

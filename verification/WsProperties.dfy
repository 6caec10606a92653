/** What the session of `WsSession` guarantees on every run: the resume cursor, ordered delivery, the
    reconnect budget and the heartbeat. The loop is tied to `Session` by `Connection.Run`; the lemmas here
    are about `Session` and every prefix of it that a consumer observes. */
module WsProperties {
  import opened Naturals
  import opened Wrappers
  import opened Retry
  import opened WsSession

  // ---------------------------------------------------------------------------------------------
  // Resume cursor
  // ---------------------------------------------------------------------------------------------

  ghost predicate SubscribesResume(acts: seq<Act>, past: seq<Act>) {
    forall k :: 0 <= k < |acts| && acts[k].Subscribe? ==> acts[k].resumeFrom == Cursor(Output(past + acts[..k]))
  }

  lemma NoSubscribeWithin(polls: seq<Poll>, idle: nat)
    ensures forall k :: 0 <= k < |ConnectionActs(polls, idle)| ==>
      !ConnectionActs(polls, idle)[k].Subscribe? && !ConnectionActs(polls, idle)[k].Connect?
  {
  }

  lemma AttemptResumes(i: nat, attempt: Attempt, past: seq<Act>)
    requires i <= U32_MAX
    ensures SubscribesResume(Prelude(i) + AttemptActs(attempt, Cursor(Output(past + Prelude(i)))), past)
  {
    hide Cursor, Output, ConnectionActs, ReconnectMillis;
    var prelude := Prelude(i);
    var acts := AttemptActs(attempt, Cursor(Output(past + prelude)));
    var now := prelude + acts;
    if attempt.Live? {
      NoSubscribeWithin(attempt.polls, 0);
    }
    forall k | 0 <= k < |now| && now[k].Subscribe?
      ensures now[k].resumeFrom == Cursor(Output(past + now[..k]))
    {
      assert k == |prelude| + 1 && acts[0] == Connect;
      assert past + now[..k] == (past + prelude) + [Connect];
      OutputAppend(past + prelude, Connect);
    }
  }

  lemma SubscribesOfConcat(a: seq<Act>, b: seq<Act>, past: seq<Act>)
    requires SubscribesResume(a, past) && SubscribesResume(b, past + a)
    ensures SubscribesResume(a + b, past)
  {
    hide Cursor, Output;
    forall k | 0 <= k < |a + b| && (a + b)[k].Subscribe?
      ensures (a + b)[k].resumeFrom == Cursor(Output(past + (a + b)[..k]))
    {
      if k < |a| {
        assert (a + b)[..k] == a[..k];
      } else {
        assert past + (a + b)[..k] == past + a + b[..k - |a|];
      }
    }
  }

  /** Every subscribe message carries the cursor of the channel output before it: across attempts,
      failed connects and skipped frames. */
  lemma {:induction false} ResumeIsFunctionOfOutput(world: World, i: nat, max: nat, past: seq<Act>)
    requires max < U32_MAX && i <= max + 1
    ensures SubscribesResume(Session(world, i, max, past), past)
    decreases max + 1 - i
  {
    hide Cursor, Output, AttemptActs, Prelude;
    if i > max {
    } else {
      SessionStep(world, i, max, past);
      AttemptResumes(i, world(i), past);
      var now := Prelude(i) + AttemptActs(world(i), Cursor(Output(past + Prelude(i))));
      if IsFatal(world(i)) {
        assert now + [] == now;
      } else {
        ResumeIsFunctionOfOutput(world, i + 1, max, past + now);
        SubscribesOfConcat(now, Session(world, i + 1, max, past + now), past);
      }
    }
  }

  /** The same for any number of passes under any limit. */
  lemma {:induction false} PassesResume(world: World, p: nat, n: nat, max: nat, past: seq<Act>)
    requires max <= U32_MAX
    ensures SubscribesResume(Passes(world, p, n, max, past), past)
    decreases n
  {
    hide Cursor, Output, AttemptActs, Prelude, Passes;
    if n == 0 {
      NoPasses(world, p, max, past);
    } else {
      PassStep(world, p, n, max, past);
      var count := CountAfter(p);
      if count <= max {
        AttemptResumes(count, world(p), past);
        var now := Prelude(count) + AttemptActs(world(p), Cursor(Output(past + Prelude(count))));
        if IsFatal(world(p)) {
          assert now + [] == now;
        } else {
          PassesResume(world, p + 1, n - 1, max, past + now);
          SubscribesOfConcat(now, Passes(world, p + 1, n - 1, max, past + now), past);
        }
      }
    }
  }

  /** And whenever the consumer drops: so on every run of `RunFor`, and of `Run`, every subscribe message resumes
      from the output before it. */
  lemma EveryRunResumes(world: World, passes: nat, max: nat, room: Option<nat>)
    requires max <= U32_MAX
    ensures SubscribesResume(Tried(Passes(world, 0, passes, max, []), room), [])
    ensures max < U32_MAX ==> SubscribesResume(Tried(Session(world, 0, max, []), room), [])
  {
    hide Cursor, Output, Passes, Session, Tried;
    PassesResume(world, 0, passes, max, []);
    PrefixResumes(Tried(Passes(world, 0, passes, max, []), room), Passes(world, 0, passes, max, []));
    if max < U32_MAX {
      ResumeIsFunctionOfOutput(world, 0, max, []);
      PrefixResumes(Tried(Session(world, 0, max, []), room), Session(world, 0, max, []));
    }
  }

  lemma PrefixResumes(acts: seq<Act>, more: seq<Act>)
    requires acts <= more && SubscribesResume(more, [])
    ensures SubscribesResume(acts, [])
  {
    hide Cursor, Output;
    forall k | 0 <= k < |acts| && acts[k].Subscribe?
      ensures acts[k].resumeFrom == Cursor(Output([] + acts[..k]))
    {
      assert acts[..k] == more[..k];
    }
  }

  /** The event is an object whose field "id" is a string. */
  predicate HasId(event: Json) { event.JObject? && "id" in event.fields && event.fields["id"].JString? }

  /** One more delivered event makes its id, if it has one, the cursor, and otherwise changes nothing. */
  lemma EventMovesCursor(items: seq<Item>, event: Json)
    ensures forall fields, text :: event == JObject(fields) && "id" in fields && fields["id"] == JString(text) ==>
      Cursor(items + [Delivered(Anomaly(event))]) == Some(text)
    ensures !HasId(event) ==> Cursor(items + [Delivered(Anomaly(event))]) == Cursor(items)
  {
    assert (items + [Delivered(Anomaly(event))])[..|items|] == items;
  }

  /** Of the other items only a rejected resume changes the cursor: it clears it. */
  lemma OtherItemsKeepCursor(items: seq<Item>, item: Item)
    requires !(item.Delivered? && item.message.Anomaly?)
    ensures Cursor([]) == None
    ensures Cursor(items + [item]) ==
      if item.Delivered? && item.message.ResumeFailed? then None else Cursor(items)
  {
    assert (items + [item])[..|items|] == items;
  }

  predicate CarriesId(item: Item) { item.Delivered? && item.message.Anomaly? && HasId(item.message.event) }

  predicate ClearsCursor(item: Item) { item.Delivered? && item.message.ResumeFailed? }

  predicate LastCarrier(items: seq<Item>, k: nat)
    requires k < |items|
  {
    CarriesId(items[k]) && forall j :: k < j < |items| ==> !CarriesId(items[j]) && !ClearsCursor(items[j])
  }

  /** The cursor is the id of the last delivered anomaly that has a string id, provided no delivered
      `ResumeFailed` follows it, and absent otherwise. */
  lemma {:induction false} CursorMeaning(items: seq<Item>)
    ensures Cursor(items).Some? <==> exists k :: 0 <= k < |items| && LastCarrier(items, k)
    ensures forall k :: 0 <= k < |items| && LastCarrier(items, k) ==>
      Cursor(items) == Some(items[k].message.event.fields["id"].text)
  {
    if items == [] {
    } else {
      var front, last := items[..|items| - 1], |items| - 1;
      CursorMeaning(front);
      if CarriesId(items[last]) {
        assert LastCarrier(items, last);
      } else if !ClearsCursor(items[last]) {
        forall k | 0 <= k < last
          ensures LastCarrier(items, k) <==> LastCarrier(front, k)
        {
          if LastCarrier(front, k) {
            assert forall j :: k < j < last ==> items[j] == front[j];
          }
        }
        if Cursor(front).Some? {
          var k :| 0 <= k < |front| && LastCarrier(front, k);
          assert LastCarrier(items, k);
        }
      }
    }
  }

  // ---------------------------------------------------------------------------------------------
  // Frames and polls
  // ---------------------------------------------------------------------------------------------

  /** The messages of the protocol that nothing follows from: those that are for information, and malformed ones. */
  predicate IsSilent(text: Text) {
    || text in {Untyped, Subscribed, Closing, Event(None), Report(None), Lag(None), ReplayTruncated(None)}
    || text.OtherType?
  }

  /** What a frame causes: a well-formed frame of the four forwarded types its message, a ping of either kind its
      pong, and every other frame nothing. */
  lemma FrameEffects(frame: Frame)
    ensures forall event :: frame == TextFrame(Event(Some(event))) ==>
      Reaction(frame) == [Out(Delivered(Anomaly(event)))]
    ensures forall report, score, delta :: frame == TextFrame(Report(Some(ReportBody(report, score, delta)))) ==>
      Reaction(frame) == [Out(Delivered(RiskUpdate(report, score, delta)))]
    ensures forall dropped :: frame == TextFrame(Lag(Some(dropped))) ==>
      Reaction(frame) == [Out(Delivered(LagNotice(dropped)))]
    ensures forall id :: frame == TextFrame(ReplayTruncated(Some(id))) ==>
      Reaction(frame) == [Out(Delivered(ResumeFailed(id)))]
    ensures frame == TextFrame(HeartbeatPing) ==> Reaction(frame) == [Answer(PongText)]
    ensures forall payload :: frame == PingFrame(payload) ==> Reaction(frame) == [Answer(PongEcho(payload))]
    ensures frame.CloseFrame? || frame.PongFrame? || frame.BinaryFrame? || frame.RawFrame? ==> Reaction(frame) == []
    ensures frame.TextFrame? && IsSilent(frame.text) ==> Reaction(frame) == []
  {
  }

  /** A poll waits for the rest of the 90 s since the last ping, at most 5 s. A timeout lets the last ping grow older
      by that, a ping makes it as old as its handling, any other frame by its wait and its handling; a close, an
      announced closing, an error or the end of the stream ends the connection. */
  lemma PollEffects(idle: nat, poll: Poll)
    requires idle < 90_000
    ensures
      var wait := if 90_000 - idle < 5_000 then 90_000 - idle else 5_000;
      match poll
      case TimedOut(overrun) =>
        && !Ends(poll) && PollActs(idle, poll) == [Polled(idle, wait), Lapsed]
        && IdleAfter(idle, poll) == idle + wait + overrun
      case Arrived(after, Received(frame), busy) =>
        && (Ends(poll) <==> frame.CloseFrame? || frame == TextFrame(Closing))
        && PollActs(idle, poll) == [Polled(idle, wait)] + Reaction(frame)
        && IdleAfter(idle, poll) ==
           if frame.PingFrame? || frame == TextFrame(HeartbeatPing) then busy else idle + after + busy
      case Arrived(_, _, _) => Ends(poll) && PollActs(idle, poll) == [Polled(idle, wait)]
  {
    var wait := if 90_000 - idle < 5_000 then 90_000 - idle else 5_000;
    assert [Polled(idle, wait)] + [] == [Polled(idle, wait)];
  }

  /** A connection goes on polling until the last ping is 90 s old or a poll ends it; a used-up script is the end of
      the stream. */
  lemma ConnectionEffects(polls: seq<Poll>, idle: nat)
    ensures idle >= 90_000 ==> ConnectionActs(polls, idle) == []
    ensures idle < 90_000 && polls == [] ==> ConnectionActs(polls, idle) == PollActs(idle, Arrived(0, StreamEnded, 0))
    ensures idle < 90_000 && polls != [] ==>
      ConnectionActs(polls, idle) ==
      PollActs(idle, polls[0]) + if Ends(polls[0]) then [] else ConnectionActs(polls[1..], IdleAfter(idle, polls[0]))
  {
  }

  /** Before every attempt but the first the loop sleeps as long as the back-off of the attempt before says. */
  lemma PreludeEffects(i: nat)
    requires i <= U32_MAX
    ensures Prelude(i) == if i == 0 then [] else [Slept(ReconnectMillis(i - 1)), Out(Delivered(Reconnected))]
    ensures i > 0 ==> Prelude(i)[0].millis < 500 * FACTORS[if i < 7 then i - 1 else 6]
    ensures i > 0 ==> Prelude(i)[0].millis < 30_000
  {
    if i > 0 {
      ReconnectBounds(i - 1, i - 1);
      Factors(if i < 7 then i - 1 else 6);
    }
  }

  // ---------------------------------------------------------------------------------------------
  // Delivery
  // ---------------------------------------------------------------------------------------------

  /** The age of the last ping before poll `k`, if it is `idle` before the first. */
  function IdleAt(polls: seq<Poll>, idle: nat, k: nat): nat
    requires k <= |polls|
  {
    if k == 0 then idle else IdleAt(polls[1..], IdleAfter(idle, polls[0]), k - 1)
  }

  /** Is the connection still served after its first `k` polls? */
  ghost predicate Alive(polls: seq<Poll>, idle: nat, k: nat)
    requires k <= |polls|
  {
    forall j :: 0 <= j < k ==> IdleAt(polls, idle, j) < HEARTBEAT_TIMEOUT && !Ends(polls[j])
  }

  /** `n` polls are handled to the end, and then the script, the heartbeat or the stream is over. */
  ghost predicate BreaksAfter(polls: seq<Poll>, idle: nat, n: nat) {
    && n <= |polls|
    && Alive(polls, idle, n)
    && (n == |polls| || IdleAt(polls, idle, n) >= HEARTBEAT_TIMEOUT || Ends(polls[n]))
  }

  function LivePolls(polls: seq<Poll>, idle: nat): (n: nat)
    ensures n <= |polls|
  {
    if polls == [] || idle >= HEARTBEAT_TIMEOUT || Ends(polls[0]) then 0
    else 1 + LivePolls(polls[1..], IdleAfter(idle, polls[0]))
  }

  /** `LivePolls` is the one number of polls after which the connection breaks. */
  lemma {:induction false} LivePollsMeaning(polls: seq<Poll>, idle: nat, n: nat)
    ensures BreaksAfter(polls, idle, n) <==> n == LivePolls(polls, idle)
  {
    if polls != [] && idle < HEARTBEAT_TIMEOUT && !Ends(polls[0]) {
      var rest, age := polls[1..], IdleAfter(idle, polls[0]);
      assert IdleAt(polls, idle, 0) == idle;
      if n > 0 {
        LivePollsMeaning(rest, age, n - 1);
        if n <= |polls| {
          assert forall j :: 1 <= j <= n ==> IdleAt(polls, idle, j) == IdleAt(rest, age, j - 1);
          assert forall j :: 1 <= j < |polls| ==> polls[j] == rest[j - 1];
          if Alive(rest, age, n - 1) {
            forall j | 0 <= j < n
              ensures IdleAt(polls, idle, j) < HEARTBEAT_TIMEOUT && !Ends(polls[j])
            {
              if j > 0 {
                assert IdleAt(rest, age, j - 1) < HEARTBEAT_TIMEOUT && !Ends(rest[j - 1]);
              }
            }
          }
          if Alive(polls, idle, n) {
            forall j | 0 <= j < n - 1
              ensures IdleAt(rest, age, j) < HEARTBEAT_TIMEOUT && !Ends(rest[j])
            {
              assert IdleAt(polls, idle, j + 1) < HEARTBEAT_TIMEOUT && !Ends(polls[j + 1]);
            }
          }
        }
      }
    } else if 0 < n <= |polls| {
      assert !(IdleAt(polls, idle, 0) < HEARTBEAT_TIMEOUT && !Ends(polls[0]));
    }
  }

  /** What the frames read by some polls cause. */
  function Reactions(polls: seq<Poll>): seq<Act> {
    if polls == [] then []
    else
      (if polls[0].Arrived? && polls[0].arrival.Received? then Reaction(polls[0].arrival.frame) else [])
      + Reactions(polls[1..])
  }

  /** The acts without the bookkeeping of polls and timeouts. */
  function Visible(acts: seq<Act>): seq<Act> {
    if acts == [] then []
    else
      var last := acts[|acts| - 1];
      Visible(acts[..|acts| - 1]) + if last.Polled? || last.Lapsed? then [] else [last]
  }

  lemma {:induction false} VisibleOfConcat(a: seq<Act>, b: seq<Act>)
    ensures Visible(a + b) == Visible(a) + Visible(b)
  {
    if b == [] {
      assert a + b == a;
    } else {
      assert (a + b)[..|a + b| - 1] == a + b[..|b| - 1];
      VisibleOfConcat(a, b[..|b| - 1]);
    }
  }

  lemma PollVisible(idle: nat, poll: Poll)
    ensures !Ends(poll) ==> Visible(PollActs(idle, poll)) == Reactions([poll])
    ensures Ends(poll) ==> Visible(PollActs(idle, poll)) == []
  {
    var polled, acts := Polled(idle, Wait(idle)), PollActs(idle, poll);
    assert [poll][1..] == [] && [polled][..0] == [] && acts == [polled] + acts[1..];
    VisibleOfConcat([polled], acts[1..]);
    if |acts| == 2 {
      assert [acts[1]][..0] == [] && acts[1..] == [acts[1]];
    }
  }

  lemma QuietConnection(polls: seq<Poll>, idle: nat)
    requires idle >= HEARTBEAT_TIMEOUT || polls == [] || Ends(polls[0])
    ensures LivePolls(polls, idle) == 0 && Visible(ConnectionActs(polls, idle)) == []
  {
    if idle < HEARTBEAT_TIMEOUT {
      PollVisible(idle, if polls == [] then Arrived(0, StreamEnded, 0) else polls[0]);
    }
  }

  lemma NoReactions()
    ensures Reactions([]) == []
  {
  }

  lemma ReactionsStep(polls: seq<Poll>, n: nat)
    requires 0 < n <= |polls|
    ensures Reactions(polls[..n]) == Reactions([polls[0]]) + Reactions(polls[1..][..n - 1])
  {
    assert polls[..n][1..] == polls[1..][..n - 1];
    assert [polls[0]][1..] == [];
  }

  /** A connection reads its polls up to the one that breaks it, and nothing else than the reactions
      to those frames becomes visible, in the order of the frames. */
  lemma {:induction false} ConnectionIsItsFrames(polls: seq<Poll>, idle: nat)
    ensures Visible(ConnectionActs(polls, idle)) == Reactions(polls[..LivePolls(polls, idle)])
  {
    hide Visible, Ends, PollActs, IdleAfter, Reactions;
    if idle >= HEARTBEAT_TIMEOUT || polls == [] || Ends(polls[0]) {
      QuietConnection(polls, idle);
      NoReactions();
    } else {
      var n, age := LivePolls(polls, idle), IdleAfter(idle, polls[0]);
      PollVisible(idle, polls[0]);
      ConnectionIsItsFrames(polls[1..], age);
      VisibleOfConcat(PollActs(idle, polls[0]), ConnectionActs(polls[1..], age));
      ReactionsStep(polls, n);
    }
  }

  /** The stream messages that the frames of some polls decode to, each once and in order. */
  function Decodings(polls: seq<Poll>): seq<Item> {
    if polls == [] then []
    else
      (if polls[0].Arrived? && polls[0].arrival.Received? && Decoded(polls[0].arrival.frame).Some?
       then [Delivered(Decoded(polls[0].arrival.frame).value)] else [])
      + Decodings(polls[1..])
  }

  lemma OutputOfSingle(act: Act)
    ensures Output([]) == []
    ensures Output([act]) == if act.Out? then [act.item] else []
  {
    assert [act][..0] == [];
  }

  lemma OutputOfReaction(frame: Frame)
    ensures Output(Reaction(frame)) == if Decoded(frame).Some? then [Delivered(Decoded(frame).value)] else []
  {
    OutputOfSingle(Connect);
    if Reaction(frame) != [] {
      OutputOfSingle(Reaction(frame)[0]);
      assert Reaction(frame) == [Reaction(frame)[0]];
    }
  }

  lemma {:induction false} OutputOfReactions(polls: seq<Poll>)
    ensures Output(Reactions(polls)) == Decodings(polls)
  {
    hide Output, Reaction, Decoded;
    OutputOfSingle(Connect);
    if polls == [] {
    } else {
      var frameRead := polls[0].Arrived? && polls[0].arrival.Received?;
      if frameRead {
        OutputOfReaction(polls[0].arrival.frame);
      }
      OutputOfConcat(if frameRead then Reaction(polls[0].arrival.frame) else [], Reactions(polls[1..]));
      OutputOfReactions(polls[1..]);
    }
  }

  lemma {:induction false} OutputOfVisible(acts: seq<Act>)
    ensures Output(Visible(acts)) == Output(acts)
  {
    if acts == [] {
    } else {
      var front, last := acts[..|acts| - 1], acts[|acts| - 1];
      OutputOfVisible(front);
      OutputOfConcat(Visible(front), [last]);
      OutputOfSingle(last);
      assert Visible(acts) == Visible(front) + if last.Polled? || last.Lapsed? then [] else [last];
      assert Visible(front) + [] == Visible(front);
    }
  }

  function AttemptOutput(attempt: Attempt): seq<Item> {
    match attempt
    case UrlRejected => [Failed(UrlError)]
    case SerializeFailed => [Failed(SerdeError)]
    case Live(polls) => Decodings(polls[..LivePolls(polls, 0)])
    case _ => []
  }

  /** The channel output from attempt `i` on, written without the state machine: a notice before every attempt
      but the first, what the attempt's frames decode to, and one error at the very end. */
  function ExpectedOutput(world: World, i: nat, max: nat): seq<Item>
    requires i <= max + 1
    decreases max + 1 - i
  {
    if i > max then [Failed(WebSocketClosed(max))]
    else
      (if i == 0 then [] else [Delivered(Reconnected)]) + AttemptOutput(world(i)) +
      if IsFatal(world(i)) then [] else ExpectedOutput(world, i + 1, max)
  }

  lemma AttemptOutputIs(i: nat, attempt: Attempt, cursor: Option<string>)
    requires i <= U32_MAX
    ensures Output(Prelude(i)) == if i == 0 then [] else [Delivered(Reconnected)]
    ensures Output(AttemptActs(attempt, cursor)) == AttemptOutput(attempt)
  {
    hide Visible, LivePolls, Decodings, ReconnectMillis, ConnectionActs;
    if i > 0 {
      assert Prelude(i)[..1] == [Prelude(i)[0]];
      OutputOfSingle(Prelude(i)[0]);
    }
    var acts := AttemptActs(attempt, cursor);
    OutputOfSingle(acts[0]);
    if |acts| > 1 {
      OutputOfSingle(acts[1]);
      OutputOfConcat([acts[0]], [acts[1]]);
    }
    match attempt
    case Live(polls) =>
      ConnectionIsItsFrames(polls, 0);
      OutputOfVisible(ConnectionActs(polls, 0));
      OutputOfReactions(polls[..LivePolls(polls, 0)]);
      OutputOfConcat([acts[0]] + [acts[1]], ConnectionActs(polls, 0));
      assert acts == [acts[0]] + [acts[1]] + ConnectionActs(polls, 0);
    case SerializeFailed =>
      assert acts == [acts[0]] + [acts[1]];
    case SubscribeFailed =>
      assert acts == [acts[0]] + [acts[1]];
    case _ =>
  }

  /** The whole channel output of a session, for a consumer that stays. */
  lemma {:induction false} SessionOutput(world: World, i: nat, max: nat, past: seq<Act>)
    requires max < U32_MAX && i <= max + 1
    ensures Output(Session(world, i, max, past)) == ExpectedOutput(world, i, max)
    decreases max + 1 - i
  {
    hide Output, AttemptActs, Prelude, AttemptOutput, Session;
    if i > max {
      SessionEnd(world, max, past);
      OutputOfSingle(Out(Failed(WebSocketClosed(max))));
    } else {
      SessionStep(world, i, max, past);
      var cursor := Cursor(Output(past + Prelude(i)));
      var now := Prelude(i) + AttemptActs(world(i), cursor);
      AttemptOutputIs(i, world(i), cursor);
      OutputOfConcat(Prelude(i), AttemptActs(world(i), cursor));
      if IsFatal(world(i)) {
        assert now + [] == now;
      } else {
        SessionOutput(world, i + 1, max, past + now);
        OutputOfConcat(now, Session(world, i + 1, max, past + now));
      }
    }
  }

  /** A consumer that accepts `n` sends receives the first `n` items of that output. */
  lemma {:induction false} OutputOfObserved(acts: seq<Act>, n: nat)
    ensures Output(Observed(acts, Some(n))) == Output(acts)[..Min(n, |Output(acts)|)]
  {
    if |Output(acts)| <= n {
      assert Output(acts)[..|Output(acts)|] == Output(acts);
    } else {
      OutputOfObserved(acts[..|acts| - 1], n);
    }
  }
}

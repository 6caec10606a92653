/** The reconnect budget and the heartbeat of the session in `WsSession`. */
module WsBudget {
  import opened Naturals
  import opened Wrappers
  import opened Retry
  import opened WsSession

  // ---------------------------------------------------------------------------------------------
  // Reconnect budget
  // ---------------------------------------------------------------------------------------------

  datatype Kind = AConnect | ANotice | AFailure

  predicate Is(kind: Kind, act: Act) {
    match kind
    case AConnect => act.Connect?
    case ANotice => act == Out(Delivered(Reconnected))
    case AFailure => act.Out? && act.item.Failed?
  }

  function Count(kind: Kind, acts: seq<Act>): nat {
    if acts == [] then 0
    else Count(kind, acts[..|acts| - 1]) + if Is(kind, acts[|acts| - 1]) then 1 else 0
  }

  lemma {:induction false} CountOfConcat(kind: Kind, a: seq<Act>, b: seq<Act>)
    ensures Count(kind, a + b) == Count(kind, a) + Count(kind, b)
  {
    if b == [] {
      assert a + b == a;
    } else {
      assert (a + b)[..|a + b| - 1] == a + b[..|b| - 1];
      CountOfConcat(kind, a, b[..|b| - 1]);
    }
  }

  lemma {:induction false} CountOfNone(kind: Kind, acts: seq<Act>)
    requires forall k :: 0 <= k < |acts| ==> !Is(kind, acts[k])
    ensures Count(kind, acts) == 0
  {
    if acts == [] {
    } else {
      CountOfNone(kind, acts[..|acts| - 1]);
    }
  }

  lemma CountOfSingle(kind: Kind, act: Act)
    ensures Count(kind, [act]) == if Is(kind, act) then 1 else 0
  {
    assert [act][..0] == [];
  }

  /** A live connection neither connects nor announces nor fails: it only forwards and answers. */
  lemma ConnectionIsQuiet(kind: Kind, polls: seq<Poll>, idle: nat)
    ensures forall k :: 0 <= k < |ConnectionActs(polls, idle)| ==> !Is(kind, ConnectionActs(polls, idle)[k])
  {
  }

  lemma PreludeCounts(kind: Kind, i: nat)
    requires i <= U32_MAX
    ensures Count(kind, Prelude(i)) == if kind == ANotice && i > 0 then 1 else 0
  {
    hide Count, ReconnectMillis;
    if i > 0 {
      assert Prelude(i) == [Prelude(i)[0]] + [Prelude(i)[1]];
      CountOfConcat(kind, [Prelude(i)[0]], [Prelude(i)[1]]);
      CountOfSingle(kind, Prelude(i)[0]);
      CountOfSingle(kind, Prelude(i)[1]);
    } else {
      CountOfNone(kind, []);
    }
  }

  lemma AttemptCounts(kind: Kind, attempt: Attempt, cursor: Option<string>)
    ensures
      Count(kind, AttemptActs(attempt, cursor)) ==
      if (kind == AConnect && !attempt.UrlRejected?) || (kind == AFailure && IsFatal(attempt)) then 1 else 0
  {
    hide Count, ConnectionActs;
    var acts := AttemptActs(attempt, cursor);
    var tail := if attempt.Live? then ConnectionActs(attempt.polls, 0) else [];
    if attempt.Live? {
      ConnectionIsQuiet(kind, attempt.polls, 0);
    }
    CountOfNone(kind, tail);
    CountOfSingle(kind, acts[0]);
    if |acts| == 1 {
      assert acts == [acts[0]] + tail;
      CountOfConcat(kind, [acts[0]], tail);
    } else {
      assert acts == [acts[0]] + ([acts[1]] + tail);
      CountOfSingle(kind, acts[1]);
      CountOfConcat(kind, [acts[1]], tail);
      CountOfConcat(kind, [acts[0]], [acts[1]] + tail);
    }
  }

  /** At every connect, exactly one notice has been sent per earlier connect. */
  ghost predicate NoticesMatch(acts: seq<Act>, past: seq<Act>) {
    forall k :: 0 <= k < |acts| && acts[k].Connect? ==>
      Count(ANotice, past + acts[..k]) == Count(AConnect, past + acts[..k])
  }

  /** The state of the counters at the head of the outer loop, before attempt `i`. */
  ghost predicate AtHead(i: nat, past: seq<Act>) {
    && Count(AConnect, past) == i
    && Count(ANotice, past) == (if i == 0 then 0 else i - 1)
    && Count(AFailure, past) == 0
  }

  /** The number of connect attempts started, counting one that is rejected before connecting. */
  function Attempts(world: World, i: nat, max: nat): (n: nat)
    requires i <= max + 1
    ensures i <= n <= max + 1
    ensures forall j :: i <= j < n - 1 ==> !IsFatal(world(j))
    ensures n <= max ==> n > i && IsFatal(world(n - 1))
    decreases max + 1 - i
  {
    if i > max then i
    else if IsFatal(world(i)) then i + 1
    else Attempts(world, i + 1, max)
  }

  lemma AttemptMatches(i: nat, attempt: Attempt, cursor: Option<string>, past: seq<Act>)
    requires i <= U32_MAX && AtHead(i, past)
    ensures NoticesMatch(Prelude(i) + AttemptActs(attempt, cursor), past)
  {
    hide Count, ReconnectMillis, ConnectionActs;
    var now := Prelude(i) + AttemptActs(attempt, cursor);
    if attempt.Live? {
      ConnectionIsQuiet(AConnect, attempt.polls, 0);
    }
    forall k | 0 <= k < |now| && now[k].Connect?
      ensures Count(ANotice, past + now[..k]) == Count(AConnect, past + now[..k])
    {
      assert now[..k] == Prelude(i);
      PreludeCounts(ANotice, i);
      PreludeCounts(AConnect, i);
      CountOfConcat(ANotice, past, Prelude(i));
      CountOfConcat(AConnect, past, Prelude(i));
    }
  }

  lemma MatchesOfConcat(a: seq<Act>, b: seq<Act>, past: seq<Act>)
    requires NoticesMatch(a, past) && NoticesMatch(b, past + a)
    ensures NoticesMatch(a + b, past)
  {
    hide Count;
    forall k | 0 <= k < |a + b| && (a + b)[k].Connect?
      ensures Count(ANotice, past + (a + b)[..k]) == Count(AConnect, past + (a + b)[..k])
    {
      if k < |a| {
        assert (a + b)[..k] == a[..k];
      } else {
        assert past + (a + b)[..k] == past + a + b[..k - |a|];
      }
    }
  }

  lemma StepCounts(kind: Kind, i: nat, attempt: Attempt, cursor: Option<string>, past: seq<Act>)
    requires i <= U32_MAX
    ensures
      Count(kind, past + (Prelude(i) + AttemptActs(attempt, cursor))) ==
      Count(kind, past) +
      match kind
      case AConnect => if attempt.UrlRejected? then 0 else 1
      case ANotice => Min(i, 1)
      case AFailure => if IsFatal(attempt) then 1 else 0
  {
    hide Count, Prelude, AttemptActs;
    CountOfConcat(kind, past, Prelude(i) + AttemptActs(attempt, cursor));
    CountOfConcat(kind, Prelude(i), AttemptActs(attempt, cursor));
    PreludeCounts(kind, i);
    AttemptCounts(kind, attempt, cursor);
  }

  lemma {:induction false} SessionNotices(world: World, i: nat, max: nat, past: seq<Act>)
    requires max < U32_MAX && i <= max + 1 && AtHead(i, past)
    ensures NoticesMatch(Session(world, i, max, past), past)
    decreases max + 1 - i
  {
    hide Count, Session, Prelude, AttemptActs;
    if i > max {
      SessionEnd(world, max, past);
    } else {
      SessionStep(world, i, max, past);
      var cursor := Cursor(Output(past + Prelude(i)));
      var now := Prelude(i) + AttemptActs(world(i), cursor);
      AttemptMatches(i, world(i), cursor, past);
      if IsFatal(world(i)) {
        assert now + [] == now;
      } else {
        HeadMoves(i, world(i), cursor, past);
        SessionNotices(world, i + 1, max, past + now);
        MatchesOfConcat(now, Session(world, i + 1, max, past + now), past);
      }
    }
  }

  /** The counters at the next head of the outer loop. */
  lemma HeadMoves(i: nat, attempt: Attempt, cursor: Option<string>, past: seq<Act>)
    requires i < U32_MAX && AtHead(i, past) && !IsFatal(attempt)
    ensures AtHead(i + 1, past + (Prelude(i) + AttemptActs(attempt, cursor)))
  {
    hide Count, Prelude, AttemptActs;
    StepCounts(AConnect, i, attempt, cursor, past);
    StepCounts(ANotice, i, attempt, cursor, past);
    StepCounts(AFailure, i, attempt, cursor, past);
  }

  /** How often an act of a kind occurs in a session from attempt `i` on, of which `n` are started. */
  function Budget(kind: Kind, world: World, i: nat, n: nat): int
    requires i <= n
  {
    match kind
    case AConnect => n - i - (if n > i && world(n - 1).UrlRejected? then 1 else 0)
    case ANotice => Max(n, 1) - Max(i, 1)
    case AFailure => 1
  }

  lemma {:induction false} SessionCounts(kind: Kind, world: World, i: nat, max: nat, past: seq<Act>)
    requires max < U32_MAX && i <= max + 1
    ensures Count(kind, past + Session(world, i, max, past)) ==
      Count(kind, past) + Budget(kind, world, i, Attempts(world, i, max))
    decreases max + 1 - i
  {
    hide Count, Session, Prelude, AttemptActs, Cursor, Output;
    if i > max {
      SessionEnd(world, max, past);
      CountOfConcat(kind, past, Session(world, i, max, past));
      CountOfSingle(kind, Out(Failed(WebSocketClosed(max))));
    } else {
      SessionStep(world, i, max, past);
      var cursor := Cursor(Output(past + Prelude(i)));
      var now := Prelude(i) + AttemptActs(world(i), cursor);
      StepCounts(kind, i, world(i), cursor, past);
      if IsFatal(world(i)) {
        assert now + [] == now;
      } else {
        var rest := Session(world, i + 1, max, past + now);
        SessionCounts(kind, world, i + 1, max, past + now);
        assert past + (now + rest) == past + now + rest;
      }
    }
  }

  /** The error that ends a session of which `n` attempts are started. */
  function EndError(world: World, i: nat, n: nat, max: nat): ClientError
    requires i <= n
  {
    if n == i || !IsFatal(world(n - 1)) then WebSocketClosed(max)
    else if world(n - 1).UrlRejected? then UrlError
    else SerdeError
  }

  lemma {:induction false} SessionEnding(world: World, i: nat, max: nat, past: seq<Act>)
    requires max < U32_MAX && i <= max + 1
    ensures
      var acts := Session(world, i, max, past);
      acts != [] && acts[|acts| - 1] == Out(Failed(EndError(world, i, Attempts(world, i, max), max)))
    decreases max + 1 - i
  {
    hide Session, Prelude, AttemptActs;
    if i > max {
      SessionEnd(world, max, past);
    } else {
      SessionStep(world, i, max, past);
      var cursor := Cursor(Output(past + Prelude(i)));
      var now := Prelude(i) + AttemptActs(world(i), cursor);
      if IsFatal(world(i)) {
        FatalEndsTheSession(world(i), cursor);
      } else {
        SessionEnding(world, i + 1, max, past + now);
      }
    }
  }

  lemma FatalEndsTheSession(attempt: Attempt, cursor: Option<string>)
    requires IsFatal(attempt)
    ensures
      var acts := AttemptActs(attempt, cursor);
      acts != [] && acts[|acts| - 1] == Out(Failed(if attempt.UrlRejected? then UrlError else SerdeError))
  {
  }

  /** A whole session with `n` attempts started: `n - 1` notices, at most `max + 1` connects (all of them if
      nothing fatal happens), as many notices as earlier connects at every connect, and exactly one error.
      The error is the very last act, and it is `WebSocketClosed` exactly if no attempt was fatal. */
  lemma SessionBudget(world: World, max: nat)
    requires max < U32_MAX
    ensures
      var acts, n := Session(world, 0, max, []), Attempts(world, 0, max);
      && NoticesMatch(acts, [])
      && 1 <= n <= max + 1
      && Count(AConnect, acts) == n - (if world(n - 1).UrlRejected? then 1 else 0)
      && Count(ANotice, acts) == n - 1
      && Count(AFailure, acts) == 1
      && acts != [] && acts[|acts| - 1] == Out(Failed(EndError(world, 0, n, max)))
      && (IsFatal(world(n - 1)) <==> exists j :: 0 <= j <= max && IsFatal(world(j)))
  {
    hide Count, Session;
    var acts, n := Session(world, 0, max, []), Attempts(world, 0, max);
    NothingYet();
    SessionNotices(world, 0, max, []);
    SessionCounts(AConnect, world, 0, max, []);
    SessionCounts(ANotice, world, 0, max, []);
    SessionCounts(AFailure, world, 0, max, []);
    SessionEnding(world, 0, max, []);
    assert [] + acts == acts;
    assert n == max + 1 ==> forall j :: 0 <= j < max ==> !IsFatal(world(j));
  }

  /** The same bounds whenever the consumer drops. */
  lemma EveryRunBudget(world: World, max: nat, room: Option<nat>)
    requires max < U32_MAX
    ensures
      var acts, n := Tried(Session(world, 0, max, []), room), Attempts(world, 0, max);
      && NoticesMatch(acts, [])
      && Count(AConnect, acts) <= n <= max + 1 && Count(ANotice, acts) < n && Count(AFailure, acts) <= 1
  {
    hide Session, Tried, Count;
    SessionBudget(world, max);
    var acts, all := Tried(Session(world, 0, max, []), room), Session(world, 0, max, []);
    assert all == acts + all[|acts|..];
    CountOfConcat(AConnect, acts, all[|acts|..]);
    CountOfConcat(ANotice, acts, all[|acts|..]);
    CountOfConcat(AFailure, acts, all[|acts|..]);
    forall k | 0 <= k < |acts| && acts[k].Connect?
      ensures Count(ANotice, [] + acts[..k]) == Count(AConnect, [] + acts[..k])
    {
      assert acts[..k] == all[..k];
    }
  }

  lemma NothingYet()
    ensures AtHead(0, []) && forall kind :: Count(kind, []) == 0
  {
  }

  /** How many of the attempts 1 to `n` fail to come alive. */
  function FailedReconnects(world: World, n: nat): (failed: nat)
    ensures failed <= n
  {
    if n == 0 then 0 else FailedReconnects(world, n - 1) + if world(n).Live? then 0 else 1
  }

  lemma {:induction false} AllFailedIff(world: World, n: nat)
    ensures FailedReconnects(world, n) == n <==> forall j :: 1 <= j <= n ==> !world(j).Live?
  {
    if n == 0 {
    } else {
      AllFailedIff(world, n - 1);
    }
  }

  /** A session without fatal attempts closes after `max` failed reconnects, as documented, exactly if no reconnect
      ever came alive: the count is never reset, so the live ones use up the budget too. */
  lemma ClosesAfterFailuresIff(world: World, max: nat)
    requires max < U32_MAX && forall j: nat :: !IsFatal(world(j))
    ensures
      var acts := Session(world, 0, max, []);
      && acts != [] && acts[|acts| - 1] == Out(Failed(WebSocketClosed(max)))
      && Count(AConnect, acts) == max + 1
      && (FailedReconnects(world, max) == max <==> forall j :: 1 <= j <= max ==> !world(j).Live?)
  {
    hide Session, Count;
    SessionBudget(world, max);
    AllFailedIff(world, max);
  }

  /** For instance, a server that accepts every connect and drops it at once: no reconnect fails, and yet the
      session closes. */
  lemma ClosesWithoutFailure(max: nat)
    requires max < U32_MAX
    ensures
      var world: World := _ => Live([]);
      var acts := Session(world, 0, max, []);
      && acts != [] && acts[|acts| - 1] == Out(Failed(WebSocketClosed(max)))
      && FailedReconnects(world, max) == 0
  {
    hide Session, Count;
    SessionBudget(_ => Live([]), max);
    NoneFailed(max);
  }

  lemma {:induction false} NoneFailed(n: nat)
    ensures FailedReconnects(_ => Live([]), n) == 0
  {
    if n == 0 {
    } else {
      NoneFailed(n - 1);
    }
  }

  /** With the largest limit the loop goes on for ever while no attempt is fatal: any number of passes
      connects that often and sends no error. */
  lemma {:induction false} LargestLimitGoesOn(world: World, p: nat, n: nat, past: seq<Act>)
    requires forall j: nat :: !IsFatal(world(j))
    ensures Count(AFailure, Passes(world, p, n, U32_MAX, past)) == 0
    ensures Count(AConnect, Passes(world, p, n, U32_MAX, past)) == n
    decreases n
  {
    hide Count, Passes, Prelude, AttemptActs;
    NothingYet();
    if n == 0 {
      NoPasses(world, p, U32_MAX, past);
    } else {
      PassStep(world, p, n, U32_MAX, past);
      var count := CountAfter(p);
      var cursor := Cursor(Output(past + Prelude(count)));
      var now := Prelude(count) + AttemptActs(world(p), cursor);
      assert !IsFatal(world(p));
      StepCounts(AFailure, count, world(p), cursor, []);
      StepCounts(AConnect, count, world(p), cursor, []);
      assert [] + now == now;
      LargestLimitGoesOn(world, p + 1, n - 1, past + now);
      CountOfConcat(AFailure, now, Passes(world, p + 1, n - 1, U32_MAX, past + now));
      CountOfConcat(AConnect, now, Passes(world, p + 1, n - 1, U32_MAX, past + now));
    }
  }

  /** A session without fatal attempts ever sends its final error exactly for limits below the largest
      `u32`, and then by pass `max + 2`. */
  lemma BudgetEndsIff(world: World, max: nat)
    requires max <= U32_MAX && forall j: nat :: !IsFatal(world(j))
    ensures (exists n: nat :: Count(AFailure, Passes(world, 0, n, max, [])) > 0) <==> max < U32_MAX
    ensures max < U32_MAX ==> Count(AFailure, Passes(world, 0, max + 2, max, [])) == 1
  {
    hide Count, Passes, Session;
    if max < U32_MAX {
      PassesAreSession(world, 0, max + 2, max, []);
      SessionBudget(world, max);
      assert Count(AFailure, Passes(world, 0, max + 2, max, [])) > 0;
    } else {
      forall n: nat
        ensures Count(AFailure, Passes(world, 0, n, max, [])) == 0
      {
        LargestLimitGoesOn(world, 0, n, []);
      }
    }
  }

  /** Does the attempt get as far as a connection to subscribe on? */
  predicate Subscribes(attempt: Attempt) { attempt.SubscribeFailed? || attempt.Live? }

  /** Every notice is followed by a subscription on the connection it announces. */
  ghost predicate NoticesHold(acts: seq<Act>) {
    forall k :: 0 <= k < |acts| && Is(ANotice, acts[k]) ==> NoticeHolds(acts, k)
  }

  /** A connect and a subscribe message follow. */
  ghost predicate NoticeHolds(acts: seq<Act>, k: nat) {
    k + 2 < |acts| && acts[k + 1].Connect? && acts[k + 2].Subscribe?
  }

  /** The only notice of an attempt and of what follows it is the one before the attempt, and it holds exactly if
      the attempt subscribes. */
  lemma OwnNotice(i: nat, attempt: Attempt, cursor: Option<string>, rest: seq<Act>)
    requires i <= U32_MAX && (IsFatal(attempt) ==> rest == [])
    requires rest != [] ==> rest[0].Slept? || rest[0].Out?
    ensures
      var now := Prelude(i) + AttemptActs(attempt, cursor);
      && (forall k :: 0 <= k < |now| && Is(ANotice, now[k]) ==> k == 1 && i > 0)
      && (i > 0 ==> |now| > 1 && Is(ANotice, now[1]) && (NoticeHolds(now + rest, 1) <==> Subscribes(attempt)))
  {
    hide ReconnectMillis, ConnectionActs;
    if attempt.Live? {
      ConnectionIsQuiet(ANotice, attempt.polls, 0);
    }
    var now := Prelude(i) + AttemptActs(attempt, cursor);
    assert |now + rest| > 3 ==> (now + rest)[3] == if |now| > 3 then now[3] else rest[3 - |now|];
  }

  lemma NoticesOfConcat(now: seq<Act>, rest: seq<Act>, i: nat)
    requires forall k :: 0 <= k < |now| && Is(ANotice, now[k]) ==> k == 1 && i > 0
    requires i > 0 ==> |now| > 1 && Is(ANotice, now[1])
    ensures NoticesHold(now + rest) <==> (i > 0 ==> NoticeHolds(now + rest, 1)) && NoticesHold(rest)
  {
    var all := now + rest;
    forall k | 0 <= k < |rest|
      ensures all[|now| + k] == rest[k] && (NoticeHolds(all, |now| + k) <==> NoticeHolds(rest, k))
    {
    }
    if NoticesHold(all) {
      assert i > 0 ==> Is(ANotice, all[1]);
      forall k | 0 <= k < |rest| && Is(ANotice, rest[k])
        ensures NoticeHolds(rest, k)
      {
        assert Is(ANotice, all[|now| + k]);
      }
    }
    if (i > 0 ==> NoticeHolds(all, 1)) && NoticesHold(rest) {
      forall k | 0 <= k < |all| && Is(ANotice, all[k])
        ensures NoticeHolds(all, k)
      {
        if k >= |now| {
          assert all[|now| + (k - |now|)] == rest[k - |now|];
        } else {
          assert all[k] == now[k];
        }
      }
    }
  }

  /** A later pass begins with its back-off, or it is the end. */
  lemma LaterPassBegins(world: World, i: nat, max: nat, past: seq<Act>)
    requires max < U32_MAX && 0 < i <= max + 1
    ensures
      var acts := Session(world, i, max, past);
      acts != [] && (acts[0].Slept? || acts[0].Out?)
  {
    hide AttemptActs, ReconnectMillis;
  }

  /** From attempt `i` on. */
  lemma {:induction false} LaterNoticesHoldIff(world: World, i: nat, max: nat, past: seq<Act>)
    requires max < U32_MAX && i <= max + 1
    ensures NoticesHold(Session(world, i, max, past)) <==>
      forall j :: Max(i, 1) <= j < Attempts(world, i, max) ==> Subscribes(world(j))
    decreases max + 1 - i
  {
    hide Session, Prelude, AttemptActs, Cursor, Output, NoticesHold, NoticeHolds;
    if i > max {
      SessionEnd(world, max, past);
      NoNotice(max);
    } else {
      SessionStep(world, i, max, past);
      var cursor := Cursor(Output(past + Prelude(i)));
      var now := Prelude(i) + AttemptActs(world(i), cursor);
      var rest := if IsFatal(world(i)) then [] else Session(world, i + 1, max, past + now);
      if IsFatal(world(i)) {
        NoNotice(max);
      } else {
        LaterPassBegins(world, i + 1, max, past + now);
        LaterNoticesHoldIff(world, i + 1, max, past + now);
      }
      OwnNotice(i, world(i), cursor, rest);
      NoticesOfConcat(now, rest, i);
      MoreAttempts(world, i, max);
    }
  }

  lemma NoNotice(max: nat)
    ensures NoticesHold([]) && NoticesHold([Out(Failed(WebSocketClosed(max)))])
  {
  }

  lemma MoreAttempts(world: World, i: nat, max: nat)
    requires i <= max
    ensures
      (forall j :: Max(i, 1) <= j < Attempts(world, i, max) ==> Subscribes(world(j))) <==>
      && (i > 0 ==> Subscribes(world(i)))
      && (IsFatal(world(i)) || forall j :: i + 1 <= j < Attempts(world, i + 1, max) ==> Subscribes(world(j)))
  {
    hide Subscribes;
  }

  /** Every `Reconnected` of a session is true, in that the connection it announces comes about and the subscribe
      message is sent on it, exactly if every attempt but the first gets that far. */
  lemma NoticesHoldIff(world: World, max: nat)
    requires max < U32_MAX
    ensures NoticesHold(Session(world, 0, max, [])) <==>
      forall j :: 1 <= j < Attempts(world, 0, max) ==> Subscribes(world(j))
  {
    LaterNoticesHoldIff(world, 0, max, []);
  }

  /** `Reconnected` announces an attempt, not a connection: against a server that refuses every
      connect the consumer gets `max` notices although nothing is ever subscribed. */
  lemma {:induction false} NoticesWithoutConnection(i: nat, max: nat, past: seq<Act>)
    requires max < U32_MAX && i <= max + 1
    ensures
      var acts := Session(_ => ConnectFailed, i, max, past);
      && (forall k :: 0 <= k < |acts| ==> !acts[k].Subscribe?)
      && Count(ANotice, acts) == max + 1 - Max(i, 1)
    decreases max + 1 - i
  {
    hide Count, ReconnectMillis;
    if i > max {
      CountOfSingle(ANotice, Out(Failed(WebSocketClosed(max))));
    } else {
      var world: World := _ => ConnectFailed;
      var now := Prelude(i) + [Connect];
      SessionStep(world, i, max, past);
      NoticesWithoutConnection(i + 1, max, past + now);
      PreludeCounts(ANotice, i);
      CountOfSingle(ANotice, Connect);
      CountOfConcat(ANotice, Prelude(i), [Connect]);
      CountOfConcat(ANotice, now, Session(world, i + 1, max, past + now));
    }
  }

  // ---------------------------------------------------------------------------------------------
  // Heartbeat
  // ---------------------------------------------------------------------------------------------

  function Lapses(acts: seq<Act>): nat {
    if acts == [] then 0 else (if acts[0].Lapsed? then 1 else 0) + Lapses(acts[1..])
  }

  ghost predicate PingFree(acts: seq<Act>) { forall k :: 0 <= k < |acts| ==> !acts[k].Answer? }

  lemma {:induction false} LapsesOfConcat(a: seq<Act>, b: seq<Act>)
    ensures Lapses(a + b) == Lapses(a) + Lapses(b)
  {
    if a == [] {
      assert a + b == b;
    } else {
      assert (a + b)[1..] == a[1..] + b;
      LapsesOfConcat(a[1..], b);
    }
  }

  lemma LapsesOfPoll(idle: nat, poll: Poll, n: nat)
    requires n <= |PollActs(idle, poll)|
    ensures Lapses(PollActs(idle, poll)[..n]) == if poll.TimedOut? && n == 2 then 1 else 0
  {
    var acts := PollActs(idle, poll);
    if n > 0 {
      assert acts[..n][1..] == if n == 1 then [] else [acts[1]];
      assert n == 2 ==> Lapses([acts[1]]) == (if acts[1].Lapsed? then 1 else 0) + Lapses([acts[1]][1..]);
    }
  }

  /** Every poll of a connection starts within the heartbeat window and is due by its end. */
  lemma {:induction false} PollsAreDueInTime(polls: seq<Poll>, idle: nat)
    ensures forall k :: 0 <= k < |ConnectionActs(polls, idle)| && ConnectionActs(polls, idle)[k].Polled? ==>
      var act := ConnectionActs(polls, idle)[k];
      act.idle < HEARTBEAT_TIMEOUT && 0 < act.wait <= POLL_SLICE && act.idle + act.wait <= HEARTBEAT_TIMEOUT
  {
    if idle >= HEARTBEAT_TIMEOUT || polls == [] || Ends(polls[0]) {
    } else {
      PollsAreDueInTime(polls[1..], IdleAfter(idle, polls[0]));
    }
  }

  /** Timeouts since the last ping use up the heartbeat window, 5 s each but for the last. */
  lemma {:induction false} LapsesFromPing(polls: seq<Poll>, idle: nat, n: nat)
    requires n <= |ConnectionActs(polls, idle)| && PingFree(ConnectionActs(polls, idle)[..n])
    ensures
      var lapses := Lapses(ConnectionActs(polls, idle)[..n]);
      lapses > 0 ==> idle + POLL_SLICE * (lapses - 1) < HEARTBEAT_TIMEOUT
  {
    if idle >= HEARTBEAT_TIMEOUT {
    } else {
      var poll := if polls == [] then Arrived(0, StreamEnded, 0) else polls[0];
      var now, all := PollActs(idle, poll), ConnectionActs(polls, idle);
      if n <= |now| {
        assert all[..n] == now[..n];
        LapsesOfPoll(idle, poll, n);
      } else {
        var age := IdleAfter(idle, poll);
        var rest := ConnectionActs(polls[1..], age);
        var cut := rest[..n - |now|];
        assert all[..n] == now + cut;
        forall k | 0 <= k < |now|
          ensures !now[k].Answer?
        {
          assert now[k] == all[..n][k];
        }
        forall k | 0 <= k < |cut|
          ensures !cut[k].Answer?
        {
          assert cut[k] == all[..n][|now| + k];
        }
        LapsesOfConcat(now, cut);
        assert now[..|now|] == now;
        LapsesOfPoll(idle, poll, |now|);
        LapsesFromPing(polls[1..], age, n - |now|);
        PingAnswered(idle, poll);
      }
    }
  }

  lemma PingAnswered(idle: nat, poll: Poll)
    ensures PingFree(PollActs(idle, poll)) && !Ends(poll) ==>
      IdleAfter(idle, poll) >= idle + if poll.TimedOut? then Wait(idle) else 0
  {
    if poll.Arrived? && poll.arrival.Received? && IsPing(poll.arrival.frame) && !Ends(poll) {
      assert PollActs(idle, poll)[1].Answer?;
    }
  }

  /** Between two pings of a connection at most 18 polls time out, wherever the stretch begins. */
  lemma {:induction false} AtMost18Lapses(polls: seq<Poll>, idle: nat, a: nat, b: nat)
    requires a <= b <= |ConnectionActs(polls, idle)| && PingFree(ConnectionActs(polls, idle)[a..b])
    ensures Lapses(ConnectionActs(polls, idle)[a..b]) <= 18
  {
    var all := ConnectionActs(polls, idle);
    if a < b {
      var poll := if polls == [] then Arrived(0, StreamEnded, 0) else polls[0];
      var now := PollActs(idle, poll);
      if a == 0 {
        assert all[0..b] == all[..b];
        LapsesFromPing(polls, idle, b);
      } else if a < |now| {
        assert a == 1 && all[0].Polled? && all[..b] == [all[0]] + all[1..b];
        LapsesOfConcat([all[0]], all[1..b]);
        forall k | 0 <= k < b
          ensures !all[..b][k].Answer?
        {
          if k > 0 {
            assert all[..b][k] == all[1..b][k - 1];
          }
        }
        LapsesFromPing(polls, idle, b);
      } else {
        var rest := ConnectionActs(polls[1..], IdleAfter(idle, poll));
        assert all == now + rest;
        assert all[a..b] == rest[a - |now|..b - |now|];
        AtMost18Lapses(polls[1..], IdleAfter(idle, poll), a - |now|, b - |now|);
      }
    } else {
      assert all[a..b] == [];
    }
  }
}

# Verified model of the on-chain analysis client, detectors and graph code

This project models the parts of the repository whose guarantees span several functions, and proves those
guarantees for all inputs and all runs. `dafny verify dfyconfig.toml` verifies the whole project.

- **WebSocket session** (`WsSession`, `WsProperties`, `WsBudget`). The background loop that connects, subscribes,
  forwards frames and reconnects is the class `WsSession.Connection`. Connect results, frames, timeouts, delays and
  the consumer's drop are an arbitrary script. `Connection.Run` is tied to the function `Session`, which lists
  everything the loop does in order; the resume cursor, the channel output, the reconnect budget and the heartbeat
  are theorems about that list and its observed prefixes. Ping and close frames are those of sections 5.5.1 to
  5.5.3 of RFC 6455.
- **HTTP retries** (`HttpClient`, `Retry`, `XorShift`, `Naturals`). The retry loop over an arbitrary outcome script refines
  "take the first final outcome"; back-off caps carry the saturating and truncating `u64` arithmetic; the xor-shift
  generators are bit vectors. `Retry-After` is section 10.2.3 of RFC 9110 (delay-seconds), 429 is section 4 of
  RFC 6585.
- **Cycle detection** (`Reachability`, `Components`, `CycleSearch`, `CycleEngine`, `CycleBlocking`, `CycleBounds`,
  `CycleFailures`, `CycleRepeats`, `CycleCap`, `CycleDetection`, `CycleRecords`). Tarjan's iterative search for components, sorted, then
  Johnson's algorithm on each: blocking lists, a bound on the length of a path and a cap on the number of cycles.
  `CycleEngine.Search` works on mutable buffers and equals the functions of `CycleSearch`. With bounds that do not
  bind the whole detection is proved exact; for smaller length bounds the project proves exactly which are safe, and
  for every cap that it cuts one and the same list.
- **Detectors** (`PumpDump` D04, `RugPull` D02, `Honeypot` D01, `WashTrading` D05, with `Signals`, `Sums` and
  `Quotients`). Decision pipelines, in-place amplifiers and folds over holders, lockers, drains, simulation paths and
  cycles. Amounts and confidences are exact reals; `sigmoid` is any strictly increasing function into (0, 1).
- **Codecs and amounts** (`EvmCodec`, `AbiCodec`, `Octets`, `Amount`, `Powers`). Base16 addresses and hashes
  (section 8 of RFC 4648), ABI calldata and responses (Solidity Contract ABI Specification, section "Formal
  Specification of the Encoding"), and raw/decimal conversion with its panics.

Imperative code is modelled by methods and classes, pure code by functions. A method's `ensures` equates its result or
new state with a specification function; the lemmas about that function carry the guarantees.

## Where the code departs from its documentation

- Length-bounded cycle search: the comment promises all elementary cycles of the component. For a bound below the size
  of the component the search can miss a cycle that is short enough (any bound from 3) and can report a walk that
  visits a vertex twice (any bound from 5, the default): `CycleRepeats.CompleteIff`, `CycleRepeats.ElementaryIff`.
- `Reconnected` is sent before the connect attempt, not after a reconnect. It is true of all reconnects exactly under
  the condition of `WsBudget.NoticesHoldIff`; `WsBudget.NoticesWithoutConnection` is an instance where it is not.
- `reconnect_count` is never reset, so the budget covers the whole lifetime and the stream can close without any failed
  reconnect: `WsBudget.ClosesAfterFailuresIff`, `WsBudget.ClosesWithoutFailure`.
- The exhaustion check cannot fire for the largest `u32` limit, with which the loop goes on for ever:
  `WsBudget.LargestLimitGoesOn`, `WsBudget.BudgetEndsIff`.
- `retry_jitter` draws the same word for attempts 0 and 0xDEADBEEF: `Retry.WsDrawsCollideIff`.
- `as_millis() as u64` truncates very long delays: `Retry.CapIsExactIff`, `Retry.CapTruncationCounterexample`.
- D04: adding an insider that sold nothing can raise the aggregate sold fraction when all recorded balances of the
  sellers are zero: `PumpDump.AddingNonSellerIff`.
- D04: a negative insider amplifier, which no check excludes, can leave an event with a severity far below the band of
  its confidence: `PumpDump.NegativeAmplifierCounterexample`, and exactly when: `PumpDump.AmplifiedIsBanded`.
- D02: a negative bonus setting, which no check excludes either, makes extending a lock raise the confidence:
  `RugPull.ExtensionNeverRaisesRiskIff`. Moving an expired lock into the near future raises the bonus of its pool:
  `RugPull.RelockRaisesBonusIff`.
- D02: a NaN on one side of the window merge always wins, and a NaN drain is Critical with confidence 0; the graduation
  pass amplifies suppression records although the comment restricts it to Signal A: `RugPull.MergeIsMaximumIff`,
  `RugPull.DrainIsBandedIff`, `RugPull.SuppressionIsAmplified`.
- D01: a provider that is not wired for a later path makes the simulation a skip and drops the honeypot evidence of the
  earlier paths, so the order of the paths matters: `Honeypot.UnwiredPathDropsEvidence`, `Honeypot.OutcomeMeaning`,
  `Honeypot.SimulationIgnoresPathOrderIff`.
- D01: `paths_tested` counts a failed sell twice; the response reader takes the low 128 bits of an amount, so an output
  of 2^128 looks drained: `Honeypot.PathsTestedIff`, `AbiCodec.TruncatedOutputCounterexample`,
  `AbiCodec.TruncationIsHarmlessIff`, `AbiCodec.AnyTruncationIsHarmlessIff`.
- D05: the documented cap of 0.85 is out of reach, the confidence ends at 0.80: `WashTrading.FurtherCyclesNeverLower`.
- `decimal_to_raw` documents an error for amounts above the u128 range; it never returns it, and panics from 2^96 on:
  `Amount.OutcomeIsDecided`, `Amount.PanicsInsideU128`.

## Model

| member | source | states |
|---|---|---|
| WsSession.Connection.Run | crates/client-sdk/src/ws.rs:177-429 | below the largest limit, whatever connects, frames and delays come and whenever the consumer drops, the loop ends, and it did exactly what `Session` lists up to and including the first send that fails, and nothing after |
| WsSession.Connection.RunFor | crates/client-sdk/src/ws.rs:177-429 | for every u32 limit, the largest included, and any number of passes: exactly what `Passes` lists up to and including the first send that fails; while it has not returned, all of it, and the wrapping count is that of the passes |
| WsSession.PassesAreSession | crates/client-sdk/src/ws.rs:182-198 | below the largest limit `max + 2` passes are the whole session |
| WsSession.Connection.Pass | crates/client-sdk/src/ws.rs:182-428 | one pass: the notice and the attempt with the cursor of the output so far; it goes on only after an attempt that is not fatal |
| WsSession.Connection.Try | crates/client-sdk/src/ws.rs:214-256 | one pass of the outer loop: the acts of the attempt with the cursor of the output so far, and when it goes on |
| WsSession.Connection.Reconnect | crates/client-sdk/src/ws.rs:186-211 | before every attempt but the first: the back-off sleep, then the notice, and the exit if the consumer is gone |
| WsSession.Connection.Serve | crates/client-sdk/src/ws.rs:256-423 | the inner loop over any poll script yields exactly the acts of the connection, and ends |
| WsSession.Connection.Turn | crates/client-sdk/src/ws.rs:257-292 | one bounded wait: a timeout only advances the clock, an error, end or breaking frame ends the connection, another frame is handled |
| WsSession.Connection.Handle | crates/client-sdk/src/ws.rs:286-421 | a frame causes its pong or its one forwarded message, moves the ping clock only for pings, and keeps the cursor equal to that of the output |
| WsProperties.FrameEffects | crates/client-sdk/src/ws.rs:293-421 | which frame causes which message or pong, frame type by frame type, and which cause nothing |
| WsProperties.PollEffects | crates/client-sdk/src/ws.rs:257-292 | how long a poll waits, what a timeout, a ping and any other frame do to the age of the last ping, and which arrivals end the connection, in numbers |
| WsProperties.ConnectionEffects | crates/client-sdk/src/ws.rs:256-423 | a connection polls on until the last ping is 90 s old or a poll ends it |
| WsProperties.PreludeEffects | crates/client-sdk/src/ws.rs:186-211 | before attempt i the loop sleeps the back-off of attempt i - 1, below 500 ms times its factor and below 30 s, and then sends the notice |
| WsSession.AttemptSplits | crates/client-sdk/src/ws.rs:214-256 | the acts of each kind of attempt, one by one |
| WsSession.TriedMeaning | crates/client-sdk/src/ws.rs:206-210 | a run ends with the session if the consumer accepts all of it, and otherwise does what is observed and one act more, the send that fails |
| WsSession.TriedStops | crates/client-sdk/src/ws.rs:206-210 | what the session would have gone on with after a send that fails makes no difference |
| WsProperties.ResumeIsFunctionOfOutput | crates/client-sdk/src/ws.rs:235 | on every run each subscribe message resumes from the cursor of the channel output before it, across connections and skipped frames |
| WsProperties.EveryRunResumes | crates/client-sdk/src/ws.rs:235 | the same on every run, whenever the consumer drops, for any number of passes under any limit |
| WsProperties.CursorMeaning | crates/client-sdk/src/ws.rs:302-389 | the cursor is the string in the field "id" of the last delivered event that has one, unless a `ResumeFailed` follows it, and absent otherwise |
| WsProperties.EventMovesCursor | crates/client-sdk/src/ws.rs:314-317 | a delivered event with a string in its field "id" makes it the cursor; an event without one, or that is no object, changes nothing |
| WsProperties.OtherItemsKeepCursor | crates/client-sdk/src/ws.rs:368-389 | of all other items only `ResumeFailed` changes the cursor, and clears it |
| WsProperties.SessionOutput | crates/client-sdk/src/ws.rs:182-428 | the whole channel output: one notice per later attempt, the decodings of the frames each connection lived for, one error at the very end |
| WsProperties.OutputOfObserved | crates/client-sdk/src/ws.rs:208-210 | a consumer that accepts n items gets the first n of that output |
| WsProperties.ConnectionIsItsFrames | crates/client-sdk/src/ws.rs:256-423 | apart from polls and timeouts a connection does nothing but react, in order and once each, to the frames before the breaking one |
| WsProperties.LivePollsMeaning | crates/client-sdk/src/ws.rs:256-292 | the number of frames a connection reads is the one at which script, heartbeat or stream first end |
| WsProperties.OutputOfReactions | crates/client-sdk/src/ws.rs:293-412 | the output caused by frames is their in-order decoding: only well-formed event, report, lag and truncation frames count |
| WsBudget.SessionBudget | crates/client-sdk/src/ws.rs:182-248 | with n attempts started there are n - 1 notices, at most max + 1 connects and as many notices as earlier connects at every connect; there is exactly one error, it is last, and it is `WebSocketClosed` exactly if no attempt was fatal and otherwise the error of the fatal one |
| WsBudget.EveryRunBudget | crates/client-sdk/src/ws.rs:182-248 | the bounds on connects, notices and errors hold on every run, whenever the consumer drops |
| WsBudget.ClosesAfterFailuresIff | crates/client-sdk/src/builder.rs:77-80 | a session without fatal attempts closes after `max` failed reconnects, as documented, exactly if no reconnect came alive |
| WsBudget.ClosesWithoutFailure | crates/client-sdk/src/ws.rs:182-198 | a concrete world in which no reconnect fails and yet the session closes |
| WsBudget.Attempts | crates/client-sdk/src/ws.rs:182-230 | attempts run to the first fatal one or to max + 1 |
| WsBudget.BudgetEndsIff | crates/client-sdk/src/ws.rs:182-198 | a session without fatal attempts ever sends its final error exactly for limits below the largest u32, and then by pass max + 2 |
| WsBudget.LargestLimitGoesOn | crates/client-sdk/src/ws.rs:182-198 | with the largest limit any number of passes connects that often and sends no error |
| WsBudget.NoticesHoldIff | crates/client-sdk/src/types.rs:343-344 | every `Reconnected` of a session is followed by a connect and a subscribe message exactly if every attempt but the first gets as far as a connection to subscribe on |
| WsBudget.OwnNotice | crates/client-sdk/src/ws.rs:200-248 | and the one notice before an attempt is, exactly if that attempt does |
| WsBudget.NoticesWithoutConnection | crates/client-sdk/src/ws.rs:200-211 | an instance: against a server that refuses every connect the consumer still gets max notices and nothing is subscribed |
| WsBudget.PollsAreDueInTime | crates/client-sdk/src/ws.rs:264-270 | every poll starts inside the heartbeat window and is due by last ping + 90 s and within 5 s |
| WsBudget.LapsesFromPing | crates/client-sdk/src/ws.rs:264-283 | timeouts since the last ping use up the window 5 s at a time |
| WsBudget.AtMost18Lapses | crates/client-sdk/src/ws.rs:264-283 | between two pings of any connection at most 18 polls time out |
| HttpClient.Client.ExecuteWithRetry | crates/client-sdk/src/http.rs:82-167 | sends exactly the requests up to the first final outcome or the limit, returns that outcome, else the last error, else `Timeout` for zero attempts, and sleeps exactly the specified delays |
| HttpClient.ResultByStatus | crates/client-sdk/src/http.rs:130-242 | the result of a response by its status alone: success, the six mapped statuses, 5xx, and the rest with or without a problem document, with the detail each error carries |
| HttpClient.ResultOfTransport | crates/client-sdk/src/http.rs:118-158 | which transport errors and which statuses are worth another request, and what the others return |
| HttpClient.DelayMeaning | crates/client-sdk/src/http.rs:95-103 | the delay before each request in nanoseconds: the seconds of `Retry-After`, or the back-off of that attempt with its seed |
| HttpClient.SendCountIsUnique | crates/client-sdk/src/http.rs:91-166 | "first final outcome or the limit" determines the number of requests |
| HttpClient.HintIsKept | crates/client-sdk/src/http.rs:95-166 | the error kept for a retried outcome carries a wait hint exactly when a 429 response gave one |
| HttpClient.TotalDelayBound | crates/client-sdk/src/http.rs:95-103 | n sleeps last at most n * max_delay plus what `Retry-After` imposes, which is nothing without such headers |
| Retry.CapMonotone | crates/client-sdk/src/retry.rs:54-65 | the cap never falls with the attempt and never exceeds max_delay |
| Retry.CapInNumbers | crates/client-sdk/src/retry.rs:54-65 | the cap is the base delay times 1, 2, 4, up to 1024, or the longest delay, or 2^64 - 1, whichever is least |
| Retry.RetriableStatuses | crates/client-sdk/src/retry.rs:69-71 | exactly five statuses are retriable |
| Retry.BackoffMeaning | crates/client-sdk/src/retry.rs:54-84 | the delay is the remainder of the drawn word modulo the cap, and the seed zero draws like its substitute |
| Retry.JitterMeaning | crates/client-sdk/src/lib.rs:454-467 | the same for the jitter of the WebSocket client, with its own substitute and no delay for no cap |
| Retry.CapIsExactIff | crates/client-sdk/src/retry.rs:54-65 | the saturating, truncating cap equals min(max_delay, base * 2^min(n, 10)) exactly under a condition on the two durations, always met below 2^64 ms |
| Retry.CapTruncationCounterexample | crates/client-sdk/src/retry.rs:54-65 | a base delay of 2^64 ms has cap zero |
| Retry.ComputeXorShift64 | crates/client-sdk/src/retry.rs:75-84 | the in-place steps never return zero |
| Retry.XorShiftInjective | crates/client-sdk/src/retry.rs:75-84 | `xorshift64` is injective on nonzero seeds |
| XorShift.ScrambleInjective | crates/client-sdk/src/retry.rs:79-83 | the three shift steps together are injective on all 64-bit words |
| XorShift.KnownWords | crates/client-sdk/src/retry.rs:79-83 | three words and what the steps make of them, which tells the shifts from any others |
| XorShift.WordValue | crates/client-sdk/src/http.rs:96 | the word of a u32 attempt number has its value |
| XorShift.WordInjective | crates/client-sdk/src/http.rs:96 | so distinct u32 attempt numbers are distinct 64-bit words |
| Retry.HttpDrawsDistinct | crates/client-sdk/src/http.rs:96 | for one URL distinct attempt numbers draw distinct jitter words, even when a seed is zero and substituted |
| Retry.BackoffWithinBounds | crates/client-sdk/src/retry.rs:54-65 | every delay is below max(1, cap) and at most max_delay |
| Retry.RetryJitter | crates/client-sdk/src/lib.rs:454-467 | the jitter is the specified draw and below max(1, cap) |
| Retry.WsDrawsCollideIff | crates/client-sdk/src/lib.rs:454-467 | two attempts draw the same word exactly if they are 0 and 0xDEADBEEF |
| Retry.ReconnectBackoff | crates/client-sdk/src/ws.rs:522-531 | the reconnect delay is the specified one |
| Retry.ReconnectBounds | crates/client-sdk/src/ws.rs:522-531 | the reconnect cap is min(30 s, 500 ms * 2^min(n, 6)), never falls, is 30 s exactly from attempt 6, and bounds every delay |
| Components.TarjanScc | crates/graph/src/cycles.rs:354-437 | the result is a list of disjoint strongly connected components that hold every vertex, each ascending, larger ones first and equally large ones by smallest vertex |
| Components.FindComponents | crates/graph/src/cycles.rs:367-432 | the iterative search ends, with disjoint strongly connected components that hold every vertex |
| Components.SortRanks | crates/graph/src/cycles.rs:434-436 | sorting by size and smallest vertex is a permutation and ranks every earlier component before every later one |
| Components.ResultIsDetermined | crates/graph/src/cycles.rs:354-437 | the graph has only one such list, whatever order its vertices and edges were visited in |
| Components.Follow | crates/graph/src/cycles.rs:382-404 | looking along an edge, to a new, an open or a closed vertex, keeps the invariant of the search and makes progress |
| Components.Return | crates/graph/src/cycles.rs:404-430 | so does leaving a finished vertex, with its low link passed on or its component closed |
| Components.StartKeeps | crates/graph/src/cycles.rs:367-380 | and starting at an unvisited vertex |
| Components.LookAlmostKeeps | crates/graph/src/cycles.rs:384-404 | the low link after an edge is still the index of an open vertex that is reached, and still below every open vertex behind an explored edge |
| Components.RetreatKeeps | crates/graph/src/cycles.rs:405-414 | passing the low link to the parent keeps that for everything the parent takes over |
| Components.LeadsToRoot | crates/graph/src/cycles.rs:416-429 | when low link and index agree, every vertex popped leads back to the root |
| Components.AboveIsComponent | crates/graph/src/cycles.rs:416-429 | and the popped vertices are one strongly connected component, with nothing missing |
| Components.CutKeeps | crates/graph/src/cycles.rs:416-429 | popping them keeps the invariant |
| CycleDetection.DetectCycles | crates/graph/src/cycles.rs:234-319 | the cycles of the ranked components in order; for any bounds none is reported twice and each is a closed walk within the length bound in a large enough component; where neither size nor number of elementary cycles exceeds a bound, exactly the elementary cycles of the large enough components |
| CycleDetection.DetectedIsExact | crates/graph/src/cycles.rs:297-319 | the same of the specification, for any list of components |
| CycleDetection.DetectedIsSound | crates/graph/src/cycles.rs:297-319 | its part that holds for any bounds |
| CycleDetection.CycleInComponent | crates/graph/src/cycles.rs:297-319 | a cycle stays in the component of its first vertex, so none is lost by searching components apart |
| CycleDetection.InducedIsValid | crates/graph/src/cycles.rs:456-462 | what the search sees of one component through the position table is a graph with each inner neighbour once |
| CycleDetection.NamedIsClosed | crates/graph/src/cycles.rs:456-462 | cycles over positions are exactly the cycles over vertices, with the same smallest vertex |
| CycleEngine.EnumerateCycles | crates/graph/src/cycles.rs:449-501 | the enumeration on mutable buffers returns what the specification enumerates |
| CycleEngine.Search.Find | crates/graph/src/cycles.rs:509-613 | the recursive `circuit` on shared buffers computes the specified state and answer, and ends |
| CycleEngine.Search.Try | crates/graph/src/cycles.rs:548-585 | one neighbour: report, skip or descend |
| CycleEngine.Search.Unblocked | crates/graph/src/cycles.rs:617-630 | recursive unblocking through drained lists computes the specified state, and ends |
| CycleEngine.Search.AwaitAll | crates/graph/src/cycles.rs:590-608 | a failed vertex joins the waiting lists of its successors, once each |
| CycleEngine.Search.Clear | crates/graph/src/cycles.rs:472-476 | a new round clears the blocking of its vertices and leaves earlier ones alone |
| CycleSearch.FlushMeaning | crates/graph/src/cycles.rs:617-630 | exactly the unblocked vertices lose their waiting lists, after everything on them is unblocked, and nothing outside a set closed under waiting is unblocked |
| CycleSearch.CircuitGrows | crates/graph/src/cycles.rs:509-613 | for any bounds a call reports distinct closed walks that extend its path, within length bound and cap, and reports nothing if it answers false |
| CycleSearch.EnumerateReports | crates/graph/src/cycles.rs:234-319 | for any bounds every reported cycle is a closed walk of the component from its smallest vertex, of length 2 to the bound; none is reported twice and the cap holds |
| CycleBlocking.CircuitKeeps | crates/graph/src/cycles.rs:509-613 | with a bound no smaller than the component every call keeps Johnson's blocking invariant, reports only elementary cycles, and unblocks nothing if it finds none |
| CycleBlocking.LeaveFoundKeeps | crates/graph/src/cycles.rs:587-589 | unblocking after a find never unblocks an earlier vertex of the path and leaves no blocked vertex with a way out |
| CycleBlocking.LeaveFailedKeeps | crates/graph/src/cycles.rs:589-609 | a failed vertex stays blocked behind blocked successors only |
| CycleBlocking.RestIsNotBlocked | crates/graph/src/cycles.rs:575-585 | under the invariant no vertex on the rest of an elementary cycle through the path is blocked |
| CycleBlocking.CircuitFinds | crates/graph/src/cycles.rs:509-613 | every elementary cycle that extends the path is reported by the call, unless the cap is reached |
| CycleBlocking.EnumerateIsExact | crates/graph/src/cycles.rs:443-501 | with a bound no smaller than the component all reported cycles are elementary, and all elementary cycles are reported if the cap is not reached |
| CycleCap.EnumerateCounts | crates/graph/src/cycles.rs:443-501 | then the number reported is the smaller of the cap and the number of elementary cycles, so none is missed exactly if the cap is not below that number |
| CycleCap.UncappedIsExact | crates/graph/src/cycles.rs:443-501 | the list that every cap cuts holds each elementary cycle once and nothing else |
| CycleCap.CapCuts | crates/graph/src/cycles.rs:443-501 | for any length bound a smaller cap reports the beginning of what a larger one reports |
| CycleCap.EveryCapCuts | crates/graph/src/cycles.rs:443-501 | for any length bound every cap reports the beginning of one list, as much of it as the cap allows |
| CycleBounds.LastVertexIsNew | crates/graph/src/cycles.rs:509-613 | for any bounds the last vertex of a reported cycle is not repeated, so with a bound of at most four all are elementary |
| CycleBounds.AtMostTwoIsComplete | crates/graph/src/cycles.rs:509-613 | with a bound of at most two no cycle within the bound is missed |
| CycleFailures.RingFails | crates/graph/src/cycles.rs:525-528 | a walk that meets the length bound fails and leaves its vertices blocked |
| CycleFailures.DetourMisses | crates/graph/src/cycles.rs:525-528 | for every bound from 3 below the size there is a component on which nothing at all is reported |
| CycleFailures.ShortCutIsElementary | crates/graph/src/cycles.rs:443-448 | although that component has an elementary cycle no longer than the bound |
| CycleFailures.DetourIsComponent | crates/graph/src/cycles.rs:346-353 | and is strongly connected, as the search expects |
| CycleRepeats.OneUnblocksLate | crates/graph/src/cycles.rs:617-630 | a stale waiting list makes the search unblock a vertex that is on the path |
| CycleRepeats.WayReports | crates/graph/src/cycles.rs:509-613 | how such a list arises, for every bound and every size |
| CycleRepeats.KnotRepeats | crates/graph/src/cycles.rs:509-613 | for every bound from 5 below the size a walk with a repeated vertex is reported on some component |
| CycleRepeats.CompleteIff | crates/graph/src/cycles.rs:443-501 | all elementary cycles within the bound are reported on every component of n vertices exactly if the bound is at most 2 or at least n |
| CycleRepeats.ElementaryIff | crates/graph/src/cycles.rs:443-501 | only elementary cycles are reported on every component of n vertices exactly if the bound is at most 4 or at least n |
| CycleRecords.BuildCycle | crates/graph/src/cycles.rs:641-690 | a record lists the addresses and edge amounts of the path in order and the minutes of the smallest window that holds its edges; nothing is returned exactly if an address or edge is missing |
| CycleRecords.EdgeMeaning | crates/graph/src/cycles.rs:656-660 | the edges of a record lead from each vertex of the path to the next, and from the last to the start |
| CycleRecords.MinutesMeaning | crates/graph/src/cycles.rs:675-681 | the span in whole minutes |
| CycleRecords.DetectedIsRecorded | crates/graph/src/cycles.rs:571-573 | no detected cycle is lost when it is recorded, if every edge of the graph has its data and every vertex its address |
| WashTrading.CycleVolumeUsd | crates/detectors/src/d05_wash_trading.rs:677-698 | the volume is the smallest edge value, and zero without edges |
| WashTrading.EdgeUsdMeaning | crates/detectors/src/d05_wash_trading.rs:682-690 | the value of an edge times the power of ten, which saturates from the twentieth on, is its amount times the price |
| WashTrading.VolumeOfRotation | crates/detectors/src/d05_wash_trading.rs:677-698 | starting the cycle at another vertex keeps its volume |
| WashTrading.ComputeSignalBCycles | crates/detectors/src/d05_wash_trading.rs:741-795 | the loop computes the specified total, count, longest length, wallets and confidence |
| WashTrading.SignalBMeaning | crates/detectors/src/d05_wash_trading.rs:741-795 | count, total, number of different members and confidence in terms of the cycles; the confidence rises from 0.40 by 0.40 for 10,000 |
| WashTrading.SignalBOfPermutation | crates/detectors/src/d05_wash_trading.rs:741-795 | the result does not depend on the order of the cycles |
| WashTrading.FurtherCyclesNeverLower | crates/detectors/src/d05_wash_trading.rs:741-795 | further cycles never lower count, length, wallets or confidence, nor the total for a price that is not negative; the confidence lies in [0.40, 0.80] |
| WashTrading.LargestLengthBounds | crates/detectors/src/d05_wash_trading.rs:768-771 | the longest length is reached by some cycle and exceeded by none |
| WashTrading.QualifiedTotal | crates/detectors/src/d05_wash_trading.rs:434-444 | after the filter the total is at least the number of cycles times the minimum volume |
| WashTrading.Qualified | crates/detectors/src/d05_wash_trading.rs:434-444 | the filter keeps exactly the cycles of enough volume within the time window |
| WashTrading.QualifiedMeaning | crates/detectors/src/d05_wash_trading.rs:434-444 | cycle by cycle, in order: kept exactly with the minimum volume and within the window |
| Sums.SumOfPermutation | crates/detectors/src/d05_wash_trading.rs:765-767 | sums over permutations agree |
| PumpDump.ComputeInsiderSoldPct | crates/detectors/src/d04_pump_dump.rs:1149-1205 | the three loops compute the aggregate fraction and every per-wallet fraction |
| PumpDump.SoldFractionMeaning | crates/detectors/src/d04_pump_dump.rs:1149-1205 | the aggregate times all balances of sellers and idle insiders is what was sold, at most all of it; nothing without sells or balances |
| PumpDump.WalletPctMeaning | crates/detectors/src/d04_pump_dump.rs:1169-1178 | the share of one wallet times its balance is what it sold, at most all of it; an unknown or zero balance counts as sold out |
| PumpDump.IdleBalanceMeaning | crates/detectors/src/d04_pump_dump.rs:1188-1196 | an insider adds its known balance exactly if the address sold nothing |
| PumpDump.SoldFractionInUnit | crates/detectors/src/d04_pump_dump.rs:1149-1205 | the aggregate sold fraction lies in [0, 1] |
| PumpDump.SoldWithinBalance | crates/detectors/src/d04_pump_dump.rs:1165-1184 | if every seller sold at most a fraction below one of its balance, so did all together |
| PumpDump.SoldFractionBelowLargest | crates/detectors/src/d04_pump_dump.rs:1149-1205 | any bound of the per-wallet fractions bounds the aggregate |
| PumpDump.SoldFractionBelowLargestPct | crates/detectors/src/d04_pump_dump.rs:1149-1205 | the aggregate never exceeds the largest per-wallet fraction |
| PumpDump.AddingNonSellerIff | crates/detectors/src/d04_pump_dump.rs:1186-1205 | adding an insider that sold nothing, anywhere in the list, never raises the aggregate exactly if it does not give sales with a zero denominator their first denominator |
| PumpDump.NonSellerCannotFireSignalC | crates/detectors/src/d04_pump_dump.rs:591 | so it cannot make Signal C fire, apart from that case |
| PumpDump.UnbackedSalesCounterexample | crates/detectors/src/d04_pump_dump.rs:1186-1205 | in that case it can |
| PumpDump.ApplySignalCAmplifier | crates/detectors/src/d04_pump_dump.rs:853-909 | the event is changed in place as the additive step says |
| PumpDump.Evaluate | crates/detectors/src/d04_pump_dump.rs:333-771 | an error or exactly one fresh event, equal to the specified outcome of base signal and amplifiers |
| PumpDump.OutcomeByInputs | crates/detectors/src/d04_pump_dump.rs:355-532 | which inputs give the quiet event, which query failures which error, and which make Signal A or Signal B fire |
| PumpDump.SignalAMeaning | crates/detectors/src/d04_pump_dump.rs:793-822 | the confidence of a spike from the two relative excesses, for every threshold and a zero median |
| PumpDump.SignalBMeaning | crates/detectors/src/d04_pump_dump.rs:836-848 | the confidence of a burst: 0.50 at the threshold, 2.5 per unit above it, at most 0.75 |
| PumpDump.InsidersByInputs | crates/detectors/src/d04_pump_dump.rs:1038-1133 | which of the three sources names the insiders, and the one failure that is an error |
| PumpDump.HoldersAboveMeaning | crates/detectors/src/d04_pump_dump.rs:1110-1121 | the holders of at least the floor, in order |
| PumpDump.SignalCByInputs | crates/detectors/src/d04_pump_dump.rs:534-628 | Signal C amplifies exactly an unestablished token with insiders whose sold fraction reaches the limit |
| PumpDump.SmartMoneyByInputs | crates/detectors/src/d04_pump_dump.rs:1256-1274 | which tier gives which delta, behind which gate, and which failures are ignored |
| PumpDump.AmplifiedByInputs | crates/detectors/src/d04_pump_dump.rs:534-768 | the order of the three amplifiers, whose confidence each gate reads, and which error ends them |
| PumpDump.AdditiveStepsMeaning | crates/detectors/src/d04_pump_dump.rs:862-874 | the two additive steps in numbers, with the cap of each base signal |
| PumpDump.Amplify | crates/detectors/src/d04_pump_dump.rs:534-768 | the amplifiers change the one event in place, in order, with their gates and errors |
| PumpDump.SignalCStepIff | crates/detectors/src/d04_pump_dump.rs:853-875 | exactly which amplifiers never lower the confidence, and exactly when severity and confidence stay in step; the cap always holds |
| PumpDump.SmartMoneyStepIff | crates/detectors/src/d04_pump_dump.rs:660-768 | for any delta the smart-money step keeps cap and band, and lowers the confidence exactly for a negative delta that is applied |
| PumpDump.GraduationStepKeeps | crates/detectors/src/d04_pump_dump.rs:660-768 | for any tiers the graduation step keeps cap and band, never lowers the confidence and changes nothing unless it raises it |
| PumpDump.AmplifiedIsBanded | crates/detectors/src/d04_pump_dump.rs:534-768 | for every configuration the whole pipeline keeps the cap, and severity and confidence are in step unless Signal C dropped a negative result that no later step overwrote; amplifiers that add keep them in step and never lower the confidence |
| PumpDump.NegativeAmplifierCounterexample | crates/detectors/src/d04_pump_dump.rs:853-875 | a concrete event of confidence 0.60 that ends with severity Info |
| PumpDump.OutcomeIsBanded | crates/detectors/src/d04_pump_dump.rs:333-771 | in terms of the inputs: a large market, or a weak burst without a spike, gives 0.05 and Info; a spike lies in [0, 0.95], a strong burst in [0, 0.85], in step exactly if it is not out of step; with amplifiers that add always in step and at or above 0.60 and 0.50 |
| PumpDump.AdditiveAmplifiersCommute | crates/detectors/src/d04_pump_dump.rs:862-874 | for any two amounts, exactly when the two additive amplifiers equal one capped sum, in the order of the code and in the other; always in both for amounts that add |
| RugPull.WorstDrainMeaning | crates/detectors/src/d02_rug_pull.rs:870-887 | the picked drain is the last one that no row exceeds, NaN only if all rows are |
| RugPull.ExceedsMeaning | crates/detectors/src/d02_rug_pull.rs:870-887 | numbers in their order above NaN, which exceeds nothing |
| RugPull.MergeIsMaximumIff | crates/detectors/src/d02_rug_pull.rs:794-800 | the window merge is a maximum exactly if both rows or neither are NaN |
| RugPull.MergeMeaning | crates/detectors/src/d02_rug_pull.rs:782-810 | which of the two windows is reported, and that only a drain of the slow window alone is a trickle |
| RugPull.DrainEventMeaning | crates/detectors/src/d02_rug_pull.rs:804-921 | the event of every numeric drain: the sigmoid of the removed share, stretched from the threshold, at least 0.75, and 0.75 for a trickle |
| RugPull.ExtensionLocksMore | crates/detectors/src/d02_rug_pull.rs:1206-1237 | extending an unexpired lock never lowers the saturating locked sum |
| RugPull.ExtensionUnlocksNoSooner | crates/detectors/src/d02_rug_pull.rs:1137-1180 | nor brings the nearest unlock closer |
| RugPull.BonusFollowsDistance | crates/detectors/src/d02_rug_pull.rs:1264-1307 | a farther unlock never earns a larger share of the bonus, positive or negative |
| RugPull.ExtensionNeverFires | crates/detectors/src/d02_rug_pull.rs:1123-1307 | for every configuration extending an unexpired lock never makes Signal B fire |
| RugPull.ExtensionNeverRaisesRiskIff | crates/detectors/src/d02_rug_pull.rs:1123-1307 | it never raises the confidence either, for any market and any lockers, exactly for settings whose bonus is not negative, has no window or is hidden by the clamping |
| RugPull.RelockBringsCloserIff | crates/detectors/src/d02_rug_pull.rs:1137-1180 | moving an expired lock brings the nearest unlock closer exactly if its new time is in the future and fewer days away than every other unlock |
| RugPull.RelockRaisesBonusIff | crates/detectors/src/d02_rug_pull.rs:1264-1307 | and raises the bonus exactly if that time is also within the bonus window of a positive bonus |
| RugPull.RelockRaisesRiskIff | crates/detectors/src/d02_rug_pull.rs:1123-1307 | it never makes Signal B fire, and raises the confidence exactly if the bonus gains more than the locked share takes away and the clamping lets it show |
| RugPull.RelockingExpiredRaisesRisk | crates/detectors/src/d02_rug_pull.rs:1137-1180 | an instance at the default settings: an expired lock moved to the next day |
| RugPull.SignalBConfidence | crates/detectors/src/d02_rug_pull.rs:1257-1316 | fires exactly below the safe floor, with a confidence in [0.50, 0.75] |
| RugPull.EvaluatePool | crates/detectors/src/d02_rug_pull.rs:338-437 | one pass of the loop: the specified events or error, never both signals |
| RugPull.PoolByInputs | crates/detectors/src/d02_rug_pull.rs:338-437 | what one pool yields in terms of its queries and figures: the errors, the dust filter, the drain, the dead pool, the audit record, and Signal B exactly for an unsafe pool |
| RugPull.SignalBFiresIff | crates/detectors/src/d02_rug_pull.rs:1123-1277 | Signal B fires exactly above the dust filter and if burned share times supply plus 100 times the saturated locked sum is below floor times supply |
| RugPull.LockedPctMeaning | crates/detectors/src/d02_rug_pull.rs:1206-1237 | the locked share times the supply is 100 times the saturated sum of the locks that outlast the horizon |
| RugPull.SignalBMeaning | crates/detectors/src/d02_rug_pull.rs:1257-1316 | the confidence of Signal B from deficit, number of providers and nearest unlock, multiplied out |
| RugPull.UnlockDaysMeaning | crates/detectors/src/d02_rug_pull.rs:1137-1180 | the whole days to an unlock that lies ahead |
| RugPull.OutcomeWithoutPools | crates/detectors/src/d02_rug_pull.rs:305-336 | a token without pools gives one event of 0.02 |
| RugPull.Evaluate | crates/detectors/src/d02_rug_pull.rs:305-486 | the loop and the graduation pass return the specified events, all fresh and distinct |
| RugPull.AmplifyGraduated | crates/detectors/src/d02_rug_pull.rs:441-486 | the in-place pass changes every event as specified and no other |
| RugPull.PoolEventsMeaning | crates/detectors/src/d02_rug_pull.rs:338-437 | at most one event per pool, Signal A exactly for a drain, no Signal B for a dead or established pool, an audit record exactly for a suppressed one |
| RugPull.AtMostOneEventPerPool | crates/detectors/src/d02_rug_pull.rs:338-437 | the list is no longer than the pools, and every event is that of some pool |
| RugPull.SupersessionNeverLowersIff | crates/detectors/src/d02_rug_pull.rs:804-907 | replacing B by A keeps or raises the confidence exactly if the drain is a number or a trickle |
| RugPull.DrainIsBandedIff | crates/detectors/src/d02_rug_pull.rs:892-921 | the severity of a reported drain is the band of its confidence exactly if the drain is a number or a trickle, and otherwise it is Critical with confidence zero |
| RugPull.NaNDrainIsCriticalZero | crates/detectors/src/d02_rug_pull.rs:892-921 | an instance: a NaN drain |
| RugPull.GraduationTouchesIff | crates/detectors/src/d02_rug_pull.rs:451-486 | the graduation pass changes an event exactly if its latent-risk metric is zero and the multiplier lifts it |
| Signals.RecencyMeaning | crates/detectors/src/graduation_amplifier.rs:85-112 | the tier by whole hours since graduation |
| Signals.GraduationMeaning | crates/detectors/src/graduation_amplifier.rs:121-140 | the scaled confidence, held between zero and the cap, is taken only if it is higher and a confidence |
| Signals.BandMeaning | crates/detectors/src/signals.rs:66-78 | which confidences have which severity |
| RugPull.SuppressionIsAmplified | crates/detectors/src/d02_rug_pull.rs:1033-1108 | a suppression record is among them |
| Honeypot.ChosenPoolIsBest | crates/detectors/src/d01_honeypot.rs:1101-1147 | a Raydium pool is chosen exactly if there is one: of the largest liquidity, of these a CPMM pool if possible, of these the last |
| Honeypot.TestPath | crates/detectors/src/d01_honeypot.rs:1181-1416 | one path: its outcome, and at most a buy and a sell of exactly the delivered tokens |
| Honeypot.StepByInputs | crates/detectors/src/d01_honeypot.rs:1181-1416 | how a path ends for every answer of its provider and its two transactions |
| Honeypot.CovertFeeMeaning | crates/detectors/src/d01_honeypot.rs:1396-1416 | the recorded basis points n of a sell that returns less than the probe satisfy n * probe <= 10,000 * (probe - lamports) < (n + 1) * probe, and are zero otherwise |
| Honeypot.SimulateSell | crates/detectors/src/d01_honeypot.rs:1095-1495 | over any script the specified result; calls go path by path, at most two each, a sell only after a token-producing buy |
| Honeypot.SummaryBands | crates/detectors/src/d01_honeypot.rs:1421-1495 | skipped exactly if every buy failed, and then adds nothing; adds more than 0.60, at most 1, exactly if some sell failed |
| Honeypot.SummaryCounts | crates/detectors/src/d01_honeypot.rs:1421-1495 | the counts and the reason of the answer in terms of the outcomes |
| Honeypot.SummaryAdds | crates/detectors/src/d01_honeypot.rs:1440-1495 | what an answer adds: 0.60 and 0.40 of the failed share; without failed sells more than nothing exactly if the mean recorded loss exceeds the threshold, and then 0.60 of the sigmoid of the excess |
| Honeypot.SkipMeaning | crates/detectors/src/d01_honeypot.rs:1421-1440 | what a skipped answer says |
| Honeypot.OutcomeMeaning | crates/detectors/src/d01_honeypot.rs:1181-1495 | over every script with an answer: skipped exactly if some path ended the simulation or no buy delivered tokens, and then it adds nothing; otherwise it adds more than 0.60 exactly if some bought tokens could not be sold, and less if not; a skip disagrees with that exactly if a path ended the simulation after an earlier one had such evidence |
| Honeypot.AnswersIff | crates/detectors/src/d01_honeypot.rs:1181-1416 | there is an answer exactly if no path ends the simulation or the first that does has no wired provider |
| Honeypot.UnwiredPathDropsEvidence | crates/detectors/src/d01_honeypot.rs:1200-1206 | a concrete script on which a failed sell is followed by a path without a provider, and the answer is a skip that adds nothing |
| Honeypot.PathsTestedIff | crates/detectors/src/d01_honeypot.rs:1486 | the reported number of paths is within the number of paths exactly if at least as many buys as sells failed |
| Honeypot.SummaryOfPermutation | crates/detectors/src/d01_honeypot.rs:1421-1495 | the result does not depend on the order of the outcomes |
| Honeypot.SimulationIgnoresPathOrderIff | crates/detectors/src/d01_honeypot.rs:1181-1495 | every reordering of the paths keeps the result exactly if all paths that end the simulation end it alike |
| Honeypot.ComputeStatic | crates/detectors/src/d01_honeypot.rs:937-1042 | the accumulated score gives the specified confidence, strictly between 0 and 1 |
| Honeypot.StaticMeaning | crates/detectors/src/d01_honeypot.rs:937-1042 | the confidence is the sigmoid of z with 0.55 * (z + 1) the sum of the weights of the signals that are present |
| Honeypot.StaticGrowsIff | crates/detectors/src/d01_honeypot.rs:937-1042 | more risk signals, worse trade ratios or transferability never lower the static confidence, for any tokens, exactly for weights that add |
| Honeypot.ConfidenceGrowsWithRisk | crates/detectors/src/d01_honeypot.rs:393-408 | a higher static confidence and a stronger simulation result never lower the final confidence, which is a confidence and at most 0.25 for a verified token |
| Honeypot.FinalMeaning | crates/detectors/src/d01_honeypot.rs:392-408 | the final confidence: 0.80 of the sum without a simulation, one if it adds one, otherwise the sum, with its two limits |
| EvmCodec.DecodeSucceedsIff | crates/detectors/src/d01_honeypot.rs:883-914 | decoding succeeds exactly on an even number of digits of either case |
| EvmCodec.DigitMeaning | crates/detectors/src/d01_honeypot.rs:907-914 | the sixteen digits in either case stand for their places, and no other character for anything |
| EvmCodec.DecodeOfEncode | crates/common/src/chain.rs:356-363 | decoding an encoding gives the bytes back |
| EvmCodec.EncodeOfDecode | crates/common/src/chain.rs:319-339 | encoding what was decoded gives the digits in lower case |
| EvmCodec.DecodeIsPositional | crates/detectors/src/d01_honeypot.rs:883-905 | the decoded bytes are the number the digits denote, high nibble first |
| EvmCodec.ParseEvmAddress | crates/detectors/src/d01_honeypot.rs:883-905 | the 20-byte buffer loop computes the specified parse |
| EvmCodec.ParserAcceptsIff | crates/detectors/src/d01_honeypot.rs:883-905 | which strings parse, and how that differs from those that canonicalise |
| EvmCodec.CanonicalAccepts | crates/common/src/chain.rs:210-233 | which strings canonicalise |
| EvmCodec.ErrorsByForm | crates/common/src/chain.rs:210-233 | which error the canonicaliser, the parser and the hash reader give, by prefix, length and digits alone |
| EvmCodec.CanonicalRoundTrip | crates/common/src/chain.rs:210-233 | canonical forms are fixed points, always parse, and parse to the bytes the accepted string denotes |
| EvmCodec.CanonicalEqualIff | crates/common/src/chain.rs:210-233 | two accepted strings have one canonical form exactly if they denote the same 20 bytes |
| EvmCodec.HashRoundTrip | crates/common/src/chain.rs:319-363 | displaying a hash and parsing it back gives the hash |
| EvmCodec.HashDisplaysCanonically | crates/common/src/chain.rs:319-363 | a parsed hash displays as its digits in lower case |
| AbiCodec.BuildGetAmountsOutCalldata | crates/detectors/src/d01_honeypot.rs:836-878 | the built 164 bytes decode, by the ABI rules, to 10^18 and the two parsed addresses; a bad address is its parse error |
| AbiCodec.CalldataDecodes | crates/detectors/src/d01_honeypot.rs:836-878 | the word layout decodes under the reference decoder |
| AbiCodec.ToBytesRoundTrip | crates/detectors/src/d01_honeypot.rs:751-788 | k big-endian bytes hold a number modulo 256^k |
| AbiCodec.ReadsAmountsModulo | crates/detectors/src/d01_honeypot.rs:751-788 | on the standard encoding of any two amounts the reader gets both modulo 2^128 and judges by them alone |
| AbiCodec.VerdictMeaning | crates/detectors/src/d01_honeypot.rs:766-788 | the verdict says lost exactly if something went in and nothing, or less than the tolerated share, came out |
| AbiCodec.ClassifyMeaning | crates/detectors/src/d01_honeypot.rs:751-795 | the answer to every response: reverted, failed, too short, and from 128 bytes on the judgement of the two 16-byte numbers |
| AbiCodec.AnyTruncationIsHarmlessIff | crates/detectors/src/d01_honeypot.rs:751-788 | for any two amounts the reader judges as their full values deserve exactly if these look lost both before and after the truncation or at neither time, and always below 2^128 |
| AbiCodec.TruncationIsHarmlessIff | crates/detectors/src/d01_honeypot.rs:751-788 | for the probed amount exactly if the threshold is negative, the output is below 2^128 or its low 128 bits still look like no loss |
| AbiCodec.TruncatedOutputCounterexample | crates/detectors/src/d01_honeypot.rs:751-788 | an output of 2^128 is taken for a drained pool |
| Amount.Quotient | crates/common/src/amount.rs:75-81 | the quotient by a power of ten is exact |
| Amount.QuotientIsReduced | crates/common/src/amount.rs:75-81 | and carries no trailing zeros |
| Amount.Limits | crates/common/src/amount.rs:75-117 | the three limits in numbers |
| Amount.ConvertsBackIff | crates/common/src/amount.rs:99-117 | which non-negative decimals come back as which raw amount, which panic and which are too precise, by their value alone |
| Amount.RoundTrip | crates/common/src/amount.rs:75-117 | a raw amount converts exactly if it is below 2^96 and the scale at most 19, and then converts back to itself |
| Amount.AcceptedConvertsForward | crates/common/src/amount.rs:75-117 | an accepted decimal converts forward to a numerically equal one |
| Amount.RepresentationDoesNotMatter | crates/common/src/amount.rs:99-117 | numerically equal decimals convert alike |
| Amount.OutcomeIsDecided | crates/common/src/amount.rs:99-117 | exactly the negative sign is refused as negative, and the overflow error is never returned |
| Amount.PanicsInsideU128 | crates/common/src/amount.rs:83-90 | an amount whose raw value fits a u128 panics |

## Left out

- Sockets, TLS, the async runtime, serialisation, tracing and tokens: their results are scripts of outcomes and frames; concurrent use of one client is not modelled.
- SQL queries, registries and enrichment: their rows are inputs, including whether a token is an established protocol.
- Rounding and overflow of `f64` and `Decimal` in the detectors: confidences and amounts are exact reals, and NaN exists only in the drain rows of D02.
- `sigmoid`: any strictly increasing function into (0, 1) instead of the logistic curve.
- EVM branches of D02 and of D01 beyond calldata and response, and D03: the first are registry and RPC lookups, the last is threshold ramps.
- D05 Signal A (a logarithm) and Signal C (one severity step).
- Evidence, metric keys other than the latent-risk flag, notes, addresses of routers, filters of a subscription and configuration loading: constants and plumbing.
- Base58 and EIP-55: the first is a library, the second is not implemented by the code.
- Parsing of `Retry-After`, of JSON bodies and of SPL account data: given as optional values.
- The aggregation of transfers in `detect_cycles` (address table, saturating sums, time spans per pair): the graph and its edge data are given, each neighbour once and no self-loop, as that step leaves them.
- Address parsing of the chosen pool and mint in D01: one given truth value, since key derivation and transaction building are libraries.
- Components.FindComponents: its vectors are the fields of one value that the loop reassigns, and the popping loop is one slice of the stack; sharing of buffers is not modelled there.
- WsSession.Connection.Run: excludes the limit 2^32 - 1, with which the loop need not end; `WsSession.Connection.RunFor` covers it for any number of passes and `WsBudget.LargestLimitGoesOn` says what it then does.
- CycleRepeats.CompleteIff: for caps that are not reached; `CycleCap.EveryCapCuts` says what a cap that is reached leaves.
- WsSession.CountAfter: the count wraps, as in a build without overflow checks; a build with them panics instead at the increment after 2^32 attempts, which only the limit 2^32 - 1 reaches.
- Amount.RoundTrip: `10u64.pow` panics on overflow, as in a build with overflow checks; the wrapped value of a build without them is not modelled.

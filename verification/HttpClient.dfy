/** The HTTP retry loop of the client SDK: `execute_with_retry`, `map_error_response` and the use of
    `Retry-After` (`http.rs`). Each attempt's transport result is an arbitrary outcome. */
module HttpClient {
  import opened Naturals
  import opened Wrappers
  import opened Retry
  import opened XorShift

  const NANOS_PER_SECOND: nat := 1_000_000_000

  /** The body of an error response: its text, and the RFC 7807 document in it, if it parses. */
  datatype Problem = Problem(status: nat, detail: string)
  datatype Body = Body(text: string, problem: Option<Problem>)

  /** `retryAfter` is the parsed delay-seconds form of `Retry-After` (RFC 9110, section 10.2.3). */
  datatype Response = Response(status: nat, retryAfter: Option<nat>, body: Body)

  datatype TransportError = TransportError(reason: string)

  datatype Outcome =
    | TimedOut
    | ConnectOrRequestError(error: TransportError)
    | OtherTransportError(error: TransportError)
    | Responded(response: Response)

  datatype ClientError =
    | Network(cause: TransportError)
    | Timeout
    | RateLimited(retryAfter: Option<nat>)
    | Unauthenticated(detail: string)
    | Unauthorized(detail: string)
    | NotFound(resource: string)
    | InvalidInput(field: string, detail: string)
    | AnalyzeInFlight(detail: string)
    | ServerError(status: nat, detail: string)
    | ProblemDetail(problem: Problem)

  predicate IsSuccess(status: nat) { 200 <= status < 300 }

  function Detail(body: Body): string {
    match body.problem
    case Some(problem) => problem.detail
    case None => body.text[..Min(256, |body.text|)]
  }

  /** `map_error_response`. */
  function MapErrorResponse(response: Response): ClientError {
    var detail := Detail(response.body);
    if response.status == 400 then InvalidInput("request", detail)
    else if response.status == 401 then Unauthenticated(detail)
    else if response.status == 403 then Unauthorized(detail)
    else if response.status == 404 then NotFound(detail)
    else if response.status == 409 then AnalyzeInFlight(detail)
    else if response.status == 429 then RateLimited(None)
    else if 500 <= response.status < 600 then ServerError(response.status, detail)
    else match response.body.problem
      case Some(problem) => ProblemDetail(problem)
      case None => ServerError(response.status, detail)
  }

  /** The error the loop keeps for a response: a 429 gets its `Retry-After` hint in nanoseconds. */
  function ResponseError(response: Response): ClientError {
    if response.status == 429 then
      RateLimited(if response.retryAfter.Some? then Some(response.retryAfter.value * NANOS_PER_SECOND) else None)
    else MapErrorResponse(response)
  }

  // ---------------------------------------------------------------------------------------------
  // Specification: the first final outcome
  // ---------------------------------------------------------------------------------------------

  /** No request follows a final outcome: a success, a non-retriable status, or a transport error that
      is neither a timeout nor a connect or request failure. */
  predicate IsFinal(outcome: Outcome) {
    match outcome
    case TimedOut => false
    case ConnectOrRequestError(_) => false
    case OtherTransportError(_) => true
    case Responded(response) => !IsRetriableStatus(response.status)
  }

  /** What an outcome means if it is the last one. */
  function ResultOf(outcome: Outcome): Result<Response, ClientError> {
    match outcome
    case TimedOut => Err(Timeout)
    case ConnectOrRequestError(error) => Err(Network(error))
    case OtherTransportError(error) => Err(Network(error))
    case Responded(response) => if IsSuccess(response.status) then Ok(response) else Err(ResponseError(response))
  }

  lemma ResultOfMeaning(outcome: Outcome)
    ensures
      match outcome
      case TimedOut => ResultOf(outcome) == Err(Timeout)
      case ConnectOrRequestError(error) => ResultOf(outcome) == Err(Network(error))
      case OtherTransportError(error) => ResultOf(outcome) == Err(Network(error))
      case Responded(response) =>
        ResultOf(outcome) == if IsSuccess(response.status) then Ok(response) else Err(ResponseError(response))
  {
  }

  /** What the client tells about a failed response: the detail of the problem document, or else the text, cut
      after 256 characters. */
  predicate IsDetail(body: Body, detail: string) {
    if body.problem.Some? then detail == body.problem.value.detail
    else detail <= body.text && |detail| == if |body.text| < 256 then |body.text| else 256
  }

  /** The table of results, by status alone. */
  lemma ResultByStatus(response: Response, detail: string)
    requires IsDetail(response.body, detail)
    ensures
      var status, result := response.status, ResultOf(Responded(response));
      && (200 <= status < 300 <==> result == Ok(response))
      && (status == 400 ==> result == Err(InvalidInput("request", detail)))
      && (status == 401 ==> result == Err(Unauthenticated(detail)))
      && (status == 403 ==> result == Err(Unauthorized(detail)))
      && (status == 404 ==> result == Err(NotFound(detail)))
      && (status == 409 ==> result == Err(AnalyzeInFlight(detail)))
      && (status == 429 && response.retryAfter.None? ==> result == Err(RateLimited(None)))
      && (status == 429 && response.retryAfter.Some? ==>
          result == Err(RateLimited(Some(response.retryAfter.value * 1_000_000_000))))
      && (500 <= status < 600 ==> result == Err(ServerError(status, detail)))
      && (!(200 <= status < 300) && !(500 <= status < 600) && status !in {400, 401, 403, 404, 409, 429} ==>
          result == Err(if response.body.problem.Some? then ProblemDetail(response.body.problem.value)
                        else ServerError(status, detail)))
  {
    assert response.body.problem.None? ==> detail == response.body.text[..|detail|];
    assert detail == Detail(response.body);
  }

  /** Of the transport errors a timeout, and a failure to connect or to send, is worth another request. */
  lemma ResultOfTransport(error: TransportError)
    ensures ResultOf(TimedOut) == Err(Timeout) && !IsFinal(TimedOut)
    ensures ResultOf(ConnectOrRequestError(error)) == Err(Network(error)) && !IsFinal(ConnectOrRequestError(error))
    ensures ResultOf(OtherTransportError(error)) == Err(Network(error)) && IsFinal(OtherTransportError(error))
    ensures forall response ::
      !IsFinal(Responded(response)) <==>
      response.status == 429 || response.status == 500 || 502 <= response.status <= 504
  {
  }

  type Script = nat -> Outcome

  /** Are the requests `0..n-1` exactly those sent under a limit of `max`? */
  ghost predicate IsSendCount(script: Script, max: nat, n: nat) {
    && n <= max
    && (forall i :: 0 <= i < n - 1 ==> !IsFinal(script(i)))
    && (n < max ==> n > 0 && IsFinal(script(n - 1)))
  }

  lemma SendCountIsUnique(script: Script, max: nat, m: nat, n: nat)
    requires IsSendCount(script, max, m) && IsSendCount(script, max, n)
    ensures m == n
  {
  }

  /** `(url.as_str().len() as u64).wrapping_mul(0x9e37)`. */
  function UrlWord(urlLength: bv64): bv64 { urlLength * 0x9e37 }

  /** Does the server say how long to wait? */
  predicate HasHint(outcome: Outcome) {
    outcome.Responded? && outcome.response.status == 429 && outcome.response.retryAfter.Some?
  }

  /** The delay in nanoseconds that the server imposes, if any. */
  function Imposed(outcome: Outcome): nat {
    if HasHint(outcome) then outcome.response.retryAfter.value * NANOS_PER_SECOND else 0
  }

  /** The delay in nanoseconds before request `k + 1`, given how request `k` ended. */
  function DelayAfter(policy: RetryPolicy, urlLength: bv64, k: nat, outcome: Outcome): nat
    requires k + 1 < 0x1_0000_0000
  {
    if HasHint(outcome) then Imposed(outcome)
    else BackoffMillis(policy, k, Seed(k + 1, UrlWord(urlLength))) * NANOS_PER_MILLI
  }

  /** The total sleep before the request numbered `n`. */
  function TotalDelay(policy: RetryPolicy, urlLength: bv64, script: Script, n: nat): nat
    requires n < 0x1_0000_0000
  {
    if n == 0 then 0
    else TotalDelay(policy, urlLength, script, n - 1) + DelayAfter(policy, urlLength, n - 1, script(n - 1))
  }

  function TotalImposed(script: Script, n: nat): nat {
    if n == 0 then 0 else TotalImposed(script, n - 1) + Imposed(script(n - 1))
  }

  lemma TotalDelayStep(policy: RetryPolicy, urlLength: bv64, script: Script, n: nat)
    requires n + 1 < 0x1_0000_0000
    ensures TotalDelay(policy, urlLength, script, 0) == 0
    ensures TotalDelay(policy, urlLength, script, n + 1) ==
      TotalDelay(policy, urlLength, script, n) + DelayAfter(policy, urlLength, n, script(n))
  {
    hide BackoffMillis, Seed, UrlWord;
  }

  /** The error kept for a retried outcome carries a hint exactly when the server gave one. */
  lemma HintIsKept(outcome: Outcome)
    requires !IsFinal(outcome)
    ensures ResultOf(outcome).Err?
    ensures
      var error := ResultOf(outcome).error;
      if HasHint(outcome) then error == RateLimited(Some(Imposed(outcome)))
      else !(error.RateLimited? && error.retryAfter.Some?)
  {
  }

  /** The delay in nanoseconds before the request after number `k`: the seconds of `Retry-After` of a 429, or else
      the back-off of that attempt, drawn from the number of the next one and the length of the URL. */
  lemma DelayMeaning(policy: RetryPolicy, urlLength: bv64, k: nat, outcome: Outcome)
    requires k + 1 < 0x1_0000_0000
    ensures
      var delay := DelayAfter(policy, urlLength, k, outcome);
      if outcome.Responded? && outcome.response.status == 429 && outcome.response.retryAfter.Some?
      then delay == outcome.response.retryAfter.value * 1_000_000_000
      else delay == BackoffMillis(policy, k, Word(k + 1) ^ (urlLength * 0x9e37)) * 1_000_000
  {
    hide BackoffMillis, Word;
  }

  lemma DelayBound(policy: RetryPolicy, urlLength: bv64, k: nat, outcome: Outcome)
    requires k + 1 < 0x1_0000_0000
    ensures DelayAfter(policy, urlLength, k, outcome) <= policy.maxDelay + Imposed(outcome)
  {
    hide BackoffMillis, Seed, UrlWord;
    BackoffWithinBounds(policy, k, Seed(k + 1, UrlWord(urlLength)));
  }

  /** `n` sleeps last at most `n * max_delay`, plus what `Retry-After` headers impose; without such
      headers that addend is zero. */
  lemma {:induction false} TotalDelayBound(policy: RetryPolicy, urlLength: bv64, script: Script, n: nat)
    requires n < 0x1_0000_0000
    ensures TotalDelay(policy, urlLength, script, n) <= n * policy.maxDelay + TotalImposed(script, n)
    ensures (forall k :: 0 <= k < n ==> !HasHint(script(k))) ==> TotalImposed(script, n) == 0
  {
    if n == 0 {
    } else {
      TotalDelayStep(policy, urlLength, script, n - 1);
      hide TotalDelay, DelayAfter, Imposed;
      TotalDelayBound(policy, urlLength, script, n - 1);
      DelayBound(policy, urlLength, n - 1, script(n - 1));
      assert n * policy.maxDelay == (n - 1) * policy.maxDelay + policy.maxDelay;
    }
  }

  // ---------------------------------------------------------------------------------------------
  // The loop
  // ---------------------------------------------------------------------------------------------

  class Client {
    const policy: RetryPolicy
    var requests: nat
    var slept: nat

    constructor (policy: RetryPolicy)
      ensures this.policy == policy && requests == 0 && slept == 0
    {
      this.policy, requests, slept := policy, 0, 0;
    }

    /** `execute_with_retry`. */
    method ExecuteWithRetry(script: Script, urlLength: bv64) returns (result: Result<Response, ClientError>)
      requires requests == 0 && slept == 0 && policy.maxAttempts < 0x1_0000_0000
      modifies this
      ensures IsSendCount(script, policy.maxAttempts, requests)
      ensures result == if requests == 0 then Err(Timeout) else ResultOf(script(requests - 1))
      ensures slept == if requests == 0 then 0 else TotalDelay(policy, urlLength, script, requests - 1)
    {
      hide BackoffMillis, Seed, UrlWord, TotalDelay, Detail, ResultOf;
      TotalDelayStep(policy, urlLength, script, 0);
      var lastError: Option<ClientError> := None;
      for attempt := 0 to policy.maxAttempts
        invariant requests == attempt
        invariant forall i :: 0 <= i < attempt ==> !IsFinal(script(i))
        invariant lastError.None? <==> attempt == 0
        invariant attempt > 0 ==> ResultOf(script(attempt - 1)) == Err(lastError.value)
        invariant slept == if attempt == 0 then 0 else TotalDelay(policy, urlLength, script, attempt - 1)
      {
        if attempt > 0 {
          HintIsKept(script(attempt - 1));
          TotalDelayStep(policy, urlLength, script, attempt - 1);
          var seed := Seed(attempt, UrlWord(urlLength));
          var delay;
          if lastError.Some? && lastError.value.RateLimited? && lastError.value.retryAfter.Some? {
            delay := lastError.value.retryAfter.value;
          } else {
            delay := BackoffMillis(policy, attempt - 1, seed) * NANOS_PER_MILLI;
          }
          slept := slept + delay;
        }
        requests := requests + 1;
        ResultOfMeaning(script(attempt));
        match script(attempt) {
          case TimedOut =>
            lastError := Some(Timeout);
          case ConnectOrRequestError(error) =>
            lastError := Some(Network(error));
          case OtherTransportError(error) =>
            return Err(Network(error));
          case Responded(response) =>
            if IsSuccess(response.status) {
              return Ok(response);
            }
            var hint := if response.status == 429 then response.retryAfter else None;
            var err := MapErrorResponse(response);
            if err.RateLimited? {
              err := RateLimited(if hint.Some? then Some(hint.value * NANOS_PER_SECOND) else None);
            }
            if !IsRetriableStatus(response.status) {
              return Err(err);
            }
            lastError := Some(err);
        }
      }
      return Err(if lastError.Some? then lastError.value else Timeout);
    }
  }
}

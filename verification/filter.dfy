/** The filter's control flow (`doFilterInternal`, `doFilterWrapped`,
    `wrapRequest`, `wrapResponse`): an async re-dispatch goes straight down
    the chain; any other exchange is wrapped in caching wrappers, passed down
    the chain, and then, in a `finally` block, logged (request first, then
    response under the request's endpoint) and its held-back response body
    copied to the client. The effects are recorded as an event trace. */
module Filter {
  import opened Base
  import opened Bodies
  import opened Records

  /** A servlet request as the filter receives it: the container's own, or a
      `ContentCachingRequestWrapper` around another request. */
  datatype RequestHandle = ContainerRequest(id: nat) | CachingRequest(inner: RequestHandle)

  /** A servlet response: the container's own, or a
      `ContentCachingResponseWrapper` around another response. */
  datatype ResponseHandle = ContainerResponse(id: nat) | CachingResponse(inner: ResponseHandle)

  /** Lines 136-138: a request that already is a caching wrapper is used as
      it is; any other request is wrapped once. */
  function WrapRequest(request: RequestHandle): (w: RequestHandle)
    ensures w.CachingRequest?
    ensures w == request || w.inner == request
    ensures request.CachingRequest? ==> w == request
  {
    if request.CachingRequest? then request else CachingRequest(request)
  }

  /** Lines 140-142: the same for responses. */
  function WrapResponse(response: ResponseHandle): (w: ResponseHandle)
    ensures w.CachingResponse?
    ensures w == response || w.inner == response
    ensures response.CachingResponse? ==> w == response
  {
    if response.CachingResponse? then response else CachingResponse(response)
  }

  /** Wrapping is idempotent: a wrapped request or response is never wrapped
      a second time. */
  lemma WrapIdempotent(request: RequestHandle, response: ResponseHandle)
    ensures WrapRequest(WrapRequest(request)) == WrapRequest(request)
    ensures WrapResponse(WrapResponse(response)) == WrapResponse(response)
  {
  }

  /** What the rest of the filter chain did, which the filter cannot see
      into: how it finished, and what the caching wrappers report once it has
      run (the bytes it read and wrote, headers, status, content types). */
  datatype ChainOutcome = ChainOutcome(completion: Completion, request: RequestView, response: ResponseView)

  /** The library calls the filter relies on, outside the model. */
  datatype Libraries = Libraries(decode: Decoder, reason: ReasonPhrases)

  /** The filter's observable effects, in order. */
  datatype Event =
    | ChainCall(request: RequestHandle, response: ResponseHandle)  // `filterChain.doFilter(request, response)`
    | LogInfo(record: LogRecord)                                   // `log.info(json)`
    | CopyBodyToResponse(response: ResponseHandle, body: seq<byte>) // the held-back body goes to the client

  // ---------------------------------------------------------------------
  // Specification

  /** The `finally` block of lines 49-53, given what building the request
      record and the response record yields: log the request, log the
      response, copy the held-back body to the client. An exception in a step
      ends the block there, so the later steps do not happen. */
  function Cleanup(response: ResponseHandle, body: seq<byte>, requestLog: Result<LogRecord>, responseLog: Result<LogRecord>): (r: (Completion, seq<Event>))
    ensures r.0.Normal? <==> requestLog.Ok? && responseLog.Ok?
    ensures r.0.Raised? ==> r.0.exception == if requestLog.Err? then requestLog.error else responseLog.error
    ensures |r.1| == if requestLog.Err? then 0 else if responseLog.Err? then 1 else 3
    ensures |r.1| > 0 ==> r.1[0] == LogInfo(requestLog.value)
  {
    match requestLog
    case Err(e) => (Raised(e), [])
    case Ok(logged) =>
      match responseLog
      case Err(e) => (Raised(e), [LogInfo(logged)])
      case Ok(responseLogged) =>
        (Normal, [LogInfo(logged), LogInfo(responseLogged), CopyBodyToResponse(response, body)])
  }

  /** `doFilterWrapped` (lines 42-54): the chain call, then the `finally`
      block. When the block finishes normally the chain's own completion
      (normal or its exception) stands; an exception thrown by the block
      replaces it. */
  function Wrapped(request: RequestHandle, response: ResponseHandle, chain: Completion, body: seq<byte>,
                   requestLog: Result<LogRecord>, responseLog: Result<LogRecord>): (r: (Completion, seq<Event>))
    ensures 1 <= |r.1| <= 4 && r.1[0] == ChainCall(request, response)
    ensures requestLog.Ok? && responseLog.Ok? ==> r.0 == chain
    ensures !(requestLog.Ok? && responseLog.Ok?) ==> r.0.Raised?
  {
    var (finished, events) := Cleanup(response, body, requestLog, responseLog);
    (if finished.Raised? then finished else chain, [ChainCall(request, response)] + events)
  }

  /** What `logRequest` makes of the request the chain has seen. */
  function RequestLogOf(outcome: ChainOutcome, libs: Libraries): Result<LogRecord>
  {
    RequestRecord(outcome.request, libs.decode)
  }

  /** What `logResponse` makes of the response, under the endpoint that
      `logRequest` returns when it returns. */
  function ResponseLogOf(outcome: ChainOutcome, libs: Libraries): Result<LogRecord>
  {
    var endpoint := Endpoint(outcome.request.httpMethod, outcome.request.requestUri, outcome.request.queryString);
    ResponseRecord(outcome.response, endpoint, libs.decode, libs.reason)
  }

  /** `doFilterInternal` (lines 30-40). */
  function Exchange(request: RequestHandle, response: ResponseHandle, asyncDispatch: bool, outcome: ChainOutcome, libs: Libraries): (r: (Completion, seq<Event>))
    ensures |r.1| >= 1
    ensures r.1[0] == if asyncDispatch then ChainCall(request, response) else ChainCall(WrapRequest(request), WrapResponse(response))
    ensures asyncDispatch ==> r == (outcome.completion, [ChainCall(request, response)])
  {
    if asyncDispatch then (outcome.completion, [ChainCall(request, response)])
    else
      Wrapped(WrapRequest(request), WrapResponse(response), outcome.completion, outcome.response.content,
              RequestLogOf(outcome, libs), ResponseLogOf(outcome, libs))
  }

  /** Logging succeeds: both bodies render and the status code is known. */
  predicate LoggingSucceeds(outcome: ChainOutcome, libs: Libraries)
  {
    && LogBody(outcome.request.content, outcome.request.contentType, outcome.request.characterEncoding, libs.decode).Ok?
    && libs.reason(outcome.response.status).Some?
    && LogBody(outcome.response.content, outcome.response.contentType, outcome.response.characterEncoding, libs.decode).Ok?
  }

  // ---------------------------------------------------------------------
  // Properties of the finally block

  /** `Cleanup` case by case. */
  lemma CleanupCases(response: ResponseHandle, body: seq<byte>, requestLog: Result<LogRecord>, responseLog: Result<LogRecord>)
    ensures Cleanup(response, body, requestLog, responseLog) ==
      if requestLog.Err? then (Raised(requestLog.error), [])
      else if responseLog.Err? then (Raised(responseLog.error), [LogInfo(requestLog.value)])
      else (Normal, [LogInfo(requestLog.value), LogInfo(responseLog.value), CopyBodyToResponse(response, body)])
  {
  }

  /** `Wrapped` case by case. */
  lemma WrappedCases(request: RequestHandle, response: ResponseHandle, chain: Completion, body: seq<byte>,
                     requestLog: Result<LogRecord>, responseLog: Result<LogRecord>)
    ensures Wrapped(request, response, chain, body, requestLog, responseLog) ==
      if requestLog.Err? then (Raised(requestLog.error), [ChainCall(request, response)])
      else if responseLog.Err? then (Raised(responseLog.error), [ChainCall(request, response), LogInfo(requestLog.value)])
      else (chain, [ChainCall(request, response), LogInfo(requestLog.value), LogInfo(responseLog.value), CopyBodyToResponse(response, body)])
  {
    match requestLog
    case Err(e) =>
      assert Cleanup(response, body, requestLog, responseLog) == (Raised(e), []);
      assert [ChainCall(request, response)] + [] == [ChainCall(request, response)];
    case Ok(logged) =>
      match responseLog
      case Err(e) =>
        assert Cleanup(response, body, requestLog, responseLog) == (Raised(e), [LogInfo(logged)]);
        assert [ChainCall(request, response)] + [LogInfo(logged)] == [ChainCall(request, response), LogInfo(logged)];
      case Ok(responseLogged) =>
        var events := [LogInfo(logged), LogInfo(responseLogged), CopyBodyToResponse(response, body)];
        assert Cleanup(response, body, requestLog, responseLog) == (Normal, events);
        assert [ChainCall(request, response)] + events ==
          [ChainCall(request, response), LogInfo(logged), LogInfo(responseLogged), CopyBodyToResponse(response, body)];
  }

  /** The shape of a wrapped exchange, for any outcome of building the two
      records: the chain is called once and first; the request log, if any,
      comes next and the response log, if any, after it; the body is copied
      to the client exactly when both records are built, and then the chain's
      completion stands; otherwise the first failure is raised. */
  lemma WrappedShape(request: RequestHandle, response: ResponseHandle, chain: Completion, body: seq<byte>,
                     requestLog: Result<LogRecord>, responseLog: Result<LogRecord>)
    ensures var (c, events) := Wrapped(request, response, chain, body, requestLog, responseLog);
      && 1 <= |events| <= 4
      && events[0] == ChainCall(request, response)
      && (forall i :: 1 <= i < |events| ==> !events[i].ChainCall?)
      && (|events| >= 2 <==> requestLog.Ok?)
      && (|events| >= 2 ==> events[1] == LogInfo(requestLog.value))
      && (|events| >= 3 <==> requestLog.Ok? && responseLog.Ok?)
      && (|events| >= 3 ==> events[2] == LogInfo(responseLog.value))
      && (events[|events| - 1].CopyBodyToResponse? <==> requestLog.Ok? && responseLog.Ok?)
      && (events[|events| - 1].CopyBodyToResponse? ==> events[|events| - 1] == CopyBodyToResponse(response, body) && c == chain)
      && (requestLog.Err? ==> c == Raised(requestLog.error))
      && (requestLog.Ok? && responseLog.Err? ==> c == Raised(responseLog.error))
  {
  }

  /** The two records of an exchange: the request record is built exactly
      when the request body renders, the response record exactly when the
      status code is known and the response body renders, and the response
      record carries the request record's endpoint. */
  lemma RecordsOfExchange(outcome: ChainOutcome, libs: Libraries)
    ensures var rq, rs := RequestLogOf(outcome, libs), ResponseLogOf(outcome, libs);
      && (rq.Ok? && rs.Ok? <==> LoggingSucceeds(outcome, libs))
      && (rq.Ok? ==> rq.value.RequestLog?)
      && (rs.Ok? ==> rs.value.ResponseLog?)
      && (rq.Ok? && rs.Ok? ==> rs.value.endpoint == rq.value.endpoint)
  {
  }

  /** Building a record fails only with the filter's own exceptions, never
      with one the chain could have thrown. */
  lemma RecordFailuresAreOwn(outcome: ChainOutcome, libs: Libraries)
    ensures var rq, rs := RequestLogOf(outcome, libs), ResponseLogOf(outcome, libs);
      && (rq.Err? ==> !rq.error.DownstreamException?)
      && (rs.Err? ==> !rs.error.DownstreamException?)
  {
  }

  // ---------------------------------------------------------------------
  // Properties of an exchange

  /** An async re-dispatch calls the chain with the request and response as
      given, logs nothing and copies nothing; the chain's completion stands. */
  lemma AsyncDispatchPassesThrough(request: RequestHandle, response: ResponseHandle, outcome: ChainOutcome, libs: Libraries)
    ensures Exchange(request, response, true, outcome, libs) == (outcome.completion, [ChainCall(request, response)])
  {
  }

  /** Whenever logging succeeds, whether the chain returned or threw, the
      effects are exactly: the chain call on the wrappers, one request log,
      one response log under the endpoint the request log returned, and one
      copy of the held-back response body; the chain's completion then
      propagates unchanged. */
  lemma CleanupRunsInOrder(request: RequestHandle, response: ResponseHandle, outcome: ChainOutcome, libs: Libraries)
    requires LoggingSucceeds(outcome, libs)
    ensures var (c, events) := Exchange(request, response, false, outcome, libs);
      var endpoint := Endpoint(outcome.request.httpMethod, outcome.request.requestUri, outcome.request.queryString);
      && c == outcome.completion
      && |events| == 4
      && events[0] == ChainCall(WrapRequest(request), WrapResponse(response))
      && events[1].LogInfo? && events[1].record.RequestLog? && events[1].record.endpoint == endpoint
      && events[2].LogInfo? && events[2].record.ResponseLog? && events[2].record.endpoint == endpoint
      && events[3] == CopyBodyToResponse(WrapResponse(response), outcome.response.content)
  {
    RecordsOfExchange(outcome, libs);
    WrappedShape(WrapRequest(request), WrapResponse(response), outcome.completion, outcome.response.content,
                 RequestLogOf(outcome, libs), ResponseLogOf(outcome, libs));
  }

  /** Whatever happens, the chain is called exactly once and first, then at
      most a request log and a response log under the same endpoint, and the
      body is copied to the client exactly when logging succeeds, in which
      case the chain's completion stands; otherwise the filter raises its own
      exception (a malformed or null content type, a charset lookup failure
      or an unknown status code), never the chain's. */
  lemma TraceShape(request: RequestHandle, response: ResponseHandle, outcome: ChainOutcome, libs: Libraries)
    ensures var (c, events) := Exchange(request, response, false, outcome, libs);
      && 1 <= |events| <= 4
      && events[0] == ChainCall(WrapRequest(request), WrapResponse(response))
      && (forall i :: 1 <= i < |events| ==> !events[i].ChainCall?)
      && (|events| >= 2 ==> events[1].LogInfo? && events[1].record.RequestLog?)
      && (|events| >= 3 ==> events[2].LogInfo? && events[2].record.ResponseLog? && events[2].record.endpoint == events[1].record.endpoint)
      && (events[|events| - 1].CopyBodyToResponse? <==> LoggingSucceeds(outcome, libs))
      && (LoggingSucceeds(outcome, libs) ==> c == outcome.completion)
      && (!LoggingSucceeds(outcome, libs) ==> c.Raised? && !c.exception.DownstreamException?)
  {
    RecordsOfExchange(outcome, libs);
    RecordFailuresAreOwn(outcome, libs);
    WrappedShape(WrapRequest(request), WrapResponse(response), outcome.completion, outcome.response.content,
                 RequestLogOf(outcome, libs), ResponseLogOf(outcome, libs));
  }

  /** A failure while building the request log replaces the chain's
      completion, logs nothing and leaves the response body held back. */
  lemma RequestLogFailure(request: RequestHandle, response: ResponseHandle, outcome: ChainOutcome, libs: Libraries)
    requires LogBody(outcome.request.content, outcome.request.contentType, outcome.request.characterEncoding, libs.decode).Err?
    ensures Exchange(request, response, false, outcome, libs) ==
      (Raised(LogBody(outcome.request.content, outcome.request.contentType, outcome.request.characterEncoding, libs.decode).error),
       [ChainCall(WrapRequest(request), WrapResponse(response))])
  {
    WrappedCases(WrapRequest(request), WrapResponse(response), outcome.completion, outcome.response.content,
                 RequestLogOf(outcome, libs), ResponseLogOf(outcome, libs));
  }

  /** An unknown status code: the request is logged, then the status lookup
      throws, so there is no response log and no copy to the client. */
  lemma UnknownStatusSkipsCopy(request: RequestHandle, response: ResponseHandle, outcome: ChainOutcome, libs: Libraries)
    requires LogBody(outcome.request.content, outcome.request.contentType, outcome.request.characterEncoding, libs.decode).Ok?
    requires libs.reason(outcome.response.status).None?
    ensures var (c, events) := Exchange(request, response, false, outcome, libs);
      && c == Raised(UnknownStatus(outcome.response.status))
      && |events| == 2 && events[1].LogInfo? && events[1].record.RequestLog?
  {
  }

  /** Empty bodies never make logging fail: with nothing captured either way
      and a known status code, the exchange is logged and its completion is
      the chain's, whatever the content types and the decoder. */
  lemma EmptyBodiesAlwaysLogged(request: RequestHandle, response: ResponseHandle, outcome: ChainOutcome, libs: Libraries)
    requires |outcome.request.content| == 0 && |outcome.response.content| == 0
    requires libs.reason(outcome.response.status).Some?
    ensures var (c, events) := Exchange(request, response, false, outcome, libs);
      c == outcome.completion && |events| == 4
  {
    CleanupRunsInOrder(request, response, outcome, libs);
  }

  // ---------------------------------------------------------------------
  // The filter, step by step

  /** One filter invocation's view of the world: the events it has caused. */
  class FilterRun {
    var events: seq<Event>

    constructor ()
      ensures events == []
    {
      events := [];
    }

    /** `filterChain.doFilter(request, response)`. */
    method CallChain(request: RequestHandle, response: ResponseHandle, outcome: ChainOutcome) returns (c: Completion)
      modifies this
      ensures events == old(events) + [ChainCall(request, response)]
      ensures c == outcome.completion
    {
      events := events + [ChainCall(request, response)];
      c := outcome.completion;
    }

    /** `logRequest` (lines 56-85): logs the request record and returns its
      endpoint, or throws before logging anything. */
    method LogRequest(request: RequestView, libs: Libraries) returns (endpoint: Result<string>)
      modifies this
      ensures endpoint.Ok? <==> RequestRecord(request, libs.decode).Ok?
      ensures endpoint.Ok? ==> endpoint.value == Endpoint(request.httpMethod, request.requestUri, request.queryString)
      ensures endpoint.Ok? ==> events == old(events) + [LogInfo(RequestRecord(request, libs.decode).value)]
      ensures endpoint.Err? ==> events == old(events) && endpoint.error == RequestRecord(request, libs.decode).error
    {
      var record := RequestRecord(request, libs.decode);
      match record
      case Err(e) =>
        endpoint := Err(e);
      case Ok(log) =>
        events := events + [LogInfo(log)];
        endpoint := Ok(log.endpoint);
    }

    /** `logResponse` (lines 87-115): logs the response record under the given
      endpoint, or throws before logging anything. */
    method LogResponse(response: ResponseView, endpoint: string, libs: Libraries) returns (c: Completion)
      modifies this
      ensures c.Normal? <==> ResponseRecord(response, endpoint, libs.decode, libs.reason).Ok?
      ensures c.Normal? ==> events == old(events) + [LogInfo(ResponseRecord(response, endpoint, libs.decode, libs.reason).value)]
      ensures c.Raised? ==> events == old(events) && c.exception == ResponseRecord(response, endpoint, libs.decode, libs.reason).error
    {
      var record := ResponseRecord(response, endpoint, libs.decode, libs.reason);
      match record
      case Err(e) =>
        c := Raised(e);
      case Ok(log) =>
        events := events + [LogInfo(log)];
        c := Normal;
    }

    /** `response.copyBodyToResponse()`: the held-back body goes to the client. */
    method CopyBody(response: ResponseHandle, body: seq<byte>)
      modifies this
      ensures events == old(events) + [CopyBodyToResponse(response, body)]
    {
      events := events + [CopyBodyToResponse(response, body)];
    }

    /** Lines 51-52: log the response under the request's endpoint, then copy
      the held-back body to the client; an exception from logging skips the
      copy. */
    method LogResponseThenCopy(response: ResponseHandle, outcome: ChainOutcome, endpoint: string, libs: Libraries) returns (finished: Completion)
      modifies this
      ensures match ResponseRecord(outcome.response, endpoint, libs.decode, libs.reason)
        case Err(e) => finished == Raised(e) && events == old(events)
        case Ok(logged) =>
          finished == Normal && events == old(events) + [LogInfo(logged), CopyBodyToResponse(response, outcome.response.content)]
    {
      finished := LogResponse(outcome.response, endpoint, libs);
      if finished.Normal? {
        CopyBody(response, outcome.response.content);
      }
    }

    /** The `finally` block (lines 49-53). */
    method Finally(response: ResponseHandle, outcome: ChainOutcome, libs: Libraries) returns (finished: Completion)
      modifies this
      ensures var (completion, trace) := Cleanup(response, outcome.response.content, RequestLogOf(outcome, libs), ResponseLogOf(outcome, libs));
        finished == completion && events == old(events) + trace
    {
      ghost var requestLog, responseLog := RequestLogOf(outcome, libs), ResponseLogOf(outcome, libs);
      CleanupCases(response, outcome.response.content, requestLog, responseLog);
      var endpoint := LogRequest(outcome.request, libs);
      if endpoint.Err? {
        finished := Raised(endpoint.error);
      } else {
        finished := LogResponseThenCopy(response, outcome, endpoint.value, libs);
        if finished.Normal? {
          assert events == old(events) + [LogInfo(requestLog.value), LogInfo(responseLog.value), CopyBodyToResponse(response, outcome.response.content)];
        }
      }
    }

    /** `doFilterWrapped` (lines 42-54): an exception from the `finally` block
      replaces the chain's completion. */
    method DoFilterWrapped(request: RequestHandle, response: ResponseHandle, outcome: ChainOutcome, libs: Libraries) returns (c: Completion)
      modifies this
      ensures var (completion, trace) :=
        Wrapped(request, response, outcome.completion, outcome.response.content, RequestLogOf(outcome, libs), ResponseLogOf(outcome, libs));
        c == completion && events == old(events) + trace
    {
      var chain := CallChain(request, response, outcome);
      var finished := Finally(response, outcome, libs);
      c := if finished.Raised? then finished else chain;
    }

    /** `doFilterInternal` (lines 30-40). */
    method DoFilterInternal(request: RequestHandle, response: ResponseHandle, asyncDispatch: bool, outcome: ChainOutcome, libs: Libraries)
      returns (c: Completion)
      modifies this
      ensures var (completion, trace) := Exchange(request, response, asyncDispatch, outcome, libs);
        c == completion && events == old(events) + trace
    {
      if asyncDispatch {
        c := CallChain(request, response, outcome);
      } else {
        c := DoFilterWrapped(WrapRequest(request), WrapResponse(response), outcome, libs);
      }
    }
  }
}

# Request and response logging filter, modelled in Dafny

This project models the servlet filter `RequestAndResponseLoggingFilter` of a
Spring Boot sample application. The filter wraps each HTTP exchange in
content-caching wrappers and lets the rest of the filter chain run. Then, in a
`finally` block, it:

1. writes one structured log line for the request;
2. writes one for the response, under the same endpoint string;
3. copies the held-back response body to the client.

A body is rendered as text only when its declared content type is "visible":
`text/*`, `application/json`, `application/xml`, `application/*+json` or
`application/*+xml`. Any other body is replaced by the placeholder
`"<N> bytes content"`. An empty body is always logged as empty text. A
rendered body that is not blank and whose content-type header contains
`application/json` is logged as a parsed JSON tree.

Modules, one per concern:

- `Base` (`base.dfy`): optional values for Java's `null`, bytes, and the
  exceptions that can leave the filter. A call that can throw yields
  `Result`; a completion is `Normal` or `Raised`.
- `Text` (`text.dfy`): the `String` operations the filter and the media-type
  parser use: `indexOf`, `lastIndexOf`, `contains`, `trim`, ASCII lower-casing
  and decimal rendering of an `Int`.
- `MediaTypes` (`media_types.dfy`): `MediaType.valueOf` (type and subtype),
  `MimeType.includes`, the `VISIBLE_TYPES` list and the visibility test.
  - Media-type syntax follows section 3.1.1.1 of RFC 7231.
  - Tokens follow section 3.2.6 of RFC 7230.
  - `*+json` and `*+xml` are the structured-syntax suffixes of section 4.2.8
    of RFC 6838.
- `Bodies` (`body.dfy`): `getContentByte`, the empty-body guard and the
  choice between a parsed-JSON body and a string body.
- `Records` (`records.dfy`): the endpoint string, the header mapping built by
  `associateWith` (an insertion-ordered map), the status line, and the
  request and response records.
- `Filter` (`filter.dfy`): `wrapRequest`, `wrapResponse`, `doFilterWrapped`
  and `doFilterInternal`.
  - Functions specify the event trace of one exchange: chain call, log lines,
    copy of the body.
  - The class `FilterRun` performs these steps one at a time, appending to
    its `events` field. Each method is proved against those functions.

Library behaviour the filter relies on is passed in as function values: the
charset decoder (`Bodies.Decoder`) and `HttpStatus.valueOf(code).reasonPhrase`
(`Records.ReasonPhrases`). What the downstream chain did is an input
(`Filter.ChainOutcome`): how it completed, and what the wrappers captured.

## Error paths and quirks of the code

- **Malformed or missing content type.** `MediaType.valueOf` throws on a
  malformed content type, and a null content type with a non-empty body
  throws too. Nothing catches either exception.
- **Unknown charset.** `charset(name)` throws `IllegalCharsetNameException` or
  `UnsupportedCharsetException`. The filter catches only
  `UnsupportedEncodingException`, so an unknown or illegal charset name
  propagates.
- **Unknown status code.** `HttpStatus.valueOf` throws on a status code it
  does not know, so the response log is never built.
- **Exceptions in the cleanup.** Any of the exceptions above is thrown inside
  the `finally` block. It ends the block at that step, so the response log
  and the copy to the client may not happen. It replaces the chain's own
  exception.
- **JSON body choice.** The code tests whether the raw content-type header
  contains the substring `application/json`, not whether the media type is
  JSON, and the test is case-sensitive:
  - `application/json-seq` is hidden, yet its placeholder is handed to the
    JSON parser.
  - `Application/JSON` and `application/vnd.api+json` are visible, but their
    bodies stay strings.

## Model

| member | source | states |
|---|---|---|
| MediaTypes.ParseMediaType | src/main/kotlin/com/example/demo/filter/RequestAndResponseLoggingFilter.kt:118 | every media type `valueOf` accepts has non-empty lower-case token type and subtype, and a wildcard type only in `*/*` |
| MediaTypes.ParseBare | src/main/kotlin/com/example/demo/filter/RequestAndResponseLoggingFilter.kt:118 | a bare `type/subtype` of lower-case tokens parses to exactly that type and subtype |
| MediaTypes.ParseIgnoresCase | src/main/kotlin/com/example/demo/filter/RequestAndResponseLoggingFilter.kt:118 | a content type and its lower-cased spelling parse to the same media type (or both are rejected) |
| MediaTypes.ParseIgnoresParameters | src/main/kotlin/com/example/demo/filter/RequestAndResponseLoggingFilter.kt:118 | whatever follows the first `;` does not change the parsed type and subtype |
| MediaTypes.ParseWithParameters | src/main/kotlin/com/example/demo/filter/RequestAndResponseLoggingFilter.kt:118 | `type/subtype;parameters` of lower-case tokens parses to that type and subtype |
| MediaTypes.Includes | src/main/kotlin/com/example/demo/filter/RequestAndResponseLoggingFilter.kt:119 | `includes` is reflexive, a wildcard type includes everything, and otherwise only media types of the pattern's own type are included; the lemmas below give each pattern kind exactly |
| MediaTypes.AnyMatch | src/main/kotlin/com/example/demo/filter/RequestAndResponseLoggingFilter.kt:119 | `anyMatch` is true exactly when some pattern of the list includes the media type |
| MediaTypes.VisibleTypes | src/main/kotlin/com/example/demo/filter/RequestAndResponseLoggingFilter.kt:21-27 | the list holds five patterns, each a well-formed media type (lower-case tokens) with a concrete type |
| MediaTypes.IsVisible | src/main/kotlin/com/example/demo/filter/RequestAndResponseLoggingFilter.kt:119 | visible exactly when `text/...`, or `application/` with subtype `json`, `xml`, or ending in `+json` or `+xml` |
| MediaTypes.ClassifyContentType | src/main/kotlin/com/example/demo/filter/RequestAndResponseLoggingFilter.kt:118-119 | throws `InvalidMediaType` of the header exactly when it does not parse; visible exactly when some pattern of the list includes the parsed type: a visible verdict has a witness pattern and a hidden one has none |
| MediaTypes.IncludesWildcardSubtype | src/main/kotlin/com/example/demo/filter/RequestAndResponseLoggingFilter.kt:22 | `type/*` includes exactly the media types of that type |
| MediaTypes.IncludesExact | src/main/kotlin/com/example/demo/filter/RequestAndResponseLoggingFilter.kt:23-24 | a pattern without wildcards includes exactly itself |
| MediaTypes.SuffixAfterLastPlus | src/main/kotlin/com/example/demo/filter/RequestAndResponseLoggingFilter.kt:25-26 | the text after the last `+` of a subtype is a `+`-free suffix exactly when the subtype ends in `+suffix` |
| MediaTypes.SuffixPattern | src/main/kotlin/com/example/demo/filter/RequestAndResponseLoggingFilter.kt:25-26 | `*+suffix` is a wildcard subtype whose last `+` is its second character |
| MediaTypes.IncludesSuffix | src/main/kotlin/com/example/demo/filter/RequestAndResponseLoggingFilter.kt:25-26 | `type/*+suffix` includes exactly the media types of that type whose subtype ends in `+suffix` |
| MediaTypes.VisibleIff | src/main/kotlin/com/example/demo/filter/RequestAndResponseLoggingFilter.kt:21-27 | some of the five patterns includes a media type exactly when it is `text/...`, or `application/` with subtype `json`, `xml`, or ending in `+json` or `+xml` |
| MediaTypes.VisibleTypesSpelled | src/main/kotlin/com/example/demo/filter/RequestAndResponseLoggingFilter.kt:21-27 | `valueOf` of `text/*`, `application/*+json` and `application/*+xml` (lines 22, 25, 26) yields exactly the first, fourth and fifth pattern of the list |
| MediaTypes.VisibleExamples | src/main/kotlin/com/example/demo/filter/RequestAndResponseLoggingFilter.kt:21-27 | `text/plain`, `application/json`, `application/vnd.api+json` are visible; `application/octet-stream` is not |
| MediaTypes.ClassifyBare | src/main/kotlin/com/example/demo/filter/RequestAndResponseLoggingFilter.kt:118-119 | a header `type/subtype;parameters` classifies as visible exactly under the rule of `VisibleIff` |
| Text.ContainsAt | src/main/kotlin/com/example/demo/filter/RequestAndResponseLoggingFilter.kt:74 | `contains` holds exactly when the substring occurs at some position |
| Text.DecimalRoundTrip | src/main/kotlin/com/example/demo/filter/RequestAndResponseLoggingFilter.kt:127 | the decimal spelling of a count reads back as the count |
| Bodies.Placeholder | src/main/kotlin/com/example/demo/filter/RequestAndResponseLoggingFilter.kt:131-132 | the placeholder ends in ` bytes content` after a non-empty count |
| Bodies.PlaceholderNamesSize | src/main/kotlin/com/example/demo/filter/RequestAndResponseLoggingFilter.kt:126-127 | the byte count can be read back out of the placeholder |
| Bodies.PlaceholderNotBlank | src/main/kotlin/com/example/demo/filter/RequestAndResponseLoggingFilter.kt:131-132 | the placeholder is never empty or blank |
| Bodies.GetContentByte | src/main/kotlin/com/example/demo/filter/RequestAndResponseLoggingFilter.kt:117-134 | hidden type gives the placeholder; visible type gives the decoded text, the placeholder on `UnsupportedEncodingException`, and throws on a failed charset lookup; a malformed type throws |
| Bodies.RenderBody | src/main/kotlin/com/example/demo/filter/RequestAndResponseLoggingFilter.kt:64-67 | empty capture gives `""`; a non-empty capture with a null content type throws; any other string is the placeholder or the decoder's text for a visible type |
| Bodies.ChooseBody | src/main/kotlin/com/example/demo/filter/RequestAndResponseLoggingFilter.kt:74-78 | parsed as JSON exactly when the text is not blank and the raw header contains `application/json`; otherwise the text unchanged |
| Bodies.LogBody | src/main/kotlin/com/example/demo/filter/RequestAndResponseLoggingFilter.kt:64-78 | empty capture gives empty text; fails exactly when rendering fails, with its exception |
| Bodies.EmptyBodyIsEmptyText | src/main/kotlin/com/example/demo/filter/RequestAndResponseLoggingFilter.kt:94-97 | an empty capture is logged as empty text whatever the content type (even null or malformed) and whatever the decoder |
| Bodies.HiddenBodyIsPlaceholder | src/main/kotlin/com/example/demo/filter/RequestAndResponseLoggingFilter.kt:130-133 | a non-empty hidden body is logged as exactly the placeholder, kept as text unless the header contains `application/json` |
| Bodies.VisibleBodyIsDecoded | src/main/kotlin/com/example/demo/filter/RequestAndResponseLoggingFilter.kt:121-129 | a non-empty visible body is logged as its decoded text, the placeholder on `UnsupportedEncodingException`, or the charset failure propagates |
| Bodies.VendorJsonStaysText | src/main/kotlin/com/example/demo/filter/RequestAndResponseLoggingFilter.kt:105-109 | a body declared `application/vnd.api+json` stays a string |
| Bodies.UpperCaseJsonStaysText | src/main/kotlin/com/example/demo/filter/RequestAndResponseLoggingFilter.kt:74 | a body declared `Application/JSON` stays a string |
| Bodies.JsonSeqParsesPlaceholder | src/main/kotlin/com/example/demo/filter/RequestAndResponseLoggingFilter.kt:105-106 | `application/json-seq` is hidden, yet its placeholder is handed to the JSON parser |
| Bodies.JsonBodyIsParsed | src/main/kotlin/com/example/demo/filter/RequestAndResponseLoggingFilter.kt:74-75 | a non-blank body declared `application/json` (with any parameters) is parsed; a blank one stays a string |
| Records.EndpointRoundTrip | src/main/kotlin/com/example/demo/filter/RequestAndResponseLoggingFilter.kt:57-58 | method, request URI and query string (present or not) are read back from the endpoint string |
| Records.EndpointExamples | src/main/kotlin/com/example/demo/filter/RequestAndResponseLoggingFilter.kt:57-58 | `GET /?a=1&b=2` for a query string, `POST /` without one |
| Records.Endpoint | src/main/kotlin/com/example/demo/filter/RequestAndResponseLoggingFilter.kt:57-58 | method, one space, request URI, then `?` and the query string exactly when one is present (even an empty one) |
| Records.Put | src/main/kotlin/com/example/demo/filter/RequestAndResponseLoggingFilter.kt:60-62 | a new key goes last; an existing key keeps its place and takes the new value; the map stays well-formed |
| Records.AssociateWith | src/main/kotlin/com/example/demo/filter/RequestAndResponseLoggingFilter.kt:60-62 | the result lists each key once and exactly the keys with a value |
| Records.AssociateWithValues | src/main/kotlin/com/example/demo/filter/RequestAndResponseLoggingFilter.kt:60-62 | exactly one key per enumerated name, each mapped to the function's value for it |
| Records.AssociateWithOrder | src/main/kotlin/com/example/demo/filter/RequestAndResponseLoggingFilter.kt:60-62 | keys come in the order the names were first enumerated |
| Records.RepeatedNameChangesNothing | src/main/kotlin/com/example/demo/filter/RequestAndResponseLoggingFilter.kt:60-62 | a name enumerated again overwrites its entry with the same value in the same place |
| Records.PutSame | src/main/kotlin/com/example/demo/filter/RequestAndResponseLoggingFilter.kt:60-62 | putting a key's own value back leaves the map as it was |
| Records.HeaderMap | src/main/kotlin/com/example/demo/filter/RequestAndResponseLoggingFilter.kt:90-92 | one key per header name, valued `getHeader(name)` (null when absent), in first-enumeration order |
| Records.StatusLine | src/main/kotlin/com/example/demo/filter/RequestAndResponseLoggingFilter.kt:88-89 | throws `UnknownStatus` exactly when the code has no reason phrase |
| Records.StatusLineNamesCode | src/main/kotlin/com/example/demo/filter/RequestAndResponseLoggingFilter.kt:103 | before the first space stand the decimal digits of the code, after it the reason phrase |
| Records.RequestRecord | src/main/kotlin/com/example/demo/filter/RequestAndResponseLoggingFilter.kt:56-81 | fails exactly when the body fails, with its exception; otherwise the record holds the endpoint, the header map of `HeaderMap` (one key per name) and the body of `LogBody`; an empty body never fails |
| Records.ResponseRecord | src/main/kotlin/com/example/demo/filter/RequestAndResponseLoggingFilter.kt:87-112 | an unknown status throws first; otherwise fails exactly when the body fails; otherwise the record holds the given endpoint, the status line of `StatusLine`, the header map of `HeaderMap` and the body of `LogBody` |
| Filter.WrapRequest | src/main/kotlin/com/example/demo/filter/RequestAndResponseLoggingFilter.kt:136-138 | the result is a caching wrapper: the request itself if already one, else a wrapper around it |
| Filter.WrapResponse | src/main/kotlin/com/example/demo/filter/RequestAndResponseLoggingFilter.kt:140-142 | the same for responses |
| Filter.WrapIdempotent | src/main/kotlin/com/example/demo/filter/RequestAndResponseLoggingFilter.kt:136-142 | wrapping twice is wrapping once |
| Filter.Cleanup | src/main/kotlin/com/example/demo/filter/RequestAndResponseLoggingFilter.kt:49-53 | the finally block finishes normally exactly when both records are built; otherwise it raises the first failure; it logs 0, 1 or 3 events, the request log first |
| Filter.Wrapped | src/main/kotlin/com/example/demo/filter/RequestAndResponseLoggingFilter.kt:42-54 | the chain is called first; one to four events; the chain's completion stands when both records are built, otherwise an exception is raised |
| Filter.Exchange | src/main/kotlin/com/example/demo/filter/RequestAndResponseLoggingFilter.kt:30-40 | the first event calls the chain, on the originals for an async re-dispatch (which then does nothing else) and on the wrappers otherwise |
| Filter.WrappedShape | src/main/kotlin/com/example/demo/filter/RequestAndResponseLoggingFilter.kt:47-53 | chain called once and first; request log, then response log, then copy, each only if all before it succeeded; copy exactly when both logs succeed, and then the chain's completion stands; otherwise the first failure is raised |
| Filter.RecordsOfExchange | src/main/kotlin/com/example/demo/filter/RequestAndResponseLoggingFilter.kt:50-51 | both records build exactly when logging succeeds, and the response record carries the request record's endpoint |
| Filter.RecordFailuresAreOwn | src/main/kotlin/com/example/demo/filter/RequestAndResponseLoggingFilter.kt:50-51 | building a record fails only with the filter's own exceptions |
| Filter.AsyncDispatchPassesThrough | src/main/kotlin/com/example/demo/filter/RequestAndResponseLoggingFilter.kt:35-36 | an async re-dispatch calls the chain with the original request and response and logs nothing |
| Filter.CleanupRunsInOrder | src/main/kotlin/com/example/demo/filter/RequestAndResponseLoggingFilter.kt:47-53 | when logging succeeds, whether the chain returned or threw: chain call, request log, response log under the same endpoint, copy of the captured body, and the chain's completion propagates |
| Filter.TraceShape | src/main/kotlin/com/example/demo/filter/RequestAndResponseLoggingFilter.kt:42-54 | for every exchange: chain once and first, then at most one request log and one response log with the same endpoint, the copy exactly when logging succeeds; a logging failure raises the filter's own exception, never the chain's |
| Filter.RequestLogFailure | src/main/kotlin/com/example/demo/filter/RequestAndResponseLoggingFilter.kt:50 | a request body that fails to render replaces the chain's completion, and nothing is logged or copied |
| Filter.UnknownStatusSkipsCopy | src/main/kotlin/com/example/demo/filter/RequestAndResponseLoggingFilter.kt:89 | an unknown status code raises after the request log, with no response log and no copy |
| Filter.EmptyBodiesAlwaysLogged | src/main/kotlin/com/example/demo/filter/RequestAndResponseLoggingFilter.kt:64-67 | with empty bodies and a known status, both logs and the copy happen and the chain's completion stands |
| Filter.FilterRun.CallChain | src/main/kotlin/com/example/demo/filter/RequestAndResponseLoggingFilter.kt:48 | appends the chain call and yields the chain's completion |
| Filter.FilterRun.LogRequest | src/main/kotlin/com/example/demo/filter/RequestAndResponseLoggingFilter.kt:56-85 | logs the request record and returns its endpoint, or throws having logged nothing |
| Filter.FilterRun.LogResponse | src/main/kotlin/com/example/demo/filter/RequestAndResponseLoggingFilter.kt:87-115 | logs the response record under the given endpoint, or throws having logged nothing |
| Filter.FilterRun.CopyBody | src/main/kotlin/com/example/demo/filter/RequestAndResponseLoggingFilter.kt:52 | appends the copy of the held-back body |
| Filter.FilterRun.LogResponseThenCopy | src/main/kotlin/com/example/demo/filter/RequestAndResponseLoggingFilter.kt:51-52 | response log then copy; a failing response log skips the copy |
| Filter.FilterRun.Finally | src/main/kotlin/com/example/demo/filter/RequestAndResponseLoggingFilter.kt:49-53 | performs exactly the events of `Cleanup` and finishes as it does |
| Filter.FilterRun.DoFilterWrapped | src/main/kotlin/com/example/demo/filter/RequestAndResponseLoggingFilter.kt:42-54 | performs exactly the events of `Wrapped` and completes as it does |
| Filter.FilterRun.DoFilterInternal | src/main/kotlin/com/example/demo/filter/RequestAndResponseLoggingFilter.kt:30-40 | performs exactly the events of `Exchange` and completes as it does |

## Left out

- The caching wrappers' internals: how `ContentCachingRequestWrapper` and
  `ContentCachingResponseWrapper` tee and buffer the body, and how
  `copyBodyToResponse` replays it. These are Spring library code. The
  captured bytes are an input, and the copy is an event carrying those bytes.
- `OncePerRequestFilter`: its once-per-request guard is not part of this
  model. `isAsyncDispatch` is a boolean input.
- JVM charset decoding: an abstract function of the bytes and the character
  encoding the wrapper reports. It may return any text, including empty text.
- `RequestView.characterEncoding` and `ResponseView.characterEncoding` are
  never null: the caching request wrapper falls back to ISO-8859-1, and a
  servlet response always reports an encoding. A null encoding would make
  Kotlin's null check on the argument throw before `getContentByte` runs;
  that path is not modelled.
- `HttpStatus.valueOf(code).reasonPhrase`: an abstract lookup.
- Jackson:
  - `writeValueAsString` is not modelled; a record is a structured value.
  - `readTree` is not modelled; a parsed body keeps the text it was parsed
    from.
  - Failures of either are not modelled.
- SLF4J: `log.info` is an event in the trace. The logger configuration and
  the output format are not part of this model.
- `ParseMediaType`: parameters after the first `;` are skipped without being
  checked. Spring's own parameter checks are not modelled, so a header that
  Spring rejects for a bad parameter (for instance an unknown `charset`
  value) is classified here by its type and subtype alone.
- `RenderBody`: a null content type with a non-empty body is modelled as
  throwing `NullContentType`, the null check on the platform-typed argument
  at line 66 or 96. The JVM exception class is not modelled.
- `Endpoint`: the request URI is taken as reported by the servlet container,
  without decoding or normalisation.
- Controllers (`SampleController.kt`, `HealthCheckController.kt`) and the
  filter registration (`FilterConfig.kt`) are not part of this model: they
  hold no logic of the filter.
- Concurrency: none. Each exchange's state is local to one `FilterRun`.

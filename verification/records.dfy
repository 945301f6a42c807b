/** The structured log records `logRequest` and `logResponse` build: the
    endpoint string that correlates a request with its response, the header
    mapping, the status line, and the rendered body. Records are values; their
    serialisation to JSON text is not part of this model. */
module Records {
  import opened Base
  import opened Text
  import opened Bodies

  /** What the caching request wrapper reports once the chain has run. */
  datatype RequestView = RequestView(
    httpMethod: string,
    requestUri: string,
    queryString: Option<string>,
    headerNames: seq<string>,
    headers: map<string, string>,   // what `getHeader(name)` returns; absent means null
    content: seq<byte>,             // the bytes the chain read, as captured
    contentType: Option<string>,
    characterEncoding: string)

  /** What the caching response wrapper reports once the chain has run. */
  datatype ResponseView = ResponseView(
    status: int,
    headerNames: seq<string>,
    headers: map<string, string>,
    content: seq<byte>,             // the bytes the chain wrote, held back from the client
    contentType: Option<string>,
    characterEncoding: string)

  /** An insertion-ordered map (a LinkedHashMap, which `associateWith`
      builds): the keys in the order they were first put, and their values. */
  datatype LinkedMap<V> = LinkedMap(order: seq<string>, values: map<string, V>)

  /** One log record, before serialisation. */
  datatype LogRecord =
    | RequestLog(endpoint: string, header: LinkedMap<Option<string>>, body: Body)
    | ResponseLog(endpoint: string, status: string, header: LinkedMap<Option<string>>, body: Body)

  // ---------------------------------------------------------------------
  // Endpoint

  /** Lines 57-58: method, one space, request URI, then `?` and the query
      string when there is one (even an empty one) and nothing otherwise. */
  function Endpoint(httpMethod: string, requestUri: string, queryString: Option<string>): (r: string)
    ensures httpMethod + " " + requestUri <= r
    ensures queryString.None? ==> |r| == |httpMethod| + 1 + |requestUri|
    ensures queryString.Some? ==> r[|httpMethod| + 1 + |requestUri|..] == "?" + queryString.value
  {
    var query := match queryString case Some(q) => "?" + q case None => "";
    httpMethod + " " + requestUri + query
  }

  /** Reads an endpoint string back: method up to the first space, request URI
      up to the first `?`, and the query string after it. */
  function SplitEndpoint(endpoint: string): Option<(string, string, Option<string>)>
  {
    var sp := IndexOf(endpoint, ' ');
    if sp < 0 then None
    else
      var httpMethod, rest := endpoint[..sp], endpoint[sp + 1..];
      var q := IndexOf(rest, '?');
      if q < 0 then Some((httpMethod, rest, None))
      else Some((httpMethod, rest[..q], Some(rest[q + 1..])))
  }

  /** The endpoint string loses nothing: an HTTP method has no space and a
      request URI carries no `?` (the query string is reported apart), so
      method, URI and query string can be read back from it. */
  lemma EndpointRoundTrip(httpMethod: string, requestUri: string, queryString: Option<string>)
    requires ' ' !in httpMethod && '?' !in requestUri
    ensures SplitEndpoint(Endpoint(httpMethod, requestUri, queryString)) == Some((httpMethod, requestUri, queryString))
  {
    var query := match queryString case Some(q) => "?" + q case None => "";
    var e := Endpoint(httpMethod, requestUri, queryString);
    assert e == httpMethod + [' '] + (requestUri + query);
    IndexOfAfter(httpMethod, ' ', requestUri + query);
    assert e[..|httpMethod|] == httpMethod;
    var rest := e[|httpMethod| + 1..];
    assert rest == requestUri + query;
    match queryString
    case None =>
      assert rest == requestUri;
    case Some(q) =>
      assert rest == requestUri + ['?'] + q;
      IndexOfAfter(requestUri, '?', q);
      assert rest[..|requestUri|] == requestUri;
      assert rest[|requestUri| + 1..] == q;
  }

  /** `GET /?a=1&b=2` is logged with endpoint `GET /?a=1&b=2`; with no query
      string nothing follows the URI. */
  lemma EndpointExamples()
    ensures Endpoint("GET", "/", Some("a=1&b=2")) == "GET /?a=1&b=2"
    ensures Endpoint("POST", "/", None) == "POST /"
  {
  }

  // ---------------------------------------------------------------------
  // Header mapping

  /** The keys are listed once each and are exactly the keys with a value. */
  ghost predicate ValidMap<V>(m: LinkedMap<V>)
  {
    && (forall i, j :: 0 <= i < j < |m.order| ==> m.order[i] != m.order[j])
    && (forall k :: k in m.order <==> k in m.values)
  }

  /** `LinkedHashMap.put`: a new key goes last; a key already present keeps
      its place and its value is overwritten. */
  function Put<V>(m: LinkedMap<V>, key: string, value: V): (r: LinkedMap<V>)
    requires ValidMap(m)
    ensures ValidMap(r)
    ensures r.values == m.values[key := value]
    ensures r.order == if key in m.values then m.order else m.order + [key]
  {
    LinkedMap(if key in m.values then m.order else m.order + [key], m.values[key := value])
  }

  /** `names.asSequence().associateWith(f)`: puts `f(name)` for each name in
      enumeration order. */
  function AssociateWith<V>(names: seq<string>, f: string -> V): (r: LinkedMap<V>)
    ensures ValidMap(r)
  {
    if |names| == 0 then LinkedMap([], map[])
    else
      var last := names[|names| - 1];
      Put(AssociateWith(names[..|names| - 1], f), last, f(last))
  }

  /** The position of the first occurrence of `x` in `s`. */
  function FirstIndex(s: seq<string>, x: string): (r: nat)
    requires x in s
    ensures r < |s| && s[r] == x
    ensures forall j :: 0 <= j < r ==> s[j] != x
  {
    if s[0] == x then 0 else 1 + FirstIndex(s[1..], x)
  }

  /** Appending to a sequence leaves the first occurrences in it alone. */
  lemma FirstIndexPrefix(s: seq<string>, x: string, y: string)
    requires y in s
    ensures FirstIndex(s + [x], y) == FirstIndex(s, y)
  {
    assert (s + [x])[FirstIndex(s, y)] == y;
  }

  /** The header mapping has exactly one key per distinct header name, and
      each key's value is the function's value for that name. */
  lemma {:induction false} AssociateWithValues<V>(names: seq<string>, f: string -> V)
    ensures var r := AssociateWith(names, f);
      && (forall k :: k in r.values <==> k in names)
      && (forall k :: k in r.values ==> r.values[k] == f(k))
  {
    if |names| > 0 {
      var p, last := names[..|names| - 1], names[|names| - 1];
      assert names == p + [last];
      AssociateWithValues(p, f);
    }
  }

  /** The keys of `m` come in the order their names were first enumerated. */
  ghost predicate OrderedByFirst<V>(names: seq<string>, m: LinkedMap<V>)
  {
    && (forall k :: k in m.order ==> k in names)
    && (forall i, j :: 0 <= i < j < |m.order| ==> FirstIndex(names, m.order[i]) < FirstIndex(names, m.order[j]))
  }

  /** Appending a new name to the enumeration and its key to the order keeps
      the order by first enumeration. */
  lemma OrderedByFirstAppend(p: seq<string>, last: string, order: seq<string>)
    requires last !in p
    requires forall k :: k in order ==> k in p
    requires forall i, j :: 0 <= i < j < |order| ==> FirstIndex(p, order[i]) < FirstIndex(p, order[j])
    ensures forall i, j :: 0 <= i < j < |order + [last]| ==>
      FirstIndex(p + [last], (order + [last])[i]) < FirstIndex(p + [last], (order + [last])[j])
  {
    var names, o := p + [last], order + [last];
    assert FirstIndex(names, last) == |p|;
    forall i, j | 0 <= i < j < |o|
      ensures FirstIndex(names, o[i]) < FirstIndex(names, o[j])
    {
      assert o[i] == order[i];
      FirstIndexPrefix(p, last, o[i]);
      if j < |order| {
        assert o[j] == order[j];
        FirstIndexPrefix(p, last, o[j]);
      }
    }
  }

  /** The header mapping lists the names in the order of their first
      enumeration. */
  lemma {:induction false} AssociateWithOrder<V>(names: seq<string>, f: string -> V)
    ensures OrderedByFirst(names, AssociateWith(names, f))
  {
    if |names| > 0 {
      var p, last := names[..|names| - 1], names[|names| - 1];
      assert names == p + [last];
      AssociateWithOrder(p, f);
      AssociateWithValues(p, f);
      var r0 := AssociateWith(p, f);
      if last !in p {
        OrderedByFirstAppend(p, last, r0.order);
      } else {
        forall k | k in p ensures FirstIndex(names, k) == FirstIndex(p, k) {
          FirstIndexPrefix(p, last, k);
        }
      }
    }
  }

  /** A header name enumerated again adds nothing: its later association
      overwrites the earlier one with the same value, in the same place. */
  lemma RepeatedNameChangesNothing<V>(names: seq<string>, f: string -> V)
    requires |names| > 0 && names[|names| - 1] in names[..|names| - 1]
    ensures AssociateWith(names, f) == AssociateWith(names[..|names| - 1], f)
  {
    var p, last := names[..|names| - 1], names[|names| - 1];
    var r0 := AssociateWith(p, f);
    assert last in r0.values && r0.values[last] == f(last) by {
      AssociateWithValues(p, f);
    }
    PutSame(r0, last, f(last));
  }

  /** Putting a key's own value back changes nothing. */
  lemma PutSame<V>(m: LinkedMap<V>, key: string, value: V)
    requires ValidMap(m) && key in m.values && m.values[key] == value
    ensures Put(m, key, value) == m
  {
    assert m.values[key := value] == m.values;
  }

  /** `getHeader(name)`: the header's value, or null. */
  function GetHeader(headers: map<string, string>, name: string): Option<string>
  {
    if name in headers then Some(headers[name]) else None
  }

  /** Lines 60-62 (and 90-92): the header mapping of a request or response. */
  function HeaderMap(names: seq<string>, headers: map<string, string>): (r: LinkedMap<Option<string>>)
    ensures ValidMap(r)
    ensures forall k :: k in r.values <==> k in names
    ensures forall k :: k in r.values ==> r.values[k] == GetHeader(headers, k)
    ensures OrderedByFirst(names, r)
  {
    AssociateWithValues(names, name => GetHeader(headers, name));
    AssociateWithOrder(names, name => GetHeader(headers, name));
    AssociateWith(names, name => GetHeader(headers, name))
  }

  // ---------------------------------------------------------------------
  // Status line

  /** `HttpStatus.valueOf(code).reasonPhrase`, outside the model: the reason
      phrase of a known status code, `None` where `valueOf` throws. */
  type ReasonPhrases = int -> Option<string>

  /** Lines 88-89 and 103: `"<code> <reason phrase>"`; an unknown code throws. */
  function StatusLine(status: int, reason: ReasonPhrases): (r: Result<string>)
    ensures r.Err? <==> reason(status).None?
    ensures r.Err? ==> r.error == UnknownStatus(status)
  {
    match reason(status)
    case None => Err(UnknownStatus(status))
    case Some(phrase) => Ok(IntToDecimal(status) + " " + phrase)
  }

  /** The status line names the code and its reason phrase: before the first
      space stand the decimal digits of the code, after it the phrase. */
  lemma StatusLineNamesCode(status: nat, reason: ReasonPhrases)
    requires reason(status).Some?
    ensures var line := StatusLine(status, reason).value;
      var sp := IndexOf(line, ' ');
      && 0 < sp
      && (forall i :: 0 <= i < sp ==> IsDigit(line[i]))
      && DecimalValue(line[..sp]) == status
      && line[sp + 1..] == reason(status).value
  {
    var digits := NatToDecimal(status);
    var line := StatusLine(status, reason).value;
    assert line == digits + [' '] + reason(status).value;
    assert ' ' !in digits by {
      assert forall i :: 0 <= i < |digits| ==> IsDigit(digits[i]);
    }
    IndexOfAfter(digits, ' ', reason(status).value);
    assert line[..|digits|] == digits;
    DecimalRoundTrip(status);
  }

  // ---------------------------------------------------------------------
  // Records

  /** `logRequest` up to the log call (lines 56-81): the endpoint, the request
      headers and the request body; only rendering the body can throw. */
  function RequestRecord(request: RequestView, decode: Decoder): (r: Result<LogRecord>)
    ensures r.Err? <==> LogBody(request.content, request.contentType, request.characterEncoding, decode).Err?
    ensures r.Err? ==> r.error == LogBody(request.content, request.contentType, request.characterEncoding, decode).error
    ensures r.Ok? ==> r.value.RequestLog?
    ensures r.Ok? ==> r.value.endpoint == Endpoint(request.httpMethod, request.requestUri, request.queryString)
    ensures r.Ok? ==> forall k :: k in r.value.header.values <==> k in request.headerNames
    ensures r.Ok? ==> r.value.header == HeaderMap(request.headerNames, request.headers)
    ensures r.Ok? ==> r.value.body == LogBody(request.content, request.contentType, request.characterEncoding, decode).value
    ensures |request.content| == 0 ==> r.Ok? && r.value.body == Text("")
  {
    var endpoint := Endpoint(request.httpMethod, request.requestUri, request.queryString);
    var header := HeaderMap(request.headerNames, request.headers);
    match LogBody(request.content, request.contentType, request.characterEncoding, decode)
    case Err(e) => Err(e)
    case Ok(body) => Ok(RequestLog(endpoint, header, body))
  }

  /** `logResponse` up to the log call (lines 87-112): the status line (looked
      up first, so an unknown code throws before the body is rendered), the
      response headers and body, under the endpoint the request log returned. */
  function ResponseRecord(response: ResponseView, endpoint: string, decode: Decoder, reason: ReasonPhrases): (r: Result<LogRecord>)
    ensures r.Ok? ==> r.value.ResponseLog? && r.value.endpoint == endpoint
    ensures reason(response.status).None? ==> r == Err(UnknownStatus(response.status))
    ensures reason(response.status).Some? ==>
      (r.Err? <==> LogBody(response.content, response.contentType, response.characterEncoding, decode).Err?)
    ensures reason(response.status).Some? && r.Err? ==>
      r.error == LogBody(response.content, response.contentType, response.characterEncoding, decode).error
    ensures r.Ok? ==> forall k :: k in r.value.header.values <==> k in response.headerNames
    ensures r.Ok? ==> r.value.status == StatusLine(response.status, reason).value
    ensures r.Ok? ==> r.value.header == HeaderMap(response.headerNames, response.headers)
    ensures r.Ok? ==> r.value.body == LogBody(response.content, response.contentType, response.characterEncoding, decode).value
    ensures r.Ok? && |response.content| == 0 ==> r.value.body == Text("")
  {
    match StatusLine(response.status, reason)
    case Err(e) => Err(e)
    case Ok(status) =>
      var header := HeaderMap(response.headerNames, response.headers);
      match LogBody(response.content, response.contentType, response.characterEncoding, decode)
      case Err(e) => Err(e)
      case Ok(body) => Ok(ResponseLog(endpoint, status, header, body))
  }
}

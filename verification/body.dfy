/** How the filter turns a captured body into the `body` field of a log
    record: an empty capture is logged as empty text; otherwise the bytes are
    decoded when the content type is visible and replaced by a byte count when
    it is not; decoded text whose content type names `application/json` is
    logged as a parsed JSON tree. */
module Bodies {
  import opened Base
  import opened Text
  import opened MediaTypes

  /** What `String(content, charset(encoding))` does with the captured bytes. */
  datatype Decoding =
    | Decoded(text: string)  // returns the decoded text
    | UnsupportedEncoding    // throws UnsupportedEncodingException, which the filter catches
    | CharsetUnavailable     // throws from `charset(encoding)`; the filter does not catch this

  /** The JVM's charsets, outside the model: captured bytes and the
      character encoding the wrapper reports to a decoding outcome. The caching
      wrappers always report an encoding (ISO-8859-1 when none is declared). */
  type Decoder = (seq<byte>, string) -> Decoding

  /** The `body` field of a log record: the rendered text, either kept as a
      string or handed to `readTree` and logged as a JSON tree. */
  datatype Body = Text(text: string) | ParsedJson(source: string)

  /** The redaction placeholder `"<N> bytes content"`. */
  function Placeholder(size: nat): (r: string)
    ensures EndsWith(r, " bytes content")
    ensures |r| > |" bytes content"|
  {
    NatToDecimal(size) + " bytes content"
  }

  /** Reads the byte count back out of a placeholder. */
  function PlaceholderSize(s: string): Option<nat>
  {
    var k := |s| - |" bytes content"|;
    if k <= 0 || !EndsWith(s, " bytes content") then None
    else if exists i :: 0 <= i < k && !IsDigit(s[i]) then None
    else Some(DecimalValue(s[..k]))
  }

  /** The placeholder names exactly the number of bytes that were captured. */
  lemma PlaceholderNamesSize(size: nat)
    ensures PlaceholderSize(Placeholder(size)) == Some(size)
  {
    var s := Placeholder(size);
    var digits := NatToDecimal(size);
    assert s[..|digits|] == digits;
    DecimalRoundTrip(size);
  }

  /** `getContentByte` (lines 117-134): parse the content type (throwing on a
      malformed one); for a visible type decode the bytes, falling back to the
      placeholder when decoding throws UnsupportedEncodingException; for any
      other type give the placeholder. */
  function GetContentByte(content: seq<byte>, contentType: string, encoding: string, decode: Decoder): (r: Result<string>)
    ensures r.Err? <==>
      || ClassifyContentType(contentType).Err?
      || (ClassifyContentType(contentType) == Ok(true) && decode(content, encoding) == CharsetUnavailable)
    ensures ClassifyContentType(contentType) == Ok(false) ==> r == Ok(Placeholder(|content|))
    ensures ClassifyContentType(contentType) == Ok(true) ==>
      match decode(content, encoding)
      case Decoded(text) => r == Ok(text)
      case UnsupportedEncoding => r == Ok(Placeholder(|content|))
      case CharsetUnavailable => r == Err(CharsetLookupFailure)
    ensures r.Err? && ParseMediaType(contentType).None? ==> r.error == InvalidMediaType(contentType)
    ensures r.Err? ==> r.error == InvalidMediaType(contentType) || r.error == CharsetLookupFailure
  {
    match ClassifyContentType(contentType)
    case Err(e) => Err(e)
    case Ok(visible) =>
      if visible then
        match decode(content, encoding)
        case Decoded(text) => Ok(text)
        case UnsupportedEncoding => Ok(Placeholder(|content|))
        case CharsetUnavailable => Err(CharsetLookupFailure)
      else Ok(Placeholder(|content|))
  }

  /** The body string of lines 64-67 (and 94-97): empty for an empty capture,
      without looking at the content type or the decoder; otherwise what
      `getContentByte` makes of it, where a null content type throws (Kotlin's
      null check on the platform-typed argument). */
  function RenderBody(content: seq<byte>, contentType: Option<string>, encoding: string, decode: Decoder): (r: Result<string>)
    ensures |content| == 0 ==> r == Ok("")
    ensures |content| > 0 && contentType.None? ==> r == Err(NullContentType)
    ensures |content| > 0 && r.Ok? ==>
      contentType.Some? && ClassifyContentType(contentType.value).Ok? &&
      (|| r.value == Placeholder(|content|)
       || (ClassifyContentType(contentType.value) == Ok(true) && decode(content, encoding) == Decoded(r.value)))
    ensures r.Err? ==> r.error.NullContentType? || r.error.InvalidMediaType? || r.error.CharsetLookupFailure?
  {
    if |content| == 0 then Ok("")
    else
      match contentType
      case None => Err(NullContentType)
      case Some(ct) => GetContentByte(content, ct, encoding, decode)
  }

  /** Kotlin's `Char.isWhitespace()` on the JVM: Java's whitespace characters
      together with its space characters. */
  predicate IsWhitespace(c: char)
  {
    || ('\t' <= c <= '\r') || ('\U{1C}' <= c <= ' ')
    || c == '\U{A0}' || c == '\U{1680}' || ('\U{2000}' <= c <= '\U{200A}')
    || c == '\U{2028}' || c == '\U{2029}' || c == '\U{202F}' || c == '\U{205F}' || c == '\U{3000}'
  }

  /** `s.isBlank()`: empty or whitespace only. */
  predicate IsBlank(s: string)
  {
    forall i :: 0 <= i < |s| ==> IsWhitespace(s[i])
  }

  /** Lines 74-78 (and 105-109): a non-blank body whose raw content-type string
      contains `application/json` is parsed as JSON; anything else stays the
      rendered string. The test is a case-sensitive substring test on the raw
      header, not a media-type match. */
  function ChooseBody(rendered: string, contentType: string): (b: Body)
    ensures b.ParsedJson? <==> !IsBlank(rendered) && Contains(contentType, "application/json")
    ensures b == Text(rendered) || b == ParsedJson(rendered)
  {
    if !IsBlank(rendered) && Contains(contentType, "application/json") then ParsedJson(rendered)
    else Text(rendered)
  }

  /** The `body` field of a record built from a capture. */
  function LogBody(content: seq<byte>, contentType: Option<string>, encoding: string, decode: Decoder): (r: Result<Body>)
    ensures |content| == 0 ==> r == Ok(Text(""))
    ensures r.Err? <==> RenderBody(content, contentType, encoding, decode).Err?
    ensures r.Err? ==> r.error == RenderBody(content, contentType, encoding, decode).error
    ensures r.Err? ==> r.error.NullContentType? || r.error.InvalidMediaType? || r.error.CharsetLookupFailure?
  {
    match RenderBody(content, contentType, encoding, decode)
    case Err(e) => Err(e)
    case Ok(s) =>
      // an empty body is blank, so `contentType.contains` is never evaluated
      if |content| == 0 then Ok(Text(s)) else Ok(ChooseBody(s, contentType.value))
  }

  // ---------------------------------------------------------------------
  // Properties of the rendered body

  /** A zero-length capture is logged as empty text whatever its content type
      (null and malformed ones included) and whatever the decoder would do. */
  lemma EmptyBodyIsEmptyText(contentType: Option<string>, encoding: string, d1: Decoder, d2: Decoder)
    ensures LogBody([], contentType, encoding, d1) == LogBody([], contentType, encoding, d2) == Ok(Text(""))
  {
  }

  /** The placeholder is never empty and never blank: it starts with a digit. */
  lemma PlaceholderNotBlank(size: nat)
    ensures !IsBlank(Placeholder(size))
  {
    var p := Placeholder(size);
    assert p[0] == NatToDecimal(size)[0];
    assert !IsWhitespace(p[0]);
  }

  /** A non-empty capture with a hidden content type is logged as exactly the
      placeholder, kept as a string unless the raw header contains
      `application/json`. */
  lemma HiddenBodyIsPlaceholder(content: seq<byte>, contentType: string, encoding: string, decode: Decoder)
    requires |content| > 0 && ClassifyContentType(contentType) == Ok(false)
    ensures LogBody(content, Some(contentType), encoding, decode) == Ok(ChooseBody(Placeholder(|content|), contentType))
    ensures !Contains(contentType, "application/json") ==>
      LogBody(content, Some(contentType), encoding, decode) == Ok(Text(Placeholder(|content|)))
    ensures Contains(contentType, "application/json") ==>
      LogBody(content, Some(contentType), encoding, decode) == Ok(ParsedJson(Placeholder(|content|)))
  {
    PlaceholderNotBlank(|content|);
  }

  /** A non-empty capture with a visible content type is logged as its decoded
      text (parsed as JSON when the header names `application/json` and the
      text is not blank); when decoding throws UnsupportedEncodingException the
      placeholder is logged instead, and a failing charset lookup propagates. */
  lemma VisibleBodyIsDecoded(content: seq<byte>, contentType: string, encoding: string, decode: Decoder)
    requires |content| > 0 && ClassifyContentType(contentType) == Ok(true)
    ensures LogBody(content, Some(contentType), encoding, decode) ==
      match decode(content, encoding)
      case Decoded(text) => Ok(ChooseBody(text, contentType))
      case UnsupportedEncoding => Ok(ChooseBody(Placeholder(|content|), contentType))
      case CharsetUnavailable => Err(CharsetLookupFailure)
  {
  }

  /** A structured-syntax JSON type such as `application/vnd.api+json` is
      visible but does not contain the text `application/json`, so its body
      stays a string. */
  lemma VendorJsonStaysText(rendered: string)
    ensures ChooseBody(rendered, "application/vnd.api+json") == Text(rendered)
  {
    var s, sub := "application/vnd.api+json", "application/json";
    ContainsAt(s, sub);
    forall i | OccursAt(s, sub, i) ensures false {
      OccursAtChar(s, sub, i, 11);
      OccursAtChar(s, sub, i, 12);
    }
  }

  /** The JSON test is case-sensitive: a body declared `Application/JSON`, whose
      media type the classifier reads as `application/json`, stays a string. */
  lemma UpperCaseJsonStaysText(rendered: string)
    ensures ChooseBody(rendered, "Application/JSON") == Text(rendered)
  {
    var s, sub := "Application/JSON", "application/json";
    ContainsAt(s, sub);
    forall i | OccursAt(s, sub, i) ensures false {
      OccursAtChar(s, sub, i, 0);
    }
  }

  /** The JSON test is a substring test: `application/json-seq` is a hidden
      type, yet its header contains `application/json`, so the placeholder of
      a non-empty body is what gets parsed as JSON. */
  lemma JsonSeqParsesPlaceholder(size: nat)
    ensures !IsVisible(MediaType("application", "json-seq"))
    ensures ChooseBody(Placeholder(size), "application/json-seq") == ParsedJson(Placeholder(size))
  {
    VisibleIff(MediaType("application", "json-seq"));
    assert "json-seq"[3..] != "+json";
    assert "json-seq"[4..] != "+xml";
    var s, sub := "application/json-seq", "application/json";
    ContainsAt(s, sub);
    assert s[0..16] == sub;
    assert OccursAt(s, sub, 0);
    PlaceholderNotBlank(size);
  }

  /** A body declared as `application/json` (parameters allowed) is parsed
      unless it is blank. */
  lemma JsonBodyIsParsed(rendered: string, parameters: string)
    ensures ChooseBody(rendered, "application/json;" + parameters) ==
      if IsBlank(rendered) then Text(rendered) else ParsedJson(rendered)
  {
    assert "application/json" <= "application/json;" + parameters;
  }
}

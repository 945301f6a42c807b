/** The content classifier: which declared content types the filter renders
    as text. A content type is parsed the way `MediaType.valueOf` parses it
    (type and subtype; parameters are skipped) and is visible when one of the
    five `VISIBLE_TYPES` patterns includes it. Media-type syntax is that of
    section 3.1.1.1 of RFC 7231; the `*+json` and `*+xml` patterns are the
    structured-syntax suffixes of section 4.2.8 of RFC 6838. */
module MediaTypes {
  import opened Base
  import opened Text

  /** A parsed media type: lower-case type and subtype. */
  datatype MediaType = MediaType(mtype: string, subtype: string)

  /** A token character (`tchar`) of section 3.2.6 of RFC 7230: a letter, a
      digit, or one of the visible ASCII characters that are not separators. */
  predicate IsTokenChar(c: char)
  {
    || ('a' <= c <= 'z') || ('A' <= c <= 'Z') || ('0' <= c <= '9')
    || c == '!' || c == '#' || c == '$' || c == '%' || c == '&' || c == '\''
    || c == '*' || c == '+' || c == '-' || c == '.' || c == '^' || c == '_'
    || c == '`' || c == '|' || c == '~'
  }

  predicate IsToken(s: string)
  {
    forall i :: 0 <= i < |s| ==> IsTokenChar(s[i])
  }

  predicate HasNoUpper(s: string)
  {
    forall i :: 0 <= i < |s| ==> !IsAsciiUpper(s[i])
  }

  // What every parsed media type satisfies: non-empty lower-case tokens,
  // and a wildcard type only in `*/*`.
  predicate WellFormed(m: MediaType)
  {
    && |m.mtype| > 0 && IsToken(m.mtype) && HasNoUpper(m.mtype)
    && |m.subtype| > 0 && IsToken(m.subtype) && HasNoUpper(m.subtype)
    && (m.mtype == "*" ==> m.subtype == "*")
  }

  // `MediaType.valueOf(s)`; `None` where it throws InvalidMediaTypeException.
  // Everything from the first `;` on (the parameters) is skipped, the rest is
  // trimmed, a lone `*` reads as `*/*`, and type and subtype are split at the
  // first `/`, checked to be tokens and lower-cased.
  function ParseMediaType(s: string): (r: Option<MediaType>)
    ensures r.Some? ==> WellFormed(r.value)
  {
    ParseFullType(FullType(s))
  }

  // The `type/subtype` part of a content type: what precedes the first `;`,
  // trimmed, with a lone `*` read as `*/*`.
  function FullType(s: string): string
  {
    var semi := IndexOf(s, ';');
    var bare := Trim(if semi >= 0 then s[..semi] else s);
    if bare == "*" then "*/*" else bare
  }

  /** Splits `type/subtype` at the first `/` and checks both halves. */
  function ParseFullType(full: string): (r: Option<MediaType>)
    ensures r.Some? ==> WellFormed(r.value)
  {
    var slash := IndexOf(full, '/');
    if slash <= 0 || slash == |full| - 1 then None
    else
      var t, st := full[..slash], full[slash + 1..];
      if t == "*" && st != "*" then None
      else if !IsToken(t) || !IsToken(st) then None
      else
        LowerIsLower(t);
        LowerIsLower(st);
        LowerKeepsToken(t);
        LowerKeepsToken(st);
        LowerStar(t);
        LowerStar(st);
        Some(MediaType(Lower(t), Lower(st)))
  }

  /** `isWildcardSubtype()`: `*` or a `*+suffix` pattern. */
  predicate IsWildcardSubtype(st: string)
  {
    st == "*" || (|st| >= 2 && st[0] == '*' && st[1] == '+')
  }

  /** `pattern.includes(other)`: the wildcard type includes everything; otherwise
      the types must agree, and then the subtypes must agree, or the pattern's
      subtype is `*`, or it is `*+suffix` and `other`'s subtype carries the same
      suffix after its last `+`. */
  function Includes(pattern: MediaType, other: MediaType): (r: bool)
    ensures pattern == other ==> r
    ensures pattern.mtype == "*" ==> r
    ensures r ==> pattern.mtype == "*" || pattern.mtype == other.mtype
  {
    if pattern.mtype == "*" then true
    else if pattern.mtype != other.mtype then false
    else if pattern.subtype == other.subtype then true
    else if !IsWildcardSubtype(pattern.subtype) then false
    else
      var thisPlus := LastIndexOf(pattern.subtype, '+');
      if thisPlus == -1 then true
      else
        var otherPlus := LastIndexOf(other.subtype, '+');
        && otherPlus != -1
        && pattern.subtype[thisPlus + 1..] == other.subtype[otherPlus + 1..]
        && pattern.subtype[..thisPlus] == "*"
  }

  // `VISIBLE_TYPES`: text/*, application/json, application/xml,
  // application/*+json, application/*+xml, in that order; each a media type
  // `valueOf` or a `MediaType` constant can yield, none with a wildcard type.
  function VisibleTypes(): (r: seq<MediaType>)
    ensures |r| == 5
    ensures WellFormed(r[0]) && WellFormed(r[1]) && WellFormed(r[2]) && WellFormed(r[3]) && WellFormed(r[4])
    ensures r[0].mtype != "*" && r[1].mtype != "*" && r[2].mtype != "*" && r[3].mtype != "*" && r[4].mtype != "*"
  {
    ConcretePatternsWellFormed();
    WildcardPatternsWellFormed();
    [ MediaType("text", "*"),
      MediaType("application", "json"),
      MediaType("application", "xml"),
      MediaType("application", "*+json"),
      MediaType("application", "*+xml") ]
  }

  /** `patterns.stream().anyMatch { it.includes(m) }`. */
  function AnyMatch(patterns: seq<MediaType>, m: MediaType): (r: bool)
    ensures r <==> exists i :: 0 <= i < |patterns| && Includes(patterns[i], m)
  {
    if |patterns| == 0 then false
    else Includes(patterns[0], m) || AnyMatch(patterns[1..], m)
  }

  /** Line 119: some visible pattern includes `m`; that is, `m` is some
      `text/...`, or an `application/...` whose subtype is `json`, `xml`, or
      ends in `+json` or `+xml`. */
  function IsVisible(m: MediaType): (r: bool)
    ensures r <==>
      || m.mtype == "text"
      || (&& m.mtype == "application"
          && (|| m.subtype == "json" || m.subtype == "xml"
              || EndsWith(m.subtype, "+json") || EndsWith(m.subtype, "+xml")))
  {
    VisibleIff(m);
    AnyMatch(VisibleTypes(), m)
  }

  /** Lines 118-119 of the filter: parse the declared content type (which throws
      on a malformed one) and test it against the visible patterns. */
  function ClassifyContentType(contentType: string): (r: Result<bool>)
    ensures r.Err? <==> ParseMediaType(contentType).None?
    ensures r.Err? ==> r.error == InvalidMediaType(contentType)
    ensures r == Ok(true) ==> exists i :: 0 <= i < |VisibleTypes()| && Includes(VisibleTypes()[i], ParseMediaType(contentType).value)
    ensures r == Ok(false) ==> forall i :: 0 <= i < |VisibleTypes()| ==> !Includes(VisibleTypes()[i], ParseMediaType(contentType).value)
  {
    match ParseMediaType(contentType)
    case None => Err(InvalidMediaType(contentType))
    case Some(m) => Ok(IsVisible(m))
  }

  // ---------------------------------------------------------------------
  // The visible set, stated without the pattern machinery

  /** A `*+suffix` pattern matches exactly the subtypes that end in `+suffix`,
      for a suffix without `+` of its own. */
  lemma SuffixAfterLastPlus(st: string, suffix: string)
    requires '+' !in suffix
    ensures (var k := LastIndexOf(st, '+'); k != -1 && st[k + 1..] == suffix)
            <==> EndsWith(st, "+" + suffix)
  {
    var k := LastIndexOf(st, '+');
    var p := |st| - |suffix| - 1;
    if k != -1 && st[k + 1..] == suffix {
      assert st[p..] == [st[k]] + st[k + 1..];
    }
    if EndsWith(st, "+" + suffix) {
      assert st[p] == '+';
      assert forall j :: p < j < |st| ==> st[j] == suffix[j - p - 1];
      assert k == p;
      assert st[p..] == [st[p]] + st[p + 1..];
    }
  }

  // A `type/*` pattern includes every media type of that type.
  lemma IncludesWildcardSubtype(t: string, m: MediaType)
    requires t != "*"
    ensures Includes(MediaType(t, "*"), m) <==> m.mtype == t
  {
    assert LastIndexOf("*", '+') == -1;
  }

  /** A pattern without wildcards includes only itself. */
  lemma IncludesExact(p: MediaType, m: MediaType)
    requires p.mtype != "*" && !IsWildcardSubtype(p.subtype)
    ensures Includes(p, m) <==> m == p
  {
  }

  /** The shape of a `*+suffix` subtype: a wildcard whose last `+` is its
      second character. */
  lemma SuffixPattern(suffix: string)
    requires '+' !in suffix
    ensures IsWildcardSubtype("*+" + suffix)
    ensures LastIndexOf("*+" + suffix, '+') == 1
    ensures ("*+" + suffix)[2..] == suffix && ("*+" + suffix)[..1] == "*"
    ensures EndsWith("*+" + suffix, "+" + suffix)
  {
    var ps := "*+" + suffix;
    assert ps[1] == '+';
    assert forall j :: 1 < j < |ps| ==> ps[j] == suffix[j - 2];
    assert ps[1..] == "+" + suffix;
  }

  // A `type/*+suffix` pattern includes the media types of that type whose
  // subtype ends in `+suffix`.
  lemma IncludesSuffix(t: string, suffix: string, m: MediaType)
    requires t != "*" && '+' !in suffix
    ensures Includes(MediaType(t, "*+" + suffix), m) <==> m.mtype == t && EndsWith(m.subtype, "+" + suffix)
  {
    SuffixPattern(suffix);
    SuffixAfterLastPlus(m.subtype, suffix);
  }

  /** Some of the five patterns includes a media type exactly when it is some
      `text/...`, or an `application/...` whose subtype is `json`, `xml`, or
      ends in `+json` or `+xml`. */
  lemma VisibleIff(m: MediaType)
    ensures AnyMatch(VisibleTypes(), m) <==>
      || m.mtype == "text"
      || (&& m.mtype == "application"
          && (|| m.subtype == "json" || m.subtype == "xml"
              || EndsWith(m.subtype, "+json") || EndsWith(m.subtype, "+xml")))
  {
    AnyMatchFive(VisibleTypes(), m);
    IncludesWildcardSubtype("text", m);
    ExactPatterns(m);
    SuffixPatterns(m);
  }

  /** `anyMatch` over five patterns is the disjunction of the five tests. */
  lemma AnyMatchFive(ps: seq<MediaType>, m: MediaType)
    requires |ps| == 5
    ensures AnyMatch(ps, m) <==>
      || Includes(ps[0], m) || Includes(ps[1], m) || Includes(ps[2], m)
      || Includes(ps[3], m) || Includes(ps[4], m)
  {
  }

  lemma ExactPatterns(m: MediaType)
    ensures Includes(MediaType("application", "json"), m) <==> m == MediaType("application", "json")
    ensures Includes(MediaType("application", "xml"), m) <==> m == MediaType("application", "xml")
  {
    assert !IsWildcardSubtype("json") && !IsWildcardSubtype("xml");
    IncludesExact(MediaType("application", "json"), m);
    IncludesExact(MediaType("application", "xml"), m);
  }

  lemma SuffixPatterns(m: MediaType)
    ensures Includes(MediaType("application", "*+json"), m) <==> m.mtype == "application" && EndsWith(m.subtype, "+json")
    ensures Includes(MediaType("application", "*+xml"), m) <==> m.mtype == "application" && EndsWith(m.subtype, "+xml")
  {
    assert "*+" + "json" == "*+json" && "+" + "json" == "+json";
    assert "*+" + "xml" == "*+xml" && "+" + "xml" == "+xml";
    IncludesSuffix("application", "json", m);
    IncludesSuffix("application", "xml", m);
  }

  lemma TrimKeeps(s: string)
    requires |s| > 0 && !IsTrimmable(s[0]) && !IsTrimmable(s[|s| - 1])
    ensures Trim(s) == s
  {
  }

  /** A token holds no separator. */
  lemma TokenLacks(s: string, c: char)
    requires IsToken(s) && !IsTokenChar(c)
    ensures c !in s
  {
  }

  lemma NoUpperIsLower(s: string)
    requires HasNoUpper(s)
    ensures Lower(s) == s
  {
  }

  /** A bare `type/subtype` of tokens is its own full type: there are no
      parameters and nothing to trim. */
  lemma FullTypeBare(t: string, st: string)
    requires |t| > 0 && IsToken(t) && t != "*"
    requires |st| > 0 && IsToken(st)
    ensures FullType(t + "/" + st) == t + "/" + st
  {
    var s := t + "/" + st;
    TokenLacks(t, ';');
    TokenLacks(st, ';');
    assert ';' !in s;
    assert IndexOf(s, ';') == -1;
    assert IsTokenChar(s[0]) && IsTokenChar(s[|s| - 1]);
    TrimKeeps(s);
  }

  /** A bare `type/subtype` of lower-case tokens parses to itself. */
  lemma ParseBare(t: string, st: string)
    requires |t| > 0 && IsToken(t) && HasNoUpper(t) && t != "*"
    requires |st| > 0 && IsToken(st) && HasNoUpper(st)
    ensures ParseMediaType(t + "/" + st) == Some(MediaType(t, st))
  {
    var s := t + "/" + st;
    FullTypeBare(t, st);
    TokenLacks(t, '/');
    IndexOfAfter(t, '/', st);
    assert s[..|t|] == t && s[|t| + 1..] == st;
    NoUpperIsLower(t);
    NoUpperIsLower(st);
  }

  // The three patterns spelled out in lines 22, 25 and 26 are what
  // `MediaType.valueOf` makes of the strings `text/*`, `application/*+json`
  // and `application/*+xml` (written here as type, `/` and subtype). The
  // other two are the `MediaType` constants, built from type and subtype.
  lemma VisibleTypesSpelled()
    ensures ParseMediaType("text" + "/" + "*") == Some(VisibleTypes()[0])
    ensures ParseMediaType("application" + "/" + "*+json") == Some(VisibleTypes()[3])
    ensures ParseMediaType("application" + "/" + "*+xml") == Some(VisibleTypes()[4])
  {
    TextWildcardSpelled();
    JsonSuffixSpelled();
    XmlSuffixSpelled();
  }

  lemma TextWildcardSpelled()
    ensures ParseMediaType("text" + "/" + "*") == Some(MediaType("text", "*"))
  {
    WildcardPatternsWellFormed();
    ParseBare("text", "*");
  }

  lemma JsonSuffixSpelled()
    ensures ParseMediaType("application" + "/" + "*+json") == Some(MediaType("application", "*+json"))
  {
    WildcardPatternsWellFormed();
    ParseBare("application", "*+json");
  }

  lemma XmlSuffixSpelled()
    ensures ParseMediaType("application" + "/" + "*+xml") == Some(MediaType("application", "*+xml"))
  {
    WildcardPatternsWellFormed();
    ParseBare("application", "*+xml");
  }

  lemma ConcretePatternsWellFormed()
    ensures WellFormed(MediaType("application", "json")) && WellFormed(MediaType("application", "xml"))
  {
  }

  lemma WildcardPatternsWellFormed()
    ensures WellFormed(MediaType("text", "*"))
    ensures WellFormed(MediaType("application", "*+json")) && WellFormed(MediaType("application", "*+xml"))
  {
    SuffixPatternsAreTokens();
  }

  lemma SuffixPatternsAreTokens()
    ensures IsToken("*+json") && HasNoUpper("*+json") && IsToken("*+xml") && HasNoUpper("*+xml")
  {
  }

  /** `text/plain`, `application/json` and `application/vnd.api+json` are
      visible; `application/octet-stream` is not. */
  lemma VisibleExamples()
    ensures IsVisible(MediaType("text", "plain"))
    ensures IsVisible(MediaType("application", "json"))
    ensures IsVisible(MediaType("application", "vnd.api+json"))
    ensures !IsVisible(MediaType("application", "octet-stream"))
  {
    VisibleIff(MediaType("text", "plain"));
    VisibleIff(MediaType("application", "json"));
    VisibleIff(MediaType("application", "vnd.api+json"));
    assert "vnd.api+json"[7..] == "+json";
    VisibleIff(MediaType("application", "octet-stream"));
    assert "octet-stream"[7..] != "+json";
    assert "octet-stream"[8..] != "+xml";
  }

  /** A content type spelled `type/subtype;parameters` with lower-case tokens
      classifies as its media type does. */
  lemma ClassifyBare(t: string, st: string, parameters: string)
    requires |t| > 0 && IsToken(t) && HasNoUpper(t) && t != "*"
    requires |st| > 0 && IsToken(st) && HasNoUpper(st)
    ensures ClassifyContentType(t + "/" + st + ";" + parameters) == Ok(IsVisible(MediaType(t, st)))
    ensures IsVisible(MediaType(t, st)) <==>
      || t == "text"
      || (t == "application" && (st == "json" || st == "xml" || EndsWith(st, "+json") || EndsWith(st, "+xml")))
  {
    ParseWithParameters(t, st, parameters);
    VisibleIff(MediaType(t, st));
  }

  lemma ParseWithParameters(t: string, st: string, parameters: string)
    requires |t| > 0 && IsToken(t) && HasNoUpper(t) && t != "*"
    requires |st| > 0 && IsToken(st) && HasNoUpper(st)
    ensures ParseMediaType(t + "/" + st + ";" + parameters) == Some(MediaType(t, st))
  {
    ParseBare(t, st);
    TokenLacks(t, ';');
    TokenLacks(st, ';');
    assert ';' !in t + "/" + st;
    ParseIgnoresParameters(t + "/" + st, parameters);
  }

  // ---------------------------------------------------------------------
  // Case and parameters do not matter

  lemma LowerIsLower(s: string)
    ensures HasNoUpper(Lower(s))
  {
  }

  lemma LowerKeepsToken(s: string)
    ensures IsToken(Lower(s)) <==> IsToken(s)
  {
    if IsToken(s) {
      forall i | 0 <= i < |s| ensures IsTokenChar(Lower(s)[i]) {
        assert IsTokenChar(s[i]);
      }
    }
    if IsToken(Lower(s)) {
      forall i | 0 <= i < |s| ensures IsTokenChar(s[i]) {
        assert IsTokenChar(Lower(s)[i]);
      }
    }
  }

  /** Lower-casing leaves `*` and only `*` as `*`. */
  lemma LowerStar(s: string)
    ensures Lower(s) == "*" <==> s == "*"
  {
    if Lower(s) == "*" {
      assert Lower(s)[0] == AsciiLower(s[0]);
      assert s == [s[0]];
    }
  }

  lemma LowerTwice(s: string)
    ensures Lower(Lower(s)) == Lower(s)
  {
  }

  lemma LowerSlices(s: string, k: nat)
    requires k <= |s|
    ensures Lower(s)[..k] == Lower(s[..k])
    ensures Lower(s)[k..] == Lower(s[k..])
  {
  }

  /** Searching for a character that is not a letter ignores case. */
  lemma LowerIndexOf(s: string, c: char)
    requires !IsAsciiUpper(c) && !('a' <= c <= 'z')
    ensures IndexOf(Lower(s), c) == IndexOf(s, c)
  {
    var l := Lower(s);
    assert forall j :: 0 <= j < |s| ==> (l[j] == c <==> s[j] == c);
    var r1, r2 := IndexOf(l, c), IndexOf(s, c);
    if r2 == -1 {
      assert c !in l;
    } else {
      assert l[r2] == c;
      assert r1 != -1 && r1 <= r2;
      assert s[r1] == c;
    }
  }

  lemma {:induction false} LowerTrimStart(s: string)
    ensures TrimStart(Lower(s)) == Lower(TrimStart(s))
  {
    if |s| > 0 {
      assert Lower(s)[0] == AsciiLower(s[0]);
      assert Lower(s)[1..] == Lower(s[1..]);
      if IsTrimmable(s[0]) {
        LowerTrimStart(s[1..]);
      }
    }
  }

  lemma {:induction false} LowerTrimEnd(s: string)
    ensures TrimEnd(Lower(s)) == Lower(TrimEnd(s))
  {
    if |s| > 0 {
      assert Lower(s)[|s| - 1] == AsciiLower(s[|s| - 1]);
      assert Lower(s)[..|s| - 1] == Lower(s[..|s| - 1]);
      if IsTrimmable(s[|s| - 1]) {
        LowerTrimEnd(s[..|s| - 1]);
      }
    }
  }

  lemma LowerTrim(s: string)
    ensures Trim(Lower(s)) == Lower(Trim(s))
  {
    LowerTrimStart(s);
    LowerTrimEnd(TrimStart(s));
  }

  /** Type and subtype are compared case-insensitively: a content type and its
      lower-cased spelling parse to the same media type. */
  lemma ParseIgnoresCase(s: string)
    ensures ParseMediaType(Lower(s)) == ParseMediaType(s)
  {
    FullTypeIgnoresCase(s);
    ParseFullTypeIgnoresCase(FullType(s));
  }

  lemma FullTypeIgnoresCase(s: string)
    ensures FullType(Lower(s)) == Lower(FullType(s))
  {
    var l := Lower(s);
    LowerIndexOf(s, ';');
    var semi := IndexOf(s, ';');
    var part := if semi >= 0 then s[..semi] else s;
    if semi >= 0 {
      LowerSlices(s, semi);
    }
    assert (if semi >= 0 then l[..semi] else l) == Lower(part);
    LowerTrim(part);
    LowerStar(Trim(part));
    assert Lower("*/*") == "*/*";
  }

  lemma ParseFullTypeIgnoresCase(full: string)
    ensures ParseFullType(Lower(full)) == ParseFullType(full)
  {
    LowerIndexOf(full, '/');
    var slash := IndexOf(full, '/');
    if 0 < slash < |full| - 1 {
      var t, st := full[..slash], full[slash + 1..];
      LowerSlices(full, slash);
      LowerSlices(full, slash + 1);
      LowerStar(t);
      LowerStar(st);
      LowerKeepsToken(t);
      LowerKeepsToken(st);
      LowerTwice(t);
      LowerTwice(st);
    }
  }

  /** Parameters do not matter: whatever follows the first `;` is skipped. */
  lemma ParseIgnoresParameters(s: string, parameters: string)
    requires ';' !in s
    ensures ParseMediaType(s + ";" + parameters) == ParseMediaType(s)
  {
    IndexOfAfter(s, ';', parameters);
    assert (s + ";" + parameters)[..|s|] == s;
    assert FullType(s + ";" + parameters) == FullType(s);
  }
}

/**
 * The `verb:path` endpoint strings of the runtime controllers: splitting
 * them at the first colon, the verb-prefix check, and the
 * `^(post|get|delete|patch):(\/[a-zA-Z0-9\/_-]+)$` pattern written out as
 * a predicate. The three controller files carry identical copies of this
 * code; it is modelled once here.
 */
module EndpointFormat {
  import opened Wrappers
  import opened Text

  /** The prefixes accepted by the verb check. */
  const VerbPrefixes: seq<string> := ["get:", "post:", "put:", "delete:", "patch:"]

  /** The verbs of the endpoint pattern's first group: `put` is not among them. */
  const PatternVerbs: seq<string> := ["post", "get", "delete", "patch"]

  /** `endpoint.split(":", 1)[0].strip().upper()` */
  function VerbOf(endpoint: string): (r: string)
    ensures |r| <= |endpoint|
  {
    Upper(Strip(SplitOnce(endpoint, ':').0))
  }

  /** `endpoint.split(":", 1)[1].strip()`; `None` is the `IndexError` of an endpoint without a colon. */
  function PathOf(endpoint: string): (r: Option<string>)
    ensures r.None? <==> ':' !in endpoint
  {
    match SplitOnce(endpoint, ':').1
    case None => None
    case Some(rest) => Some(Strip(rest))
  }

  /** Splitting happens at the first colon; everything after it, later colons included, is the path. */
  lemma SplitAtFirstColon(verb: string, rest: string)
    requires ':' !in verb
    ensures VerbOf(verb + ":" + rest) == Upper(Strip(verb))
    ensures PathOf(verb + ":" + rest) == Some(Strip(rest))
  {
    var e := verb + ":" + rest;
    assert e == verb + [':'] + rest;
    assert e[|verb|] == ':';
    var r := SplitOnce(e, ':');
    IndexAfter(verb, ':', rest);
    IndexAfter(r.0, ':', r.1.value);
    assert r.0 == e[..|verb|] == verb;
    assert r.1.value == e[|verb| + 1..] == rest;
  }

  /** `endpoint.startswith(("get:", "post:", "put:", "delete:", "patch:"))` */
  predicate HasVerbPrefix(e: string) {
    exists k :: 0 <= k < |VerbPrefixes| && StartsWith(e, VerbPrefixes[k])
  }

  /** A character of the class `[a-zA-Z0-9\/_-]`. */
  predicate IsPathChar(c: char) {
    ('a' <= c <= 'z') || ('A' <= c <= 'Z') || ('0' <= c <= '9') || c == '/' || c == '_' || c == '-'
  }

  /** What the pattern's second group `(\/[a-zA-Z0-9\/_-]+)` matches in full. */
  predicate IsPatternPath(p: string) {
    |p| >= 2 && p[0] == '/' && forall k :: 1 <= k < |p| ==> IsPathChar(p[k])
  }

  /**
   * `re.match(VALID_ENDPOINT_REGEX, e)` succeeds. The verb group has no
   * colon, so it ends at the first one; Python's `$` also matches just
   * before a final newline.
   */
  predicate MatchesEndpointPattern(e: string) {
    var i := IndexOf(e, ':');
    i < |e| && e[..i] in PatternVerbs &&
    IsPatternPath(PathBody(e[i + 1..]))
  }

  /** The language of the pattern, stated as the set of strings it is built from. */
  ghost predicate InPatternLanguage(e: string) {
    exists k, p :: 0 <= k < |PatternVerbs| && IsPatternPath(p) &&
      (e == PatternVerbs[k] + ":" + p || e == PatternVerbs[k] + ":" + p + "\n")
  }

  lemma PatternVerbsHaveNoColon(k: nat)
    requires k < |PatternVerbs|
    ensures ':' !in PatternVerbs[k] && '{' !in PatternVerbs[k]
  {
  }

  /** The path part of a candidate, without the one final newline `$` lets through. */
  function PathBody(p: string): string {
    if |p| > 0 && p[|p| - 1] == '\n' then p[..|p| - 1] else p
  }

  /** An endpoint assembled from a colon-free verb and a tail splits back into the two. */
  lemma AssembledParts(v: string, tail: string)
    requires ':' !in v
    ensures var e := v + ":" + tail;
            IndexOf(e, ':') == |v| < |e| && e[..|v|] == v && e[|v| + 1..] == tail
  {
    var e := v + ":" + tail;
    assert e == v + [':'] + tail;
    IndexAfter(v, ':', tail);
    assert e[..|v|] == v;
    assert e[|v| + 1..] == tail;
  }

  lemma SplitAround(e: string, i: nat)
    requires i < |e| && e[i] == ':'
    ensures e == e[..i] + ":" + e[i + 1..]
  {
    assert e == e[..i] + e[i..i + 1] + e[i + 1..];
  }

  lemma InLanguage(e: string, k: nat, p: string)
    requires k < |PatternVerbs| && IsPatternPath(p)
    requires e == PatternVerbs[k] + ":" + p || e == PatternVerbs[k] + ":" + p + "\n"
    ensures InPatternLanguage(e)
  {
  }

  lemma MatchesImpliesLanguage(e: string)
    requires MatchesEndpointPattern(e)
    ensures InPatternLanguage(e)
  {
    var i := IndexOf(e, ':');
    var v := e[..i];
    var p := e[i + 1..];
    var body := PathBody(p);
    assert e == v + ":" + p by {
      SplitAround(e, i);
    }
    var k :| 0 <= k < |PatternVerbs| && PatternVerbs[k] == v;
    if |p| > 0 && p[|p| - 1] == '\n' {
      assert p == body + "\n";
      assert e == v + ":" + body + "\n";
    } else {
      assert e == v + ":" + body;
    }
    InLanguage(e, k, body);
  }

  lemma LanguageImpliesMatches(k: nat, p: string, newline: bool)
    requires k < |PatternVerbs| && IsPatternPath(p)
    ensures MatchesEndpointPattern(PatternVerbs[k] + ":" + (if newline then p + "\n" else p))
  {
    var v := PatternVerbs[k];
    var tail := if newline then p + "\n" else p;
    PatternVerbsHaveNoColon(k);
    AssembledParts(v, tail);
    if newline {
      assert tail[..|tail| - 1] == p;
    } else {
      assert IsPathChar(p[|p| - 1]);
    }
    assert PathBody(tail) == p;
  }

  /** The character-by-character predicate matches exactly the pattern's language. */
  lemma MatchesEndpointPatternIff(e: string)
    ensures MatchesEndpointPattern(e) <==> InPatternLanguage(e)
  {
    if MatchesEndpointPattern(e) {
      MatchesImpliesLanguage(e);
    }
    if InPatternLanguage(e) {
      var k, p :| 0 <= k < |PatternVerbs| && IsPatternPath(p) &&
        (e == PatternVerbs[k] + ":" + p || e == PatternVerbs[k] + ":" + p + "\n");
      if e == PatternVerbs[k] + ":" + p {
        LanguageImpliesMatches(k, p, false);
      } else {
        LanguageImpliesMatches(k, p, true);
        assert PatternVerbs[k] + ":" + p + "\n" == PatternVerbs[k] + ":" + (p + "\n");
      }
    }
  }

  /** The first verb ends at the first colon: an endpoint that starts with `put:` never matches. */
  lemma PutIsRejected(e: string)
    requires StartsWith(e, "put:")
    ensures !MatchesEndpointPattern(e)
  {
    assert e == "put" + ":" + e[4..] by {
      assert e == e[..4] + e[4..];
    }
    AssembledParts("put", e[4..]);
  }

  /** A path written with a `{placeholder}` never matches. */
  lemma BraceIsRejected(e: string, j: nat)
    requires j < |e| && e[j] == '{'
    ensures !MatchesEndpointPattern(e)
  {
    var i := IndexOf(e, ':');
    if j < i {
      var v := e[..i];
      assert v[j] == '{';
      forall k | 0 <= k < |PatternVerbs| ensures PatternVerbs[k] != v {
        PatternVerbsHaveNoColon(k);
      }
    } else if i < |e| && j > i {
      var p := e[i + 1..];
      var m := j - i - 1;
      assert p[m] == '{';
      var body := PathBody(p);
      assert m < |body| && body[m] == p[m];
      assert !IsPathChar(body[m]);
    }
  }

  /** A bare `/` is not a path: the pattern needs one character after the slash. */
  lemma BareSlashIsRejected(verb: string)
    requires ':' !in verb
    ensures !MatchesEndpointPattern(verb + ":/")
    ensures !MatchesEndpointPattern(verb + ":/\n")
  {
    AssembledParts(verb, "/");
    AssembledParts(verb, "/\n");
    assert verb + ":/" == verb + ":" + "/";
    assert verb + ":/\n" == verb + ":" + "/\n";
  }

  /** Every path character is kept by `strip()`. */
  lemma StripPatternPath(p: string)
    requires IsPatternPath(p)
    ensures Strip(p) == p && Strip(p + "\n") == p
  {
    assert !IsSpace(p[0]) && !IsSpace(p[|p| - 1]);
    assert LStrip(p) == p;
    assert RStrip(p) == p;
    var q := p + "\n";
    assert !IsSpace(q[0]) && !IsSpace(q[|p| - 1]) && IsSpace(q[|p|]);
    assert LStrip(q) == q;
    var rq := RStrip(q);
    assert |rq| == |p|;
    assert rq == q[..|p|] == p;
  }

  lemma UpperPatternVerb(k: nat)
    requires k < |PatternVerbs|
    ensures Strip(PatternVerbs[k]) == PatternVerbs[k]
    ensures Upper(PatternVerbs[k]) == ["POST", "GET", "DELETE", "PATCH"][k]
  {
    var v := PatternVerbs[k];
    assert !IsSpace(v[0]) && !IsSpace(v[|v| - 1]);
    assert LStrip(v) == v;
    assert RStrip(v) == v;
    var u := Upper(v);
    assert u == ["POST", "GET", "DELETE", "PATCH"][k];
  }

  /** A matching endpoint yields one of the four pattern verbs in upper case and a path starting with `/`. */
  lemma MatchingEndpointParts(e: string)
    requires MatchesEndpointPattern(e)
    ensures VerbOf(e) in ["POST", "GET", "DELETE", "PATCH"]
    ensures PathOf(e).Some? && IsPatternPath(PathOf(e).value)
  {
    MatchesImpliesLanguage(e);
    var k, p :| 0 <= k < |PatternVerbs| && IsPatternPath(p) &&
      (e == PatternVerbs[k] + ":" + p || e == PatternVerbs[k] + ":" + p + "\n");
    var v := PatternVerbs[k];
    var tail := if e == v + ":" + p then p else p + "\n";
    assert e == v + ":" + tail;
    PatternVerbsHaveNoColon(k);
    SplitAtFirstColon(v, tail);
    StripPatternPath(p);
    UpperPatternVerb(k);
  }

  /** The reasons `validate_endpoint` raises `InvalidControllerEndpointError`. */
  datatype EndpointError = BadVerbPrefix | EmptyEndpoint | PatternMismatch

  /**
   * `validate_endpoint(endpoint)`: the type and prefix check on
   * `cls.endpoint` and the argument, then non-emptiness and the pattern on
   * `cls.endpoint`. `None` means it returns normally.
   */
  function ValidateEndpoint(clsEndpoint: Option<string>, endpoint: string): (r: Option<EndpointError>)
    ensures r.None? <==> clsEndpoint.Some? && HasVerbPrefix(endpoint) && clsEndpoint.value != ""
                         && MatchesEndpointPattern(clsEndpoint.value)
    ensures r == Some(BadVerbPrefix) <==> clsEndpoint.None? || !HasVerbPrefix(endpoint)
  {
    if clsEndpoint.None? || !HasVerbPrefix(endpoint) then Some(BadVerbPrefix)
    else if clsEndpoint.value == "" then Some(EmptyEndpoint)
    else if !MatchesEndpointPattern(clsEndpoint.value) then Some(PatternMismatch)
    else None
  }

  /** A matching endpoint begins with one of the accepted verb prefixes. */
  lemma PatternImpliesPrefix(e: string)
    requires MatchesEndpointPattern(e)
    ensures HasVerbPrefix(e) && e != ""
  {
    var i := IndexOf(e, ':');
    var v := e[..i];
    var k :| 0 <= k < |PatternVerbs| && PatternVerbs[k] == v;
    assert e[..i + 1] == v + ":";
    var m := if k == 0 then 1 else if k == 1 then 0 else if k == 2 then 3 else 4;
    assert VerbPrefixes[m] == v + ":";
    assert StartsWith(e, VerbPrefixes[m]);
  }

  /**
   * Called the way the controllers call it, with their own `endpoint`,
   * validation passes exactly when the pattern matches; the emptiness
   * check can never be the one that fails.
   */
  lemma ValidateOwnEndpoint(e: string)
    ensures ValidateEndpoint(Some(e), e).None? <==> MatchesEndpointPattern(e)
    ensures ValidateEndpoint(Some(e), e) != Some(EmptyEndpoint)
  {
    if MatchesEndpointPattern(e) {
      PatternImpliesPrefix(e);
    }
    if e == "" {
      assert forall k :: 0 <= k < |VerbPrefixes| ==> !StartsWith(e, VerbPrefixes[k]);
    }
  }
}

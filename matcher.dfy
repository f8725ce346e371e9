/** The rules of loggingserver/matcher.go: what a rule looks like, when it
    matches a request, and how a matched rule is written out. */
module Matcher {
  import opened Http

  /** A rule's `Defer` after JSON decoding into `interface{}`: a string, a
      number, or anything else (null, absent, boolean, object, array). */
  datatype DeferValue = DeferString(text: string) | DeferNumber(seconds: real) | DeferOther

  /** `Body` is the text `json.Marshal` produces for the rule's body value. */
  datatype MockResponse = MockResponse(StatusCode: int, ContentType: string, Body: string, Defer: DeferValue)

  datatype MockMatcher = MockMatcher(Method: string, Path: string, QueryString: string, Response: MockResponse)

  /** A pattern is a regular expression exactly when its first character is `^`. */
  predicate HasRegexpMarker(pattern: string)
  {
    |pattern| > 0 && pattern[0] == '^'
  }

  predicate PathGate(pattern: string, path: string, re: Regexp)
  {
    if HasRegexpMarker(pattern) then re(pattern, path) else pattern == path
  }

  /** An empty query pattern does not constrain the query. */
  predicate QueryGate(pattern: string, rawQuery: string, re: Regexp)
  {
    pattern == "" || if HasRegexpMarker(pattern) then re(pattern, rawQuery) else pattern == rawQuery
  }

  /** `MockMatcher.Matches`: the method, path and query checks in order, each
      returning false on failure. The result is the conjunction of the three gates. */
  function Matches(m: MockMatcher, req: Request, re: Regexp): (r: bool)
    ensures r <==> m.Method == req.Method && PathGate(m.Path, req.Path, re)
                   && QueryGate(m.QueryString, req.RawQuery, re)
  {
    if m.Method != req.Method then false
    else if HasRegexpMarker(m.Path) && !re(m.Path, req.Path) then false
    else if !HasRegexpMarker(m.Path) && m.Path != req.Path then false
    else if m.QueryString != "" && HasRegexpMarker(m.QueryString) && !re(m.QueryString, req.RawQuery) then false
    else if m.QueryString != "" && !HasRegexpMarker(m.QueryString) && m.QueryString != req.RawQuery then false
    else true
  }

  /** `pathIsRegexp` as written: it slices `Path[0:1]`, which panics on an
      empty path. */
  function PathIsRegexp(m: MockMatcher): (r: bool)
    requires m.Path != ""
    ensures r <==> HasRegexpMarker(m.Path)
  {
    m.Path[..1] == "^"
  }

  /** `queryStringIsRegexp` as written; `Matches` only calls it on a
      non-empty query pattern. */
  function QueryStringIsRegexp(m: MockMatcher): (r: bool)
    requires m.QueryString != ""
    ensures r <==> HasRegexpMarker(m.QueryString)
  {
    m.QueryString[..1] == "^"
  }

  /** `MockMatcher.Matches` exactly as written, with the slice in
      `pathIsRegexp` as its precondition. Wherever it does not panic it agrees
      with `Matches`. */
  function MatchesAsWritten(m: MockMatcher, req: Request, re: Regexp): (r: bool)
    requires m.Method == req.Method ==> m.Path != ""
    ensures r == Matches(m, req, re)
  {
    if m.Method != req.Method then false
    else if PathIsRegexp(m) && !re(m.Path, req.Path) then false
    else if !PathIsRegexp(m) && m.Path != req.Path then false
    else if m.QueryString != "" && QueryStringIsRegexp(m) && !re(m.QueryString, req.RawQuery) then false
    else if m.QueryString != "" && !QueryStringIsRegexp(m) && m.QueryString != req.RawQuery then false
    else true
  }

  const EmptyResponse: MockResponse := MockResponse(0, "", "", DeferOther)

  /** A rule decoded from `{"Method": "GET"}` has an empty path; any GET
      request drives the code as written into the slice that panics, while
      the corrected `Matches` just rejects it. */
  lemma EmptyPathPanics(re: Regexp)
    ensures var m := MockMatcher("GET", "", "", EmptyResponse);
      var req := Request("GET", "/", "");
      && !(m.Method == req.Method ==> m.Path != "")
      && !Matches(m, req, re)
  {
  }

  /** With the marker test corrected, an empty path is an exact pattern: it
      matches only the empty request path, and is no wildcard. */
  lemma EmptyPathMatchesOnlyEmptyPath(m: MockMatcher, req: Request, re: Regexp)
    requires m.Path == ""
    ensures Matches(m, req, re) ==> req.Path == ""
    ensures m.Method == req.Method && req.Path == "" && QueryGate(m.QueryString, req.RawQuery, re)
            ==> Matches(m, req, re)
  {
  }

  /** A different method rejects the request whatever the path and query. */
  lemma MethodMismatchRejects(m: MockMatcher, req: Request, re: Regexp)
    requires m.Method != req.Method
    ensures !Matches(m, req, re)
  {
  }

  /** A path without the marker must equal the request path byte for byte;
      the regexp engine is not consulted. */
  lemma ExactPathGate(m: MockMatcher, req: Request, re: Regexp)
    requires !HasRegexpMarker(m.Path)
    requires m.Method == req.Method && QueryGate(m.QueryString, req.RawQuery, re)
    ensures Matches(m, req, re) <==> m.Path == req.Path
  {
  }

  /** A path with the marker passes exactly when the regexp matches; equality
      alone is not enough. */
  lemma RegexpPathGate(m: MockMatcher, req: Request, re: Regexp)
    requires HasRegexpMarker(m.Path)
    requires m.Method == req.Method && QueryGate(m.QueryString, req.RawQuery, re)
    ensures Matches(m, req, re) <==> re(m.Path, req.Path)
  {
  }

  /** An empty query pattern leaves the decision to method and path; a
      non-empty exact one must equal the raw query. */
  lemma QueryGateCases(m: MockMatcher, req: Request, re: Regexp)
    ensures m.QueryString == "" ==>
      (Matches(m, req, re) <==> m.Method == req.Method && PathGate(m.Path, req.Path, re))
    ensures m.QueryString != "" && !HasRegexpMarker(m.QueryString) ==>
      (Matches(m, req, re) <==>
         m.Method == req.Method && PathGate(m.Path, req.Path, re) && m.QueryString == req.RawQuery)
    ensures HasRegexpMarker(m.QueryString) ==>
      (Matches(m, req, re) <==>
         m.Method == req.Method && PathGate(m.Path, req.Path, re) && re(m.QueryString, req.RawQuery))
  {
  }

  /** The matcher table of loggingserver/matcher_test.go, for every regexp
      engine: the exact cases hold outright, the regexp cases hold exactly
      when the engine matches. */
  lemma MatcherScenarios(re: Regexp)
    ensures Matches(MockMatcher("GET", "/foo/bar", "", EmptyResponse), Request("GET", "/foo/bar", ""), re)
    ensures !Matches(MockMatcher("GET", "/foo/bar", "", EmptyResponse), Request("GET", "/foo/bar/baz", ""), re)
    ensures !Matches(MockMatcher("GET", "/foo/bar", "", EmptyResponse), Request("GET", "/test/foo/bar", ""), re)
    ensures Matches(MockMatcher("GET", "^/foo$", "", EmptyResponse), Request("GET", "/foo", ""), re)
            == re("^/foo$", "/foo")
    ensures Matches(MockMatcher("GET", "^/foo", "", EmptyResponse), Request("GET", "/foo/bar/baz", ""), re)
            == re("^/foo", "/foo/bar/baz")
    ensures Matches(MockMatcher("GET", "^/foo/(bar|baz)$", "", EmptyResponse), Request("GET", "/foo/bar", ""), re)
            == re("^/foo/(bar|baz)$", "/foo/bar")
    ensures Matches(MockMatcher("GET", "^/foo/(bar|baz)$", "", EmptyResponse), Request("GET", "/foo/bad", ""), re)
            == re("^/foo/(bar|baz)$", "/foo/bad")
    ensures Matches(MockMatcher("GET", "/", "foo=bar", EmptyResponse), Request("GET", "/", "foo=bar"), re)
    ensures !Matches(MockMatcher("GET", "/", "foo=bar", EmptyResponse), Request("GET", "/", "foo=wrong"), re)
  {
  }

  /** The duration text `Write` hands to the parser: a string verbatim, a
      number formatted as seconds, anything else nothing. An empty text means
      no wait. */
  function DurValue(d: DeferValue): (r: DeferText)
    ensures r.NoDefer? <==> d.DeferOther? || d == DeferString("")
    ensures r.Verbatim? ==> d == DeferString(r.text) && r.text != ""
    ensures r.FormattedSeconds? ==> d == DeferNumber(r.seconds)
  {
    match d
    case DeferNumber(t) => FormattedSeconds(t)
    case DeferString(t) => if t == "" then NoDefer else Verbatim(t)
    case DeferOther => NoDefer
  }

  /** `MockMatcher.Write`. The returned text is what the request would wait
      on before anything is written; the writer then receives the rule's
      content type, status and body. */
  method Write(m: MockMatcher, w: ResponseWriter) returns (delay: DeferText)
    modifies w
    ensures delay == DurValue(m.Response.Defer)
    ensures w.View() == MockedEffect(old(w.View()), m.Response.ContentType, m.Response.StatusCode, m.Response.Body)
  {
    delay := DurValue(m.Response.Defer);
    var contentType: string;
    if m.Response.ContentType != "" {
      contentType := m.Response.ContentType;
    } else {
      contentType := DefaultContentType;
    }
    w.SetHeader("Content-Type", contentType);
    if m.Response.StatusCode > 0 {
      w.WriteHeader(m.Response.StatusCode);
    }
    w.Write(m.Response.Body);
  }
}

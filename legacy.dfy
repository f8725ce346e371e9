/** The older server of logging-server.go: a path or query pattern passes
    when it equals the request's or matches it as a regular expression, and
    the rules live in package-level variables. */
module Legacy {
  import opened Wrappers
  import opened Http
  import opened Search
  import Matcher

  /** `Body` is the text `json.Marshal` produces for the rule's body value. */
  datatype MockResponse = MockResponse(StatusCode: int, ContentType: string, Body: string, Defer: string)

  datatype MockMatcher = MockMatcher(Method: string, Path: string, QueryString: string, Response: MockResponse)

  predicate PathGate(pattern: string, path: string, re: Regexp)
  {
    pattern == path || re(pattern, path)
  }

  predicate QueryGate(pattern: string, rawQuery: string, re: Regexp)
  {
    pattern == "" || pattern == rawQuery || re(pattern, rawQuery)
  }

  /** `MockMatcher.Matches`: total, since no pattern is ever indexed. */
  function Matches(m: MockMatcher, req: Request, re: Regexp): (r: bool)
    ensures r <==> m.Method == req.Method && PathGate(m.Path, req.Path, re)
                   && QueryGate(m.QueryString, req.RawQuery, re)
  {
    if m.Method != req.Method then false
    else if m.Path != req.Path && !re(m.Path, req.Path) then false
    else if m.QueryString != "" && m.QueryString != req.RawQuery && !re(m.QueryString, req.RawQuery) then false
    else true
  }

  /** A different method rejects; otherwise exact equality of path and query
      always suffices, whatever the regexp engine says. */
  lemma EqualityAlwaysSuffices(m: MockMatcher, req: Request, re: Regexp)
    ensures m.Method != req.Method ==> !Matches(m, req, re)
    ensures (m.Method == req.Method && m.Path == req.Path
             && (m.QueryString == "" || m.QueryString == req.RawQuery)) ==> Matches(m, req, re)
  {
  }

  /** The newer matcher only narrows this one: a rule with the same method,
      path and query that the newer code accepts, the older accepts too. */
  lemma NewerMatcherNarrows(m: Matcher.MockMatcher, lm: MockMatcher, req: Request, re: Regexp)
    requires lm.Method == m.Method && lm.Path == m.Path && lm.QueryString == m.QueryString
    ensures Matcher.Matches(m, req, re) ==> Matches(lm, req, re)
  {
  }

  /** The two matchers part exactly where a pattern without the marker is
      taken as a regexp: only the older code lets `/foo/bar` accept
      `/foo/bar/baz`, and only when the engine finds `/foo/bar` in it. */
  lemma ExactSuffixScenario(re: Regexp)
    ensures var req := Request("GET", "/foo/bar/baz", "");
      && !Matcher.Matches(Matcher.MockMatcher("GET", "/foo/bar", "", Matcher.EmptyResponse), req, re)
      && Matches(MockMatcher("GET", "/foo/bar", "", MockResponse(0, "", "", "")), req, re)
         == re("/foo/bar", "/foo/bar/baz")
  {
  }

  /** A rule without a `Path` hands the empty pattern to the engine. Go's
      empty regular expression matches every subject, so under such an engine
      the rule accepts every path for its method, where the newer matcher takes
      the empty pattern as the empty path only. */
  lemma EmptyPathWildcard(m: MockMatcher, req: Request, re: Regexp)
    requires m.Path == "" && re("", req.Path)
    ensures Matches(m, req, re) <==> m.Method == req.Method && QueryGate(m.QueryString, req.RawQuery, re)
    ensures req.Path != "" ==>
      !Matcher.Matches(Matcher.MockMatcher(m.Method, "", m.QueryString, Matcher.EmptyResponse), req, re)
  {
  }

  /** The duration text `Write` hands to the parser; an empty `Defer` means no wait. */
  function DurValue(d: string): (r: DeferText)
    ensures r.NoDefer? <==> d == ""
    ensures !r.NoDefer? ==> r == Verbatim(d)
  {
    if d == "" then NoDefer else Verbatim(d)
  }

  /** `MockMatcher.Write`, the same header and status decisions as the newer one. */
  method Write(m: MockMatcher, w: ResponseWriter) returns (delay: DeferText)
    modifies w
    ensures delay == DurValue(m.Response.Defer)
    ensures w.View() == MockedEffect(old(w.View()), m.Response.ContentType, m.Response.StatusCode, m.Response.Body)
  {
    delay := DurValue(m.Response.Defer);
    var contentType: string;
    if m.Response.ContentType != "" {
      contentType := m.Response.ContentType;
    } else {
      contentType := DefaultContentType;
    }
    w.SetHeader("Content-Type", contentType);
    if m.Response.StatusCode > 0 {
      w.WriteHeader(m.Response.StatusCode);
    }
    w.Write(m.Response.Body);
  }

  /** The index of the first rule that matches, in slice order. */
  function FirstMatch(rules: seq<MockMatcher>, req: Request, re: Regexp): (r: Option<nat>)
    ensures r.Some? ==> r.value < |rules| && Matches(rules[r.value], req, re)
    ensures r.Some? ==> forall k :: 0 <= k < r.value ==> !Matches(rules[k], req, re)
    ensures r.None? <==> forall k :: 0 <= k < |rules| ==> !Matches(rules[k], req, re)
  {
    if |rules| == 0 then None
    else if Matches(rules[0], req, re) then Some(0)
    else match FirstMatch(rules[1..], req, re)
      case None => None
      case Some(i) => Some(i + 1)
  }

  /** What `LogRequest` decides. */
  function Dispatch(excludes: seq<string>, rules: seq<MockMatcher>, req: Request, re: Regexp): (d: Decision<MockResponse>)
    ensures d.Excluded? <==> req.Path in excludes
    ensures d.Unmatched? <==> req.Path !in excludes && forall k :: 0 <= k < |rules| ==> !Matches(rules[k], req, re)
    ensures d.Mocked? ==>
      exists i ::
        && 0 <= i < |rules| && Matches(rules[i], req, re) && d.response == rules[i].Response
        && forall k :: 0 <= k < i ==> !Matches(rules[k], req, re)
  {
    if req.Path in excludes then Excluded
    else match FirstMatch(rules, req, re)
      case Some(i) => Mocked(rules[i].Response)
      case None => Unmatched
  }

  /** The writer after `LogRequest`. */
  function Serve(s: WriterState, excludes: seq<string>, rules: seq<MockMatcher>, req: Request, re: Regexp): (t: WriterState)
    ensures req.Path in excludes ==> t == s
    ensures req.Path !in excludes ==> t.wroteHeader
    ensures !s.wroteHeader ==> match Dispatch(excludes, rules, req, re)
      case Excluded => Code(t) == StatusOK && t.body == s.body
      case Mocked(r) => Code(t) == (if r.StatusCode > 0 then r.StatusCode else StatusOK) && t.body == s.body + r.Body
      case Unmatched => Code(t) == StatusNotFound && t.body == s.body + UnmatchedBody(req.Path, req.Method)
  {
    match Dispatch(excludes, rules, req, re)
    case Excluded => s
    case Mocked(r) => MockedEffect(s, r.ContentType, r.StatusCode, r.Body)
    case Unmatched => UnmatchedEffect(s, req)
  }

  /** Excluded paths end the request before any matching; otherwise the
      earliest matching rule answers, and with none the 404 page does. */
  lemma DispatchCases(excludes: seq<string>, rules: seq<MockMatcher>, i: nat, req: Request, re: Regexp)
    ensures req.Path in excludes ==> Dispatch(excludes, rules, req, re) == Excluded
    ensures req.Path !in excludes && i < |rules| && Matches(rules[i], req, re)
            && (forall k :: 0 <= k < i ==> !Matches(rules[k], req, re))
            ==> Dispatch(excludes, rules, req, re) == Mocked(rules[i].Response)
    ensures Dispatch(excludes, rules, req, re) == Unmatched <==>
            req.Path !in excludes && forall k :: 0 <= k < |rules| ==> !Matches(rules[k], req, re)
  {
  }

  /** The package-level variables `mockConfig` and `excludePaths`. */
  class Globals {
    var mockConfig: seq<MockMatcher>
    var excludePaths: seq<string>

    ghost predicate Valid()
      reads this
    {
      Sorted(excludePaths)
    }

    /** The state `main` leaves before serving: the rules it decoded (none
      without a configuration) and the sorted exclude list. */
    constructor (decoded: seq<MockMatcher>)
      ensures Valid() && mockConfig == decoded && excludePaths == DefaultExcludePaths
    {
      mockConfig := decoded;
      excludePaths := DefaultExcludePaths;
    }

    /** `findMatcher`: the first rule of `mockConfig` that matches, or none. */
    method FindMatcher(req: Request, re: Regexp) returns (m: Option<MockMatcher>)
      ensures match FirstMatch(mockConfig, req, re)
        case None => m == None
        case Some(i) => m == Some(mockConfig[i])
    {
      var i := 0;
      while i < |mockConfig|
        invariant 0 <= i <= |mockConfig|
        invariant forall k :: 0 <= k < i ==> !Matches(mockConfig[k], req, re)
      {
        if Matches(mockConfig[i], req, re) {
          return Some(mockConfig[i]);
        }
        i := i + 1;
      }
      return None;
    }

    /** `LogRequest` without its logging. */
    method LogRequest(w: ResponseWriter, req: Request, re: Regexp)
      requires Valid()
      modifies w
      ensures w.View() == Serve(old(w.View()), excludePaths, mockConfig, req, re)
    {
      var excluded := IsExcluded(excludePaths, req.Path);
      if excluded {
        return;
      }
      var matcher := FindMatcher(req, re);
      match matcher
      case Some(m) =>
        var _ := Write(m, w);
      case None =>
        w.WriteHeader(StatusNotFound);
        w.SetHeader("Content-Type", "text/html");
        w.Write(UnmatchedBody(req.Path, req.Method));
    }
  }
}

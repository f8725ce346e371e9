/** What the mock-rule engine sees of HTTP: the parsed request, the regular
    expression engine, the response writer it renders onto, and the response
    effects both server variants share. */
module Http {

  /** `regexp.MatchString(pattern, subject)` with its error discarded: true
      when the pattern compiles and matches somewhere in the subject. The Go
      engine is not modelled; every property below holds for any such function. */
  type Regexp = (string, string) -> bool

  /** The parts of an incoming request the engine reads: `req.Method`,
      `req.URL.Path` and the undecoded `req.URL.RawQuery`. */
  datatype Request = Request(Method: string, Path: string, RawQuery: string)

  const StatusOK: int := 200
  const StatusNotFound: int := 404
  const DefaultContentType: string := "application/json"

  /** The paths neither handler logs nor matches. */
  const DefaultExcludePaths: seq<string> := ["/favicon.ico"]

  /** What a handler decided to do with a request. */
  datatype Decision<R> = Excluded | Mocked(response: R) | Unmatched

  /** The text a rule's `Defer` hands to `time.ParseDuration`, or none. A bare
      JSON number is formatted as seconds with `%fs`, which is never empty; the
      formatting, the parse and the wait are not modelled. */
  datatype DeferText = NoDefer | Verbatim(text: string) | FormattedSeconds(seconds: real)

  /** The state of an `http.ResponseWriter` as the handler drives it: the
      header map, whether the status line went out, its code, the header map as
      it was when the status line went out, and the body handed to `Write` so
      far. The transport's refusal of a body (after 204 or 304, or for HEAD)
      and 1xx informational codes are not modelled. */
  datatype WriterState = WriterState(
    header: map<string, string>,
    wroteHeader: bool,
    status: int,
    sentHeader: map<string, string>,
    body: string)

  const FreshWriter: WriterState := WriterState(map[], false, 0, map[], "")

  /** `w.Header().Set(key, value)`: the map changes; what was already sent does not. */
  function AfterSetHeader(s: WriterState, key: string, value: string): (t: WriterState)
    ensures t.header == s.header[key := value]
    ensures t.(header := s.header) == s
  {
    s.(header := s.header[key := value])
  }

  /** `w.WriteHeader(code)`: the first call sends the status line with the
      header map as it is now; later calls change nothing. */
  function AfterWriteHeader(s: WriterState, code: int): (t: WriterState)
    ensures s.wroteHeader ==> t == s
    ensures !s.wroteHeader ==> t.wroteHeader && t.status == code && t.sentHeader == s.header
    ensures t.header == s.header && t.body == s.body
  {
    if s.wroteHeader then s
    else s.(wroteHeader := true, status := code, sentHeader := s.header)
  }

  /** `w.Write(data)`: sends `WriteHeader(http.StatusOK)` first when no status
      line went out yet, then appends the data. */
  function AfterWrite(s: WriterState, data: string): (t: WriterState)
    ensures t.wroteHeader && t.body == s.body + data && t.header == s.header
    ensures s.wroteHeader ==> t.status == s.status && t.sentHeader == s.sentHeader
    ensures !s.wroteHeader ==> t.status == StatusOK && t.sentHeader == s.header
  {
    var t := AfterWriteHeader(s, StatusOK);
    t.(body := t.body + data)
  }

  /** The status this writer records for the response (as
      `httptest.ResponseRecorder` does): the one sent, or 200 when the handler
      never sent one. */
  function Code(s: WriterState): int
  {
    if s.wroteHeader then s.status else StatusOK
  }

  /** The response writer the transport hands to a handler. */
  class ResponseWriter {
    var header: map<string, string>
    var wroteHeader: bool
    var status: int
    var sentHeader: map<string, string>
    var body: string

    function View(): WriterState
      reads this
    {
      WriterState(header, wroteHeader, status, sentHeader, body)
    }

    constructor ()
      ensures View() == FreshWriter
    {
      header, wroteHeader, status, sentHeader, body := map[], false, 0, map[], "";
    }

    method SetHeader(key: string, value: string)
      modifies this
      ensures View() == AfterSetHeader(old(View()), key, value)
    {
      header := header[key := value];
    }

    method WriteHeader(code: int)
      modifies this
      ensures View() == AfterWriteHeader(old(View()), code)
    {
      if !wroteHeader {
        wroteHeader, status, sentHeader := true, code, header;
      }
    }

    method Write(data: string)
      modifies this
      ensures View() == AfterWrite(old(View()), data)
    {
      WriteHeader(StatusOK);
      body := body + data;
    }
  }

  /** The `Content-Type` a matched rule is answered with. */
  function ContentTypeFor(contentType: string): (r: string)
    ensures r != ""
    ensures contentType != "" ==> r == contentType
    ensures contentType == "" ==> r == DefaultContentType
  {
    if contentType != "" then contentType else DefaultContentType
  }

  /** The effect of a matched rule's `Write` on the writer: set the content
      type, send the status only when it is positive, write the marshalled body. */
  function MockedEffect(s: WriterState, contentType: string, statusCode: int, body: string): (t: WriterState)
    ensures t.header == s.header["Content-Type" := ContentTypeFor(contentType)]
    ensures t.wroteHeader && t.body == s.body + body
    ensures s.wroteHeader ==> t.status == s.status && t.sentHeader == s.sentHeader
  {
    var typed := AfterSetHeader(s, "Content-Type", ContentTypeFor(contentType));
    var headed := if statusCode > 0 then AfterWriteHeader(typed, statusCode) else typed;
    AfterWrite(headed, body)
  }

  /** On a writer nothing was sent on yet, a matched rule's reply carries its
      content type (or the default), its status when positive and 200
      otherwise, and exactly its body. */
  lemma MockedReply(s: WriterState, contentType: string, statusCode: int, body: string)
    requires !s.wroteHeader
    ensures var t := MockedEffect(s, contentType, statusCode, body);
      && Code(t) == (if statusCode > 0 then statusCode else StatusOK)
      && t.sentHeader == s.header["Content-Type" := ContentTypeFor(contentType)]
      && t.sentHeader["Content-Type"] == (if contentType != "" then contentType else DefaultContentType)
      && t.body == s.body + body
  {
  }

  const UnmatchedPrefix: string := "<html><body>Unmatched request, please configure a mock request for path "
  const UnmatchedMiddle: string := " and method "
  const UnmatchedSuffix: string := "</body></html>\n"

  /** The 404 page for a request no rule matched. */
  function UnmatchedBody(path: string, verb: string): string
  {
    UnmatchedPrefix + path + UnmatchedMiddle + verb + UnmatchedSuffix
  }

  /** The 404 page names the request: its path and its method stand at fixed
      offsets, so both can be read back from it. */
  lemma UnmatchedBodyNamesRequest(path: string, verb: string)
    ensures var b := UnmatchedBody(path, verb);
      var p := |UnmatchedPrefix|;
      var m := p + |path| + |UnmatchedMiddle|;
      && |b| == m + |verb| + |UnmatchedSuffix|
      && b[..p] == UnmatchedPrefix
      && b[p..p + |path|] == path
      && b[m..m + |verb|] == verb
      && b[m + |verb|..] == UnmatchedSuffix
  {
  }

  /** The 404 branch as written: the status goes out first, then the content
      type is set on the header map, then the page is written. */
  function UnmatchedEffect(s: WriterState, req: Request): (t: WriterState)
    ensures t.header == s.header["Content-Type" := "text/html"]
    ensures t.wroteHeader && t.body == s.body + UnmatchedBody(req.Path, req.Method)
    ensures s.wroteHeader ==> t.status == s.status && t.sentHeader == s.sentHeader
  {
    var headed := AfterWriteHeader(s, StatusNotFound);
    var typed := AfterSetHeader(headed, "Content-Type", "text/html");
    AfterWrite(typed, UnmatchedBody(req.Path, req.Method))
  }

  /** On a writer nothing was sent on yet, an unmatched request gets 404 and
      the page naming it. Because `Set` comes after `WriteHeader`, `text/html`
      lands in the header map but is not among the headers sent with the
      status line. */
  lemma UnmatchedReply(s: WriterState, req: Request)
    requires !s.wroteHeader
    ensures var t := UnmatchedEffect(s, req);
      && Code(t) == StatusNotFound
      && t.body == s.body + UnmatchedBody(req.Path, req.Method)
      && t.header == s.header["Content-Type" := "text/html"]
      && t.sentHeader == s.header
  {
  }
}

# Mock-rule engine of logging-server, in Dafny

logging-server is an HTTP mock server. It runs each request against an ordered list
of mock rules and answers with the canned response of the first rule that matches.
This project models that rule engine. It covers two variants of the code:

- the current package `loggingserver` (`matcher.go`, `server.go`);
- the older single-file server (`logging-server.go`).

The model has three parts.

- **Rule matching.** `Matcher.Matches` is the method, path and query gate chain of
  the current code, with its marker test corrected so that an empty path pattern does
  not panic. `Matcher.MatchesAsWritten` is the chain exactly as written, and the two
  agree wherever the code does not panic (see "## Findings"). The handler members are
  built on the corrected `Matches`. A pattern starting with `^` is a regular
  expression; any other pattern must match exactly. `Legacy.Matches` is the older chain, where a pattern
  passes if it is equal or if it matches as a regular expression. The Go regexp
  engine is a parameter `re: Regexp` (pattern, subject) -> bool. Every lemma holds
  for every such function.
- **Request dispatch.** The pieces are: the excluded-path test (`sort.SearchStrings`
  followed by an equality check), the first-match-wins scan (`findMatcher`), the
  content-type and status decisions of `Write`, and the 404 fallback. The pure
  functions `Dispatch` and `Serve` give the decision and the writer state it
  produces. The imperative `ServeHTTP` / `LogRequest` are proved equal to them.
- **Configuration reload.** `loadMockConfig` is a transition `Load` on the pair
  (`mtime`, `MockConfig`). The stat, open and decode results are its inputs. The
  class `LoggingServer` holds the fields, and its methods are proved to follow `Load`.

`http.ResponseWriter` is modelled as the handler drives it, which is what
`httptest.ResponseRecorder` records. The header map is captured when the status line
goes out. A `Write` with no status sent first sends 200. The body is the data handed to
`Write`. `Http.ResponseWriter` holds this state, and the pure functions
`AfterSetHeader`, `AfterWriteHeader` and `AfterWrite` describe it. Where the transport
(not the handler) withholds a body or replaces a status, the recorded state is not what
the client receives (see "## Left out").

Three behaviours of the code a reader may not expect:

- **Reload skip rule.** The reload is skipped only when the file's mtime is strictly
  before the stored one and a configuration is loaded. A file with an unchanged mtime
  is therefore read and decoded again. `Server.SkipRule` states this. Reloading the
  same file is still idempotent (`Server.LoadIdempotent`).
- **404 content type.** The 404 branch sets `Content-Type: text/html` after
  `WriteHeader`. Under the writer contract, the header lands in the map but is not
  among the headers sent with the status line (`Http.UnmatchedReply`).
- **Older path gate.** The older variant has no `^` dispatch. A plain pattern such as
  `/foo/bar` also passes when the engine finds it inside the request path
  (`Legacy.ExactSuffixScenario`). A rule without a `Path` hands the empty regular expression
  to the engine. Go's engine matches it against every path, so such a rule is a wildcard
  for its method. The newer matcher, once corrected, takes it as the empty path only
  (`Legacy.EmptyPathWildcard`).

A rule's `Body` is the text `json.Marshal` produces for it. For a rule without a body
that text is `null`, because `matcher.go:103-104` marshals the absent value. The handler
test at `loggingserver/server_test.go:112` expects an empty body for such a rule, so that
test as written disagrees with the code. The model follows the code. It writes the
marshalled text, and `Server.ServerHandlerScenario` holds for any body text, `null`
included.

## Model

| member | source | states |
|---|---|---|
| Matcher.Matches | loggingserver/matcher.go:29-72 | the early-return chain is true iff the method is equal, the path gate passes and the query gate passes; a marked (`^`) pattern passes by regexp alone, an unmarked one by byte equality, and an empty query pattern passes always |
| Matcher.PathIsRegexp | loggingserver/matcher.go:111-113 | as written, defined only for a non-empty path (the `[0:1]` slice), and then true iff the path starts with `^` |
| Matcher.QueryStringIsRegexp | loggingserver/matcher.go:107-109 | as written, defined only for a non-empty query pattern, and then true iff it starts with `^` |
| Matcher.MatchesAsWritten | loggingserver/matcher.go:29-72 | the code as written, which needs a non-empty path whenever the method matches; wherever it is defined it agrees with the corrected `Matches` |
| Matcher.EmptyPathPanics | loggingserver/matcher.go:37 | a rule without a path and a GET request violate the slice precondition, so the code as written panics; the corrected matcher rejects the request |
| Matcher.EmptyPathMatchesOnlyEmptyPath | loggingserver/matcher.go:44-50 | with the corrected marker test, an empty path pattern matches exactly the empty request path and is not a wildcard |
| Matcher.MethodMismatchRejects | loggingserver/matcher.go:30-35 | a different method rejects, whatever the path and query are |
| Matcher.ExactPathGate | loggingserver/matcher.go:44-50 | with the method and query passing, an unmarked path matches iff it equals the request path; the engine is not consulted |
| Matcher.RegexpPathGate | loggingserver/matcher.go:37-43 | with the method and query passing, a marked path matches iff the engine matches; equality alone is not enough |
| Matcher.QueryGateCases | loggingserver/matcher.go:53-69 | an empty query pattern adds no constraint; an unmarked one must equal the raw query; a marked one must match it as a regexp |
| Matcher.MatcherScenarios | loggingserver/matcher_test.go:16-71 | the nine test scenarios: the exact ones hold for every engine, and each regexp one holds exactly when the engine matches |
| Matcher.DurValue | loggingserver/matcher.go:77-84 | a string `Defer` is passed on verbatim and an empty one means no wait; a number becomes a seconds text; any other value means no wait |
| Matcher.Write | loggingserver/matcher.go:74-105 | returns the duration text it would wait on; the writer ends in the mocked-response state for the rule's content type, status and body |
| Http.MockedEffect | loggingserver/matcher.go:93-104 | the content type (the rule's or the default) is set in the header map, a status line has gone out, and the body is appended; a status line already sent stays as it was |
| Http.UnmatchedEffect | loggingserver/server.go:66-68 | `text/html` is set in the header map, a status line has gone out, and the page naming the request is appended; a status line already sent stays as it was |
| Http.ContentTypeFor | loggingserver/matcher.go:93-98 | the content type is the rule's own when non-empty, otherwise `application/json`, and is never empty |
| Http.MockedReply | loggingserver/matcher.go:99-104 | on a fresh writer, the recorded status is the rule's status when it is positive and 200 otherwise; the content type goes out with the status line; the body handed to `Write` is exactly the rule's |
| Http.UnmatchedBodyNamesRequest | loggingserver/server.go:68 | the 404 page holds the request path and method at fixed offsets between the fixed HTML text, so both can be read back from it |
| Http.UnmatchedReply | loggingserver/server.go:66-68 | on a fresh writer, the 404 branch gives status 404 and exactly the page; `text/html` reaches the header map but not the headers sent |
| Search.SearchStrings | loggingserver/server.go:33 | the binary search returns a boundary index; on a sorted list everything before it is below the key and nothing from it on is |
| Search.IsExcluded | loggingserver/server.go:33-35 | the lower-bound-then-equality test only reports listed paths, and on a sorted list it reports exactly the listed paths |
| Search.LowerBound | loggingserver/server.go:129 | in a sorted list, a boundary index splits the elements below the key from the rest |
| Server.FirstMatch | loggingserver/server.go:72-79 | the index found matches and no earlier rule matches; there is none iff no rule matches |
| Server.Dispatch | loggingserver/server.go:33-69 | excluded iff the path is listed; unmatched iff it is not listed and no rule matches; otherwise the response of a matching rule with no matching rule before it |
| Server.Serve | loggingserver/server.go:33-69 | an excluded path leaves the writer untouched; on a fresh writer the recorded code and body are 200 and nothing, the rule's status (200 when not positive) and body, or 404 and the page naming the request |
| Server.FirstMatchIs | loggingserver/server.go:73-77 | a matching rule with no matching rule before it is the one found |
| Server.ExcludedShortCircuits | loggingserver/server.go:33-35 | an excluded path is decided before any rule is consulted, and the writer is left untouched |
| Server.FirstMatchWins | loggingserver/server.go:56-58 | a request that is not excluded gets the response of the earliest matching rule |
| Server.EarlierRuleWins | loggingserver/server.go:72-79 | of two rules that both match, the earlier-declared one answers |
| Server.UnmatchedIff | loggingserver/server.go:63-68 | the 404 page is chosen iff the path is not excluded and no rule matches; then the code is 404 and the body is the page naming the request |
| Server.ServerHandlerScenario | loggingserver/server_test.go:88-128 | a GET /foo rule without a status answers GET /foo with 200, the default content type and the rule's body |
| Server.Load | loggingserver/server.go:81-107 | an error leaves `mtime` and `MockConfig` unchanged; otherwise the store is either kept or set to the file's mtime and decoded rules together |
| Server.LoadErrorCases | loggingserver/server.go:82-100 | a load fails iff the stat fails, or the reload is not skipped and the open or the decode fails |
| Server.SkipRule | loggingserver/server.go:86-89 | a strictly older file over a non-nil configuration is a no-op whatever the open or decode would give; every other good file is installed, including one with an equal mtime |
| Server.LoadIdempotent | loggingserver/server.go:81-107 | loading the same file again gives the same store and the same error |
| Server.Skips | loggingserver/server.go:87 | a reload is skipped only over a non-nil configuration, and never for a file whose mtime is equal to or later than the stored one |
| Server.LoadInstalls | loggingserver/server.go:101-104 | a load that does not install leaves the store as it was; one that does sets the file's mtime and decoded rules together |
| Server.Ticks | loggingserver/server.go:112-117 | a run of refresh ticks, errors ignored, none of which has a readable and decodable file, leaves the store as it was |
| Server.TicksServeLastGood | loggingserver/server.go:109-122 | after any sequence of refresh ticks the store is the one the last installing tick installed, or the initial store when no tick installed |
| Server.HotReloadScenario | loggingserver/server_test.go:54-86 | from an empty configuration, one tick over a file no older than it that holds a GET / rule makes GET / match that rule |
| Server.InitialLoadInstalls | loggingserver/server.go:130-133 | a new server's first load is never skipped: if it succeeds, the store holds the file's mtime and decoded rules |
| Server.LoggingServer.constructor | loggingserver/server.go:125-129 | a new server has the default exclude list, which is sorted, a nil configuration, and the zero mtime |
| Server.LoggingServer.LoadMockConfig | loggingserver/server.go:81-107 | the fields and the error follow `Load`; `ExcludePaths` does not change |
| Server.LoggingServer.RefreshTick | loggingserver/server.go:114-117 | a tick follows `Load` and drops the error, so a failed tick leaves the state as it was |
| Server.LoggingServer.FindMatcher | loggingserver/server.go:72-79 | the loop returns the rule at the first matching index, or none when no rule matches |
| Server.LoggingServer.ServeHTTP | loggingserver/server.go:29-70 | the writer ends as `Serve` prescribes: untouched for an excluded path, the first matching rule's response, or the 404 page |
| Server.NewLoggingServer | loggingserver/server.go:124-141 | with no path, it returns a server with empty, non-nil rules and no error; with a path, the first load's error is its error, and on success the server holds what was loaded |
| Legacy.Matches | logging-server.go:36-55 | total; true iff the method is equal, the path is equal or regexp-matches, and the query pattern is empty, equal or regexp-matches |
| Legacy.EqualityAlwaysSuffices | logging-server.go:37-52 | a different method rejects; an equal method, an equal path and an equal or empty query always match, whatever the engine says |
| Legacy.NewerMatcherNarrows | logging-server.go:42-52 | for the same method, path and query, every request the newer matcher accepts is accepted by the older one |
| Legacy.ExactSuffixScenario | logging-server.go:42-45 | `/foo/bar` against `/foo/bar/baz` is always rejected by the newer matcher; the older one accepts it exactly when the engine finds the pattern |
| Legacy.EmptyPathWildcard | logging-server.go:42-45 | a rule without a path, under an engine that matches the empty pattern (as Go's does), accepts every path for its method; the corrected newer matcher rejects every non-empty path for it |
| Legacy.DurValue | logging-server.go:59-65 | an empty `Defer` means no wait; any other text is passed verbatim to the parser |
| Legacy.Write | logging-server.go:57-79 | returns the duration text it would wait on; the writer ends in the mocked-response state for the rule's content type, status and body |
| Legacy.FirstMatch | logging-server.go:125-133 | the index found matches and no earlier rule matches; there is none iff no rule matches |
| Legacy.Dispatch | logging-server.go:86-122 | excluded iff the path is listed; unmatched iff it is not listed and no rule matches; otherwise the response of a matching rule with no matching rule before it |
| Legacy.Serve | logging-server.go:86-122 | an excluded path leaves the writer untouched; on a fresh writer the recorded code and body are 200 and nothing, the rule's status (200 when not positive) and body, or 404 and the page naming the request |
| Legacy.DispatchCases | logging-server.go:85-122 | excluded paths end the request before matching; otherwise the earliest matching rule answers; the 404 page is chosen iff nothing is excluded and nothing matches |
| Legacy.Globals.constructor | logging-server.go:140-152 | the globals hold the decoded rules and the sorted default exclude list |
| Legacy.Globals.FindMatcher | logging-server.go:125-133 | the loop returns the rule at the first matching index of `mockConfig`, or none |
| Legacy.Globals.LogRequest | logging-server.go:85-123 | the writer ends as `Serve` prescribes: untouched for an excluded path, the first matching rule's response, or the 404 page |

## Findings

| source | as written | input that shows it | evidently intended | confidence | as-written member | corrected member |
|---|---|---|---|---|---|---|
| loggingserver/matcher.go:111-113 | `pathIsRegexp` evaluates `Path[0:1]`, which panics on an empty `Path`; `Matches` calls it for every request whose method matches | the rule `{"Method": "GET"}` (no `Path`) and any GET request | an empty path is an exact pattern that matches only the empty request path, with no panic (the older variant's empty pattern is the empty regexp instead, a wildcard for the method: `Legacy.EmptyPathWildcard`) | not executed; medium | Matcher.MatchesAsWritten (counterexample: Matcher.EmptyPathPanics) | Matcher.Matches (property: Matcher.EmptyPathMatchesOnlyEmptyPath) |

## Left out

- The regular expression engine (`regexp.MatchString`) is the parameter `re`. A pattern that fails to compile is folded into `false`, as the code discards the error.
- Server.FirstMatch, Server.Dispatch, Server.Serve, Server.LoggingServer.FindMatcher and Server.LoggingServer.ServeHTTP use the corrected `Matcher.Matches`. Where the code panics on a rule with an empty `Path` reached by a request with the same method, and the handler with it, the model skips that rule and goes on to the next match or to the 404 page. `Matcher.MatchesAsWritten` records exactly where the code panics.
- Strings are modelled as character sequences, not as Go's byte strings. Go's byte comparison, equality and the `[0:1]` slice agree with the model only for valid UTF-8. A percent-decoded `URL.Path` holding invalid UTF-8 is not representable.
- Concurrency is not modelled: the `sync.RWMutex`, the `refreshMockConfig` goroutine, its ticker, the `quit` channel and `Stop`. Each reload is one atomic transition. Also not modelled: `loadMockConfig` reads `mtime` and `MockConfig` without holding the lock.
- `NewLoggingServer`'s `poll` argument is not modelled; it only starts the refresh goroutine.
- Duration parsing (`time.ParseDuration`), its error log, and the wait (`<-time.After`) are not modelled. So is the `%fs` formatting of a numeric `Defer`. `Write` only returns the duration text it would hand to the parser.
- JSON is not modelled (`json.Marshal`, `json.NewDecoder(...).Decode`, `json.Unmarshal`). A rule's body is its marshalled text. A decode is an abstract `Success(config)` or `Failure(cause)`. A swallowed marshal failure is not modelled.
- File-system calls are not modelled (`os.Stat`, `os.Open`, `ioutil.ReadFile`). Their outcomes are the fields of `ConfigFile`. A time is an integer, and "before" is `<`.
- `sort.Sort` of the exclude list is not modelled. The sorted list is always the one-element default, which is already sorted. The class invariant `Valid()` records that the list is sorted.
- Request logging is not modelled: `req.ParseForm`, the form dump, the colored output, and the `DebugMatcher` diagnostics.
- `main` is not modelled: flag parsing, `http.ListenAndServe`, and the `log.Fatalf` calls on startup failures. In the older variant, the rules `main` decodes are the argument of the `Globals` constructor.
- Details of `net/http` are not modelled: panics on status codes outside 100–999, content-type sniffing when no `Content-Type` was set, and header-key canonicalisation.
- Http.Code, Http.MockedReply, Server.Serve and Legacy.Serve: these give the status and body the handler hands the writer, not what the client receives. So they do not model the transport refusing a body after status 204 or 304 (`http.ErrBodyNotAllowed`, which `matcher.go:104` ignores). Nor do they model a body being discarded for a HEAD request. For example, a rule with `StatusCode` 204 with `GET` against its path records the body `null`, where the client gets 204 with an empty body.
- Http.AfterWriteHeader: a code from 100 to 199 is taken as the final status. Since Go 1.19, such a code is sent as an informational header, and the later `Write` sends 200.
- The unexported, unused `id` field of `MockMatcher` is not modelled. Neither is the unused `req` argument of `Write`.

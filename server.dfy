/** The server of loggingserver/server.go: dispatching a request over the
    current rules, and the configuration store with its reload step. */
module Server {
  import opened Wrappers
  import opened Http
  import opened Search
  import opened Matcher

  /** `MockConfig`, a slice that may be nil: the constructor leaves it nil
      until the first load, and a configuration document `null` decodes to nil. */
  datatype MockConfig = NilConfig | Config(matchers: seq<MockMatcher>) {
    /** The rules a `range` over the slice visits. */
    function Items(): seq<MockMatcher>
    {
      if NilConfig? then [] else matchers
    }
  }

  /** The index of the first rule that matches, in slice order. */
  function FirstMatch(rules: seq<MockMatcher>, req: Request, re: Regexp): (r: Option<nat>)
    ensures r.Some? ==> r.value < |rules| && Matches(rules[r.value], req, re)
    ensures r.Some? ==> forall k :: 0 <= k < r.value ==> !Matches(rules[k], req, re)
    ensures r.None? <==> forall k :: 0 <= k < |rules| ==> !Matches(rules[k], req, re)
  {
    if |rules| == 0 then None
    else if Matches(rules[0], req, re) then Some(0)
    else match FirstMatch(rules[1..], req, re)
      case None => None
      case Some(i) => Some(i + 1)
  }

  /** A rule that matches with no matching rule before it is the one found. */
  lemma FirstMatchIs(rules: seq<MockMatcher>, i: nat, req: Request, re: Regexp)
    requires i < |rules| && Matches(rules[i], req, re)
    requires forall k :: 0 <= k < i ==> !Matches(rules[k], req, re)
    ensures FirstMatch(rules, req, re) == Some(i)
  {
  }

  /** What `ServeHTTP` decides: excluded paths end the request at once; any
      other request gets the first matching rule's response, or the 404 page. */
  function Dispatch(excludes: seq<string>, config: MockConfig, req: Request, re: Regexp): (d: Decision<MockResponse>)
    ensures d.Excluded? <==> req.Path in excludes
    ensures d.Unmatched? <==>
      req.Path !in excludes && forall k :: 0 <= k < |config.Items()| ==> !Matches(config.Items()[k], req, re)
    ensures d.Mocked? ==>
      exists i ::
        && 0 <= i < |config.Items()| && Matches(config.Items()[i], req, re)
        && d.response == config.Items()[i].Response
        && forall k :: 0 <= k < i ==> !Matches(config.Items()[k], req, re)
  {
    if req.Path in excludes then Excluded
    else match FirstMatch(config.Items(), req, re)
      case Some(i) => Mocked(config.Items()[i].Response)
      case None => Unmatched
  }

  /** The writer after `ServeHTTP`. */
  function Serve(s: WriterState, excludes: seq<string>, config: MockConfig, req: Request, re: Regexp): (t: WriterState)
    ensures req.Path in excludes ==> t == s
    ensures req.Path !in excludes ==> t.wroteHeader
    ensures !s.wroteHeader ==> match Dispatch(excludes, config, req, re)
      case Excluded => Code(t) == StatusOK && t.body == s.body
      case Mocked(r) => Code(t) == (if r.StatusCode > 0 then r.StatusCode else StatusOK) && t.body == s.body + r.Body
      case Unmatched => Code(t) == StatusNotFound && t.body == s.body + UnmatchedBody(req.Path, req.Method)
  {
    match Dispatch(excludes, config, req, re)
    case Excluded => s
    case Mocked(r) => MockedEffect(s, r.ContentType, r.StatusCode, r.Body)
    case Unmatched => UnmatchedEffect(s, req)
  }

  /** An excluded path is answered before any rule is consulted: the
      configuration plays no part and nothing is written. */
  lemma ExcludedShortCircuits(s: WriterState, excludes: seq<string>, config: MockConfig, req: Request, re: Regexp)
    requires req.Path in excludes
    ensures Dispatch(excludes, config, req, re) == Excluded
    ensures Serve(s, excludes, config, req, re) == s
  {
  }

  /** First match wins: the response is that of the earliest matching rule,
      whatever later rules also match. */
  lemma FirstMatchWins(excludes: seq<string>, config: MockConfig, i: nat, req: Request, re: Regexp)
    requires req.Path !in excludes
    requires i < |config.Items()| && Matches(config.Items()[i], req, re)
    requires forall k :: 0 <= k < i ==> !Matches(config.Items()[k], req, re)
    ensures Dispatch(excludes, config, req, re) == Mocked(config.Items()[i].Response)
  {
    FirstMatchIs(config.Items(), i, req, re);
  }

  /** Of two rules that both match, the one declared first answers. */
  lemma EarlierRuleWins(excludes: seq<string>, a: MockMatcher, b: MockMatcher, rest: seq<MockMatcher>,
                        req: Request, re: Regexp)
    requires req.Path !in excludes
    requires Matches(a, req, re) && Matches(b, req, re)
    ensures Dispatch(excludes, Config([a, b] + rest), req, re) == Mocked(a.Response)
  {
    FirstMatchWins(excludes, Config([a, b] + rest), 0, req, re);
  }

  /** The 404 page is sent exactly when the path is not excluded and no rule
      matches, and then it carries 404 and names the path and the method. */
  lemma UnmatchedIff(s: WriterState, excludes: seq<string>, config: MockConfig, req: Request, re: Regexp)
    requires !s.wroteHeader
    ensures Dispatch(excludes, config, req, re) == Unmatched <==>
      req.Path !in excludes && forall k :: 0 <= k < |config.Items()| ==> !Matches(config.Items()[k], req, re)
    ensures Dispatch(excludes, config, req, re) == Unmatched ==>
      var t := Serve(s, excludes, config, req, re);
      && Code(t) == StatusNotFound
      && t.body == s.body + UnmatchedBody(req.Path, req.Method)
  {
  }

  /** The handler test of loggingserver/server_test.go: a rule for GET /foo
      without a status code answers GET /foo with 200 and the rule's body. */
  lemma ServerHandlerScenario(body: string, re: Regexp)
    ensures var rule := MockMatcher("GET", "/foo", "", MockResponse(0, "", body, DeferOther));
      var t := Serve(FreshWriter, DefaultExcludePaths, Config([rule]), Request("GET", "/foo", ""), re);
      && Code(t) == StatusOK
      && t.body == body
      && t.sentHeader == map["Content-Type" := DefaultContentType]
  {
  }

  /** A file modification time. */
  type Time = int

  /** The zero `time.Time` a new server starts from. */
  const ZeroTime: Time := 0

  /** What the file system and the decoder report for the configuration
      file: the `os.Stat` result, an `os.Open` error if any, and the result of
      decoding its contents. */
  datatype ConfigFile = ConfigFile(stat: Result<Time, string>, openError: Option<string>,
                                   decoded: Result<MockConfig, string>)

  datatype LoadError = StatFailed(cause: string) | OpenFailed(cause: string) | ParseFailed(path: string, cause: string)

  /** The two fields a reload writes: `mtime` and `MockConfig`. */
  datatype Store = Store(mtime: Time, config: MockConfig)

  datatype LoadResult = LoadResult(store: Store, err: Option<LoadError>)

  const InitialStore: Store := Store(ZeroTime, NilConfig)

  /** The reload is skipped when the file is strictly older than the loaded
      configuration and a configuration is loaded. */
  predicate Skips(st: Store, fileTime: Time): (r: bool)
    ensures r ==> st.config != NilConfig
    ensures st.mtime <= fileTime ==> !r
  {
    fileTime < st.mtime && st.config != NilConfig
  }

  /** `loadMockConfig` as a transition of the store. A failure leaves the
      store as it was; anything else either keeps it or installs the file's
      time together with its decoded rules. */
  function Load(st: Store, path: string, f: ConfigFile): (r: LoadResult)
    ensures r.err.Some? ==> r.store == st
    ensures r.store == st
            || (f.stat.Success? && f.openError.None? && f.decoded.Success?
                && r.store == Store(f.stat.value, f.decoded.value))
  {
    match f.stat
    case Failure(e) => LoadResult(st, Some(StatFailed(e)))
    case Success(fileTime) =>
      if Skips(st, fileTime) then LoadResult(st, None)
      else if f.openError.Some? then LoadResult(st, Some(OpenFailed(f.openError.value)))
      else match f.decoded
        case Failure(e) => LoadResult(st, Some(ParseFailed(path, e)))
        case Success(config) => LoadResult(Store(fileTime, config), None)
  }

  /** Exactly three things make a load fail: the stat fails, or the reload is
      not skipped and the open or the decode fails. */
  lemma LoadErrorCases(st: Store, path: string, f: ConfigFile)
    ensures Load(st, path, f).err.Some? <==>
      f.stat.Failure?
      || (!Skips(st, f.stat.value) && (f.openError.Some? || f.decoded.Failure?))
  {
  }

  /** The skip rule: an older file over a loaded configuration is a no-op
      whatever the open and the decode would give; in every other case a
      good file is installed, an equally old one included. */
  lemma SkipRule(st: Store, path: string, f: ConfigFile)
    requires f.stat.Success?
    ensures Skips(st, f.stat.value) ==> Load(st, path, f) == LoadResult(st, None)
    ensures !Skips(st, f.stat.value) && f.openError.None? && f.decoded.Success? ==>
      Load(st, path, f) == LoadResult(Store(f.stat.value, f.decoded.value), None)
    ensures f.stat.value == st.mtime && f.openError.None? && f.decoded.Success? ==>
      Load(st, path, f).store == Store(st.mtime, f.decoded.value)
  {
  }

  /** Loading the same file twice changes nothing the first load did not. */
  lemma LoadIdempotent(st: Store, path: string, f: ConfigFile)
    ensures Load(Load(st, path, f).store, path, f) == Load(st, path, f)
  {
  }

  /** The store after a sequence of refresh ticks; errors are ignored. A
      run of ticks none of which could install anything leaves it as it was. */
  function Ticks(st: Store, path: string, files: seq<ConfigFile>): (r: Store)
    ensures (forall k :: 0 <= k < |files| ==>
               files[k].stat.Failure? || files[k].openError.Some? || files[k].decoded.Failure?) ==> r == st
    decreases |files|
  {
    if |files| == 0 then st else Ticks(Load(st, path, files[0]).store, path, files[1..])
  }

  /** Whether a load of `f` over `st` installs the file's rules. */
  predicate Installs(st: Store, f: ConfigFile)
  {
    f.stat.Success? && !Skips(st, f.stat.value) && f.openError.None? && f.decoded.Success?
  }

  /** A tick that does not install leaves the store as it was; one that does
      installs its file's time and rules. */
  lemma LoadInstalls(st: Store, path: string, f: ConfigFile)
    ensures !Installs(st, f) ==> Load(st, path, f).store == st
    ensures Installs(st, f) ==> Load(st, path, f).store == Store(f.stat.value, f.decoded.value)
  {
  }

  lemma {:induction false} TicksSnoc(st: Store, path: string, files: seq<ConfigFile>, f: ConfigFile)
    ensures Ticks(st, path, files + [f]) == Load(Ticks(st, path, files), path, f).store
    decreases |files|
  {
    if |files| == 0 {
      assert files + [f] == [f];
    } else {
      assert (files + [f])[1..] == files[1..] + [f];
      TicksSnoc(Load(st, path, files[0]).store, path, files[1..], f);
    }
  }

  /** The server serves the last good configuration: after any sequence of
      refresh ticks the store is the one installed by the last tick that
      installed anything, or the initial store when no tick did. */
  lemma {:induction false} TicksServeLastGood(st: Store, path: string, files: seq<ConfigFile>)
    ensures (forall j :: 0 <= j < |files| ==> !Installs(Ticks(st, path, files[..j]), files[j]))
            ==> Ticks(st, path, files) == st
    ensures forall k :: 0 <= k < |files| && Installs(Ticks(st, path, files[..k]), files[k])
              && (forall j :: k < j < |files| ==> !Installs(Ticks(st, path, files[..j]), files[j]))
              ==> Ticks(st, path, files) == Store(files[k].stat.value, files[k].decoded.value)
    decreases |files|
  {
    if |files| > 0 {
      var n := |files| - 1;
      var pre, last := files[..n], files[n];
      assert files == pre + [last];
      assert files[..n] == pre;
      forall j | 0 <= j < n
        ensures files[..j] == pre[..j] && files[j] == pre[j]
      {
      }
      TicksServeLastGood(st, path, pre);
      TicksSnoc(st, path, pre, last);
      LoadInstalls(Ticks(st, path, pre), path, last);
    }
  }

  /** The hot-reload test of loggingserver/server_test.go: from an empty
      configuration, one tick over a newer or equally old file holding a GET /
      rule makes GET / matchable. */
  lemma HotReloadScenario(t0: Time, t1: Time, path: string, rule: MockMatcher, re: Regexp)
    requires t0 <= t1
    requires rule.Method == "GET" && rule.Path == "/" && rule.QueryString == ""
    ensures var after := Ticks(Store(t0, Config([])), path,
                               [ConfigFile(Success(t1), None, Success(Config([rule])))]);
      && after == Store(t1, Config([rule]))
      && Dispatch(DefaultExcludePaths, after.config, Request("GET", "/", ""), re) == Mocked(rule.Response)
  {
  }

  /** A new server's first load is never skipped: success installs the file. */
  lemma InitialLoadInstalls(path: string, f: ConfigFile)
    ensures Load(InitialStore, path, f).err.None? ==>
      f.stat.Success? && f.decoded.Success? &&
      Load(InitialStore, path, f).store == Store(f.stat.value, f.decoded.value)
  {
  }

  /** `LoggingServer`, without its lock and quit channel. */
  class LoggingServer {
    var ExcludePaths: seq<string>
    var MockConfig: MockConfig
    var mtime: Time

    ghost predicate Valid()
      reads this
    {
      Sorted(ExcludePaths)
    }

    function Snapshot(): Store
      reads this
    {
      Store(mtime, MockConfig)
    }

    /** The struct literal of `NewLoggingServer`, with the exclude list sorted. */
    constructor ()
      ensures Valid() && ExcludePaths == DefaultExcludePaths && Snapshot() == InitialStore
    {
      ExcludePaths := DefaultExcludePaths;
      MockConfig := NilConfig;
      mtime := ZeroTime;
    }

    /** `loadMockConfig(filePath)`, the file system's answers given as `f`. */
    method LoadMockConfig(filePath: string, f: ConfigFile) returns (err: Option<LoadError>)
      modifies this
      ensures Snapshot() == Load(old(Snapshot()), filePath, f).store
      ensures err == Load(old(Snapshot()), filePath, f).err
      ensures ExcludePaths == old(ExcludePaths)
    {
      if f.stat.Failure? {
        return Some(StatFailed(f.stat.error));
      }
      var fileTime := f.stat.value;
      if fileTime < mtime && MockConfig != NilConfig {
        return None;
      }
      if f.openError.Some? {
        return Some(OpenFailed(f.openError.value));
      }
      if f.decoded.Failure? {
        return Some(ParseFailed(filePath, f.decoded.error));
      }
      mtime := fileTime;
      MockConfig := f.decoded.value;
      return None;
    }

    /** One tick of `refreshMockConfig`: reload and ignore the error. */
    method RefreshTick(filePath: string, f: ConfigFile)
      modifies this
      ensures Snapshot() == Load(old(Snapshot()), filePath, f).store
      ensures ExcludePaths == old(ExcludePaths)
    {
      var _ := LoadMockConfig(filePath, f);
    }

    /** `findMatcher`: the first rule in slice order that matches, or none. */
    method FindMatcher(req: Request, re: Regexp) returns (m: Option<MockMatcher>)
      ensures match FirstMatch(MockConfig.Items(), req, re)
        case None => m == None
        case Some(i) => m == Some(MockConfig.Items()[i])
    {
      var rules := MockConfig.Items();
      var i := 0;
      while i < |rules|
        invariant 0 <= i <= |rules|
        invariant forall k :: 0 <= k < i ==> !Matches(rules[k], req, re)
      {
        if Matches(rules[i], req, re) {
          FirstMatchIs(rules, i, req, re);
          return Some(rules[i]);
        }
        i := i + 1;
      }
      return None;
    }

    /** `ServeHTTP` without its logging. */
    method ServeHTTP(w: ResponseWriter, req: Request, re: Regexp)
      requires Valid()
      modifies w
      ensures w.View() == Serve(old(w.View()), ExcludePaths, MockConfig, req, re)
    {
      var excluded := IsExcluded(ExcludePaths, req.Path);
      if excluded {
        return;
      }
      var matcher := FindMatcher(req, re);
      match matcher
      case Some(m) =>
        var _ := Write(m, w);
      case None =>
        w.WriteHeader(StatusNotFound);
        w.SetHeader("Content-Type", "text/html");
        w.Write(UnmatchedBody(req.Path, req.Method));
    }
  }

  /** `NewLoggingServer`: without a configuration path the rules are empty
      but not nil; with one, the first load's error is the constructor's
      error, and on success the server holds what was loaded. */
  method NewLoggingServer(mockConfiguration: string, f: ConfigFile) returns (s: LoggingServer?, err: Option<LoadError>)
    ensures mockConfiguration == "" ==>
      && err == None && s != null && fresh(s) && s.Valid()
      && s.ExcludePaths == DefaultExcludePaths && s.Snapshot() == Store(ZeroTime, Config([]))
    ensures mockConfiguration != "" ==>
      && err == Load(InitialStore, mockConfiguration, f).err
      && (s == null <==> err.Some?)
      && (s != null ==> fresh(s) && s.Valid() && s.ExcludePaths == DefaultExcludePaths
                        && s.Snapshot() == Load(InitialStore, mockConfiguration, f).store)
  {
    var server := new LoggingServer();
    if mockConfiguration != "" {
      err := server.LoadMockConfig(mockConfiguration, f);
      if err.Some? {
        return null, err;
      }
    } else {
      server.MockConfig := Config([]);
      err := None;
    }
    s := server;
  }
}

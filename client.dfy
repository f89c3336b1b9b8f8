/**
 * The GhostInspector client object (index.js). Each method does what the source does step
 * by step: it sorts out its arguments, mutates the caller's parameter object, builds the
 * options, hands them to the transport (whose reply is an input), and finishes through the
 * callback or the returned promise. Each is proved to end as the function of module Protocol
 * for its call says.
 */
module Client {
  import opened Js
  import opened Params
  import opened Query
  import opened Form
  import opened Outcome
  import opened Envelope
  import opened Protocol

  /** A JavaScript value passed in an options or callback slot. */
  datatype Arg =
    | Fn(log: CallbackLog)    // a function; `log` records its invocations
    | Obj(obj: ParamObject)   // an object, which request mutates
    | Other                   // undefined, null or a primitive

  /**
   * `if (typeof options === 'function') { callback = options; options = {} }`. The fresh `{}`
   * is modelled as `Other`, which request turns into `{}` again.
   */
  function SortOut(options: Arg, callback: Arg): (r: (Arg, Arg))
    ensures !r.0.Fn?
    ensures options.Fn? ==> r == (Other, options)
    ensures !options.Fn? ==> r == (options, callback)
  {
    if options.Fn? then (Other, options) else (options, callback)
  }

  /** Sorting out twice is sorting out once: the endpoints that sort out before calling request agree with request. */
  lemma SortOutIdempotent(options: Arg, callback: Arg)
    ensures var r := SortOut(options, callback); SortOut(r.0, r.1) == r
  {
  }

  /** The objects a call may change: the caller's parameter object and callback. */
  function Touched(options: Arg, callback: Arg): set<object>
  {
    var (o, cb) := SortOut(options, callback);
    var objs: set<object> := if o.Obj? then {o.obj} else {};
    var logs: set<object> := if cb.Fn? then {cb.log} else {};
    objs + logs
  }

  ghost predicate ParamsValid(options: Arg)
    reads if options.Obj? then {options.obj} else {}
  {
    options.Obj? ==> options.obj.Valid()
  }

  /** The caller's object now holds the key, and the callback saw exactly the calls of `x`. */
  twostate predicate Effects<T>(apiKey: string, options: Arg, callback: Arg, x: Exchange<T>)
    reads Touched(options, callback)
  {
    var (o, cb) := SortOut(options, callback);
    (o.Obj? ==> o.obj.entries == Injected(apiKey, old(o.obj.entries))) &&
    (cb.Fn? ==> cb.log.calls == old(cb.log.calls) + x.calls)
  }

  /** request(method, path, params, callback) ended as RequestExchange says. */
  twostate predicate RequestDone(apiKey: string, m: HttpMethod, path: string, params: Arg, callback: Arg,
                                 reply: Reply, new c: Completion<Data>, new sent: Option<Options>)
    reads Touched(params, callback)
  {
    var (p, cb) := SortOut(params, callback);
    var ps := if p.Obj? then old(p.obj.entries) else [];
    var x := RequestExchange(apiKey, m, path, ps, cb.Fn?, reply);
    c == x.completion && sent == x.sent && Effects(apiKey, params, callback, x)
  }

  /** executeSuite / executeTest ended as ExecuteExchange says. */
  twostate predicate ExecuteDone(apiKey: string, path: string, options: Arg, callback: Arg,
                                 reply: Reply, new c: Completion<(Data, JsValue)>, new sent: Option<Options>)
    reads Touched(options, callback)
  {
    var (o, cb) := SortOut(options, callback);
    var ps := if o.Obj? then old(o.obj.entries) else [];
    var x := ExecuteExchange(apiKey, path, ps, cb.Fn?, reply);
    c == x.completion && sent == x.sent && Effects(apiKey, options, callback, x)
  }

  /** download(path, dest, callback) ended as DownloadExchange says, and the file system took the write. */
  twostate predicate DownloadDone(apiKey: string, path: string, dest: string, callback: Arg, fetch: Fetch,
                                  write: WriteOutcome, fs: FileSystem, new c: Completion<string>, new sent: Options)
    reads fs, Touched(Other, callback)
  {
    var x := DownloadExchange(apiKey, path, dest, callback.Fn?, fetch, write);
    c == x.completion && Some(sent) == x.sent && Effects(apiKey, Other, callback, x) &&
    fs.files == if x.written.Some? && write.WriteOk? then old(fs.files)[dest := x.written.value.1] else old(fs.files)
  }

  /** The local file system, as a map from path to contents. */
  class FileSystem {
    var files: map<string, string>

    constructor (files: map<string, string>)
      ensures this.files == files
    {
      this.files := files;
    }

    /** fs.writeFile(path, data, cb): `outcome` is what the operating system reports; a failed write changes nothing. */
    method WriteFile(path: string, data: string, outcome: WriteOutcome) returns (err: Option<string>)
      modifies this
      ensures err == if outcome.WriteError? then Some(outcome.reason) else None
      ensures files == if outcome.WriteOk? then old(files)[path := data] else old(files)
    {
      if outcome.WriteError? {
        return Some(outcome.reason);
      }
      files := files[path := data];
      return None;
    }
  }

  class GhostInspector {
    const userAgent: string
    const host: string
    const prefix: string
    const apiKey: string

    ghost predicate Valid()
    {
      userAgent == UserAgent && host == Host && prefix == Prefix
    }

    constructor (apiKey: string)
      ensures Valid() && this.apiKey == apiKey
    {
      userAgent := "Ghost Inspector Node.js Bindings";
      host := "https://api.ghostinspector.com";
      prefix := "/v1";
      this.apiKey := apiKey;
    }

    method BuildRequestUrl(path: string) returns (url: string)
      requires Valid()
      ensures url == Protocol.BuildRequestUrl(path)
    {
      url := host + prefix + path;
    }

    /** Reports `err` through the callback when there is one, and otherwise rejects with it. */
    method Fail<T>(callback: Arg, err: Error) returns (c: Completion<T>)
      modifies if callback.Fn? then {callback.log} else {}
      ensures c == Settle<T>(Err(err), callback.Fn?, (x: T) => []).completion
      ensures callback.Fn? ==> callback.log.calls == old(callback.log.calls) + [ErrorCall(err)]
    {
      if callback.Fn? {
        callback.log.Invoke(ErrorCall(err));
        return ReturnedUndefined;
      }
      return Thrown(err);
    }

    /** The options object of request: a form for POST, a query string for any other method. */
    method BuildOptions(m: HttpMethod, path: string, ps: Params) returns (r: Result<Options>)
      requires Valid()
      ensures r == Prepare(m, path, ps)
    {
      var url := BuildRequestUrl(path);
      var options := Options(m, url, userAgent, true, Some(Timeout), None);
      if m == POST {
        var form := BuildFormData(ps);
        if form.Err? {
          return Err(form.error);
        }
        var fields := form.value;
        var dataFile := Lookup(ps, "dataFile");
        if dataFile.Some? && Truthy(dataFile.value) {
          fields := SetKey(fields, "dataFile", ReadStream(ToString(dataFile.value)));
        }
        assert fields == AttachDataFile(form.value, ps);
        r := Ok(options.(formData := Some(fields)));
      } else {
        var q := BuildQueryString(ps);
        r := Ok(options.(uri := options.uri + q));
      }
    }

    /** request(method, path, params, callback) */
    method Request(m: HttpMethod, path: string, params: Arg, callback: Arg, reply: Reply)
      returns (c: Completion<Data>, sent: Option<Options>)
      requires Valid() && ParamsValid(params)
      modifies Touched(params, callback)
      ensures RequestDone(apiKey, m, path, params, callback, reply, c, sent)
    {
      var (p, cb) := SortOut(params, callback);
      var ps: Params;
      if p.Obj? {
        p.obj.Put("apiKey", Scalar(Str(apiKey)));
        ps := p.obj.entries;
      } else {
        ps := SetKey([], "apiKey", Scalar(Str(apiKey)));
      }
      var options := BuildOptions(m, path, ps);
      if options.Err? {
        return Thrown(options.error), None;
      }
      sent := Some(options.value);
      c := Respond(cb, reply);
    }

    /** The `.then` and `.catch` of request: the envelope's data, or its error, reported the usual way. */
    method Respond(cb: Arg, reply: Reply) returns (c: Completion<Data>)
      modifies if cb.Fn? then {cb.log} else {}
      ensures var s := Settle(Unwrap(reply), cb.Fn?, DataPayloads);
        c == s.completion && (cb.Fn? ==> cb.log.calls == old(cb.log.calls) + s.calls)
    {
      match reply
      case TransportError(reason) =>
        c := Fail(cb, TransportFailure(reason));
      case Body(code, message, data) =>
        if code == "ERROR" {
          c := Fail(cb, ApiError(message));
        } else {
          if cb.Fn? {
            cb.log.Invoke(SuccessCall(DataPayloads(data)));
          }
          c := Returned(data);
        }
    }

    /** executeSuite / executeTest, which share their code. */
    method Execute(path: string, options: Arg, callback: Arg, reply: Reply)
      returns (c: Completion<(Data, JsValue)>, sent: Option<Options>)
      requires Valid() && ParamsValid(options)
      modifies Touched(options, callback)
      ensures ExecuteDone(apiKey, path, options, callback, reply, c, sent)
    {
      var (o, cb) := SortOut(options, callback);
      var data;
      data, sent := Request(POST, path, o, Other, reply);
      c := Conclude(cb, data);
    }

    /** The rest of execute: the outcome of the data, outside the `try`, then the callback or the promise. */
    method Conclude(cb: Arg, data: Completion<Data>) returns (c: Completion<(Data, JsValue)>)
      modifies if cb.Fn? then {cb.log} else {}
      ensures var s := ExecuteSettled(data, cb.Fn?);
        c == s.completion && (cb.Fn? ==> cb.log.calls == old(cb.log.calls) + s.calls)
    {
      if data.Thrown? {
        c := Fail(cb, data.error);
        return;
      }
      var d := if data.Returned? then data.value else Nothing;
      var passing := GetOverallResultOutcome(d);
      if passing.Err? {
        return Thrown(passing.error);
      }
      if cb.Fn? {
        cb.log.Invoke(SuccessCall(OutcomePayloads((d, passing.value))));
      }
      c := Returned((d, passing.value));
    }

    /** download(path, dest, callback) */
    method Download(path: string, dest: string, callback: Arg, fetch: Fetch, write: WriteOutcome, fs: FileSystem)
      returns (c: Completion<string>, sent: Options)
      requires Valid()
      modifies fs, Touched(Other, callback)
      ensures DownloadDone(apiKey, path, dest, callback, fetch, write, fs, c, sent)
    {
      var params: Params := [("apiKey", Scalar(Str(apiKey)))];
      var url := BuildRequestUrl(path);
      var q := BuildQueryString(params);
      sent := Options(GET, url + q, userAgent, false, None, None);
      if fetch.FetchError? {
        c := Fail(callback, TransportFailure(fetch.reason));
        return;
      }
      var data := fetch.body;
      var err := fs.WriteFile(dest, data, write);
      if err.Some? {
        c := Fail(callback, WriteFailure(err.value));
        return;
      }
      if callback.Fn? {
        callback.log.Invoke(SuccessCall([ContentPayload(data)]));
      }
      c := Returned(data);
    }

    /** getSuites(callback) */
    method GetSuites(callback: Arg, reply: Reply) returns (c: Completion<Data>, sent: Option<Options>)
      requires Valid() && ParamsValid(callback)
      modifies Touched(callback, Other)
      ensures RequestDone(apiKey, GET, "/suites/", callback, Other, reply, c, sent)
    {
      c, sent := Request(GET, "/suites/", callback, Other, reply);
    }

    /** getSuite(suiteId, callback) */
    method GetSuite(suiteId: string, callback: Arg, reply: Reply) returns (c: Completion<Data>, sent: Option<Options>)
      requires Valid() && ParamsValid(callback)
      modifies Touched(callback, Other)
      ensures RequestDone(apiKey, GET, "/suites/" + suiteId + "/", callback, Other, reply, c, sent)
    {
      c, sent := Request(GET, "/suites/" + suiteId + "/", callback, Other, reply);
    }

    /** getSuiteTests(suiteId, callback) */
    method GetSuiteTests(suiteId: string, callback: Arg, reply: Reply) returns (c: Completion<Data>, sent: Option<Options>)
      requires Valid() && ParamsValid(callback)
      modifies Touched(callback, Other)
      ensures RequestDone(apiKey, GET, "/suites/" + suiteId + "/tests/", callback, Other, reply, c, sent)
    {
      c, sent := Request(GET, "/suites/" + suiteId + "/tests/", callback, Other, reply);
    }

    /** getSuiteResults(suiteId, options, callback) */
    method GetSuiteResults(suiteId: string, options: Arg, callback: Arg, reply: Reply) returns (c: Completion<Data>, sent: Option<Options>)
      requires Valid() && ParamsValid(options)
      modifies Touched(options, callback)
      ensures RequestDone(apiKey, GET, "/suites/" + suiteId + "/results/", options, callback, reply, c, sent)
    {
      var (o, cb) := SortOut(options, callback);
      SortOutIdempotent(options, callback);
      c, sent := Request(GET, "/suites/" + suiteId + "/results/", o, cb, reply);
    }

    /** executeSuite(suiteId, options, callback) */
    method ExecuteSuite(suiteId: string, options: Arg, callback: Arg, reply: Reply)
      returns (c: Completion<(Data, JsValue)>, sent: Option<Options>)
      requires Valid() && ParamsValid(options)
      modifies Touched(options, callback)
      ensures ExecuteDone(apiKey, "/suites/" + suiteId + "/execute/", options, callback, reply, c, sent)
    {
      c, sent := Execute("/suites/" + suiteId + "/execute/", options, callback, reply);
    }

    /** downloadSuiteSeleniumHtml(suiteId, dest, callback) */
    method DownloadSuiteSeleniumHtml(suiteId: string, dest: string, callback: Arg, fetch: Fetch, write: WriteOutcome, fs: FileSystem)
      returns (c: Completion<string>, sent: Options)
      requires Valid()
      modifies fs, Touched(Other, callback)
      ensures DownloadDone(apiKey, "/suites/" + suiteId + "/export/selenium-html/", dest, callback, fetch, write, fs, c, sent)
    {
      c, sent := Download("/suites/" + suiteId + "/export/selenium-html/", dest, callback, fetch, write, fs);
    }

    /** downloadSuiteSeleniumJson(suiteId, dest, callback) */
    method DownloadSuiteSeleniumJson(suiteId: string, dest: string, callback: Arg, fetch: Fetch, write: WriteOutcome, fs: FileSystem)
      returns (c: Completion<string>, sent: Options)
      requires Valid()
      modifies fs, Touched(Other, callback)
      ensures DownloadDone(apiKey, "/suites/" + suiteId + "/export/selenium-json/", dest, callback, fetch, write, fs, c, sent)
    {
      c, sent := Download("/suites/" + suiteId + "/export/selenium-json/", dest, callback, fetch, write, fs);
    }

    /** downloadSuiteSeleniumSide(suiteId, dest, callback) */
    method DownloadSuiteSeleniumSide(suiteId: string, dest: string, callback: Arg, fetch: Fetch, write: WriteOutcome, fs: FileSystem)
      returns (c: Completion<string>, sent: Options)
      requires Valid()
      modifies fs, Touched(Other, callback)
      ensures DownloadDone(apiKey, "/suites/" + suiteId + "/export/selenium-side/", dest, callback, fetch, write, fs, c, sent)
    {
      c, sent := Download("/suites/" + suiteId + "/export/selenium-side/", dest, callback, fetch, write, fs);
    }

    /** getTests(callback) */
    method GetTests(callback: Arg, reply: Reply) returns (c: Completion<Data>, sent: Option<Options>)
      requires Valid() && ParamsValid(callback)
      modifies Touched(callback, Other)
      ensures RequestDone(apiKey, GET, "/tests/", callback, Other, reply, c, sent)
    {
      c, sent := Request(GET, "/tests/", callback, Other, reply);
    }

    /** getTest(testId, callback) */
    method GetTest(testId: string, callback: Arg, reply: Reply) returns (c: Completion<Data>, sent: Option<Options>)
      requires Valid() && ParamsValid(callback)
      modifies Touched(callback, Other)
      ensures RequestDone(apiKey, GET, "/tests/" + testId + "/", callback, Other, reply, c, sent)
    {
      c, sent := Request(GET, "/tests/" + testId + "/", callback, Other, reply);
    }

    /** getTestResults(testId, options, callback) */
    method GetTestResults(testId: string, options: Arg, callback: Arg, reply: Reply) returns (c: Completion<Data>, sent: Option<Options>)
      requires Valid() && ParamsValid(options)
      modifies Touched(options, callback)
      ensures RequestDone(apiKey, GET, "/tests/" + testId + "/results/", options, callback, reply, c, sent)
    {
      var (o, cb) := SortOut(options, callback);
      SortOutIdempotent(options, callback);
      c, sent := Request(GET, "/tests/" + testId + "/results/", o, cb, reply);
    }

    /** executeTest(testId, options, callback) */
    method ExecuteTest(testId: string, options: Arg, callback: Arg, reply: Reply)
      returns (c: Completion<(Data, JsValue)>, sent: Option<Options>)
      requires Valid() && ParamsValid(options)
      modifies Touched(options, callback)
      ensures ExecuteDone(apiKey, "/tests/" + testId + "/execute/", options, callback, reply, c, sent)
    {
      c, sent := Execute("/tests/" + testId + "/execute/", options, callback, reply);
    }

    /** downloadTestSeleniumHtml(testId, dest, callback) */
    method DownloadTestSeleniumHtml(testId: string, dest: string, callback: Arg, fetch: Fetch, write: WriteOutcome, fs: FileSystem)
      returns (c: Completion<string>, sent: Options)
      requires Valid()
      modifies fs, Touched(Other, callback)
      ensures DownloadDone(apiKey, "/tests/" + testId + "/export/selenium-html/", dest, callback, fetch, write, fs, c, sent)
    {
      c, sent := Download("/tests/" + testId + "/export/selenium-html/", dest, callback, fetch, write, fs);
    }

    /** downloadTestSeleniumJson(testId, dest, callback) */
    method DownloadTestSeleniumJson(testId: string, dest: string, callback: Arg, fetch: Fetch, write: WriteOutcome, fs: FileSystem)
      returns (c: Completion<string>, sent: Options)
      requires Valid()
      modifies fs, Touched(Other, callback)
      ensures DownloadDone(apiKey, "/tests/" + testId + "/export/selenium-json/", dest, callback, fetch, write, fs, c, sent)
    {
      c, sent := Download("/tests/" + testId + "/export/selenium-json/", dest, callback, fetch, write, fs);
    }

    /** downloadTestSeleniumSide(testId, dest, callback) */
    method DownloadTestSeleniumSide(testId: string, dest: string, callback: Arg, fetch: Fetch, write: WriteOutcome, fs: FileSystem)
      returns (c: Completion<string>, sent: Options)
      requires Valid()
      modifies fs, Touched(Other, callback)
      ensures DownloadDone(apiKey, "/tests/" + testId + "/export/selenium-side/", dest, callback, fetch, write, fs, c, sent)
    {
      c, sent := Download("/tests/" + testId + "/export/selenium-side/", dest, callback, fetch, write, fs);
    }

    /** getSuiteResult(resultId, callback) */
    method GetSuiteResult(resultId: string, callback: Arg, reply: Reply) returns (c: Completion<Data>, sent: Option<Options>)
      requires Valid() && ParamsValid(callback)
      modifies Touched(callback, Other)
      ensures RequestDone(apiKey, GET, "/suite-results/" + resultId + "/", callback, Other, reply, c, sent)
    {
      c, sent := Request(GET, "/suite-results/" + resultId + "/", callback, Other, reply);
    }

    /** getSuiteResultTestResults(resultId, callback) */
    method GetSuiteResultTestResults(resultId: string, callback: Arg, reply: Reply) returns (c: Completion<Data>, sent: Option<Options>)
      requires Valid() && ParamsValid(callback)
      modifies Touched(callback, Other)
      ensures RequestDone(apiKey, GET, "/suite-results/" + resultId + "/results/", callback, Other, reply, c, sent)
    {
      c, sent := Request(GET, "/suite-results/" + resultId + "/results/", callback, Other, reply);
    }

    /** cancelSuiteResult(resultId, callback) */
    method CancelSuiteResult(resultId: string, callback: Arg, reply: Reply) returns (c: Completion<Data>, sent: Option<Options>)
      requires Valid() && ParamsValid(callback)
      modifies Touched(callback, Other)
      ensures RequestDone(apiKey, GET, "/suite-results/" + resultId + "/cancel/", callback, Other, reply, c, sent)
    {
      c, sent := Request(GET, "/suite-results/" + resultId + "/cancel/", callback, Other, reply);
    }

    /** getTestResult(resultId, callback) */
    method GetTestResult(resultId: string, callback: Arg, reply: Reply) returns (c: Completion<Data>, sent: Option<Options>)
      requires Valid() && ParamsValid(callback)
      modifies Touched(callback, Other)
      ensures RequestDone(apiKey, GET, "/results/" + resultId + "/", callback, Other, reply, c, sent)
    {
      c, sent := Request(GET, "/results/" + resultId + "/", callback, Other, reply);
    }

    /** getResult(resultId, callback): a legacy alias of getTestResult */
    method GetResult(resultId: string, callback: Arg, reply: Reply) returns (c: Completion<Data>, sent: Option<Options>)
      requires Valid() && ParamsValid(callback)
      modifies Touched(callback, Other)
      ensures RequestDone(apiKey, GET, "/results/" + resultId + "/", callback, Other, reply, c, sent)
    {
      c, sent := GetTestResult(resultId, callback, reply);
    }

    /** cancelTestResult(resultId, callback) */
    method CancelTestResult(resultId: string, callback: Arg, reply: Reply) returns (c: Completion<Data>, sent: Option<Options>)
      requires Valid() && ParamsValid(callback)
      modifies Touched(callback, Other)
      ensures RequestDone(apiKey, GET, "/results/" + resultId + "/cancel/", callback, Other, reply, c, sent)
    {
      c, sent := Request(GET, "/results/" + resultId + "/cancel/", callback, Other, reply);
    }

    /** cancelResult(resultId, callback): a legacy alias of cancelTestResult */
    method CancelResult(resultId: string, callback: Arg, reply: Reply) returns (c: Completion<Data>, sent: Option<Options>)
      requires Valid() && ParamsValid(callback)
      modifies Touched(callback, Other)
      ensures RequestDone(apiKey, GET, "/results/" + resultId + "/cancel/", callback, Other, reply, c, sent)
    {
      c, sent := CancelTestResult(resultId, callback, reply);
    }
  }
}

/**
 * What one call of the client sends and how it ends, as functions of its inputs (index.js,
 * buildRequestUrl, request, executeSuite/executeTest, download). The transport reply, the
 * fetched download and the outcome of the file write are inputs; the GhostInspector class
 * in module Client is proved to behave as these functions say.
 */
module Protocol {
  import opened Js
  import opened Params
  import opened Uri
  import opened Query
  import opened Form
  import opened Outcome
  import opened Envelope

  const UserAgent := "Ghost Inspector Node.js Bindings"
  const Host := "https://api.ghostinspector.com"
  const Prefix := "/v1"
  /** The request timeout, in milliseconds: one hour. */
  const Timeout: nat := 3600000

  datatype HttpMethod = GET | POST

  /** The options object handed to the HTTP layer. */
  datatype Options = Options(
    verb: HttpMethod,
    uri: string,
    userAgent: string,
    json: bool,
    timeout: Option<nat>,
    formData: Option<FormFields>)

  /** buildRequestUrl: the API host and version prefix, then the endpoint path. */
  function BuildRequestUrl(path: string): (url: string)
    ensures |url| == |Host| + |Prefix| + |path|
    ensures url[..|Host|] == Host && url[|Host|..|Host| + |Prefix|] == Prefix
    ensures url[|Host| + |Prefix|..] == path
  {
    Host + Prefix + path
  }

  /** `params.apiKey = this.apiKey` */
  function Injected(apiKey: string, ps: Params): (r: Params)
    ensures Lookup(r, "apiKey") == Some(Scalar(Str(apiKey)))
    ensures forall k {:trigger Lookup(r, k)} :: k != "apiKey" ==> Lookup(r, k) == Lookup(ps, k)
    ensures DistinctKeys(ps) ==> DistinctKeys(r)
  {
    SetKey(ps, "apiKey", Scalar(Str(apiKey)))
  }

  /** A truthy `dataFile` parameter replaces its form field by a read stream on `String(dataFile)`. */
  function AttachDataFile(form: FormFields, ps: Params): (r: FormFields)
    ensures forall k {:trigger Lookup(r, k)} :: k != "dataFile" ==> Lookup(r, k) == Lookup(form, k)
    ensures var d := Lookup(ps, "dataFile");
      if d.Some? && Truthy(d.value) then Lookup(r, "dataFile") == Some(ReadStream(ToString(d.value)))
      else r == form
    ensures DistinctKeys(form) ==> DistinctKeys(r)
  {
    match Lookup(ps, "dataFile")
    case Some(v) => if Truthy(v) then SetKey(form, "dataFile", ReadStream(ToString(v))) else form
    case None => form
  }

  /** The options request builds from the parameters (after the key is injected), or the error it throws. */
  function Prepare(m: HttpMethod, path: string, ps: Params): (r: Result<Options>)
    ensures r.Err? ==> m == POST && r.error == TypeError
    ensures m == POST ==> (r.Ok? <==> forall i :: 0 <= i < |ps| ==> !Nested(ps[i].1))
    ensures r.Ok? ==>
      r.value.verb == m && r.value.userAgent == UserAgent && r.value.json && r.value.timeout == Some(Timeout)
    ensures m == GET ==>
      r.Ok? && r.value.uri == BuildRequestUrl(path) + QueryString(ps) && r.value.formData.None?
    ensures m == POST && r.Ok? ==> r.value.uri == BuildRequestUrl(path) && r.value.formData.Some?
  {
    var base := Options(m, BuildRequestUrl(path), UserAgent, true, Some(Timeout), None);
    if m == POST then
      match FormData(ps)
      case Err(e) => Err(e)
      case Ok(form) => Ok(base.(formData := Some(AttachDataFile(form, ps))))
    else Ok(base.(uri := base.uri + QueryString(ps)))
  }

  /**
   * One call: the options sent (none when the call threw before sending), the file written
   * (download only), how the call ends and the callback invocations it makes.
   */
  datatype Exchange<T> = Exchange(
    sent: Option<Options>,
    written: Option<(string, string)>,
    completion: Completion<T>,
    calls: seq<Call>)

  function Sent<T>(opts: Options, written: Option<(string, string)>, s: Settled<T>): Exchange<T>
  {
    Exchange(Some(opts), written, s.completion, s.calls)
  }

  /** What request passes its callback after the leading `null`: the envelope's data. */
  function DataPayloads(d: Data): seq<Payload>
  {
    [DataPayload(d)]
  }

  /** request(method, path, params, callback), with `ps` the normalised parameters before the key is added. */
  function RequestExchange(apiKey: string, m: HttpMethod, path: string, ps: Params, hasCallback: bool, reply: Reply)
    : (x: Exchange<Data>)
    ensures x.written.None?
    ensures x.sent.None? ==> m == POST && x.completion == Thrown(TypeError) && x.calls == []
    ensures x.sent.Some? ==> Prepare(m, path, Injected(apiKey, ps)) == Ok(x.sent.value)
    ensures x.sent.None? <==> Prepare(m, path, Injected(apiKey, ps)).Err?
    ensures !hasCallback ==> x.calls == []
    ensures hasCallback && x.sent.Some? ==> |x.calls| == 1 && !x.completion.Thrown?
  {
    match Prepare(m, path, Injected(apiKey, ps))
    case Err(e) => Exchange(None, None, Thrown(e), [])
    case Ok(opts) => Sent(opts, None, Settle(Unwrap(reply), hasCallback, DataPayloads))
  }

  /**
   * executeSuite / executeTest: a POST request without the callback, then the outcome of its
   * data, computed outside the `try`.
   */
  function ExecuteExchange(apiKey: string, path: string, ps: Params, hasCallback: bool, reply: Reply)
    : (x: Exchange<(Data, JsValue)>)
    ensures x.sent == RequestExchange(apiKey, POST, path, ps, false, reply).sent
    ensures x.written.None?
    ensures |x.calls| <= 1 && (!hasCallback ==> x.calls == [])
    ensures x.sent.None? ==> FailureReported(x, TypeError, hasCallback)
  {
    var inner := RequestExchange(apiKey, POST, path, ps, false, reply);
    var s := ExecuteSettled(inner.completion, hasCallback);
    Exchange(inner.sent, None, s.completion, s.calls)
  }

  /** What executeSuite / executeTest pass their callback after the leading `null`. */
  function OutcomePayloads(x: (Data, JsValue)): seq<Payload>
  {
    [DataPayload(x.0), PassingPayload(x.1)]
  }

  /** How execute ends once its inner request has ended as `inner`. */
  function ExecuteSettled(inner: Completion<Data>, hasCallback: bool): (s: Settled<(Data, JsValue)>)
    ensures |s.calls| <= 1 && (!hasCallback ==> s.calls == [])
    ensures inner.Thrown? ==>
      s == if hasCallback then Settled(ReturnedUndefined, [ErrorCall(inner.error)]) else Settled(Thrown(inner.error), [])
    ensures inner.Returned? ==> (s.completion.Thrown? <==> OverallOutcome(inner.value).Err?)
    ensures !inner.Thrown? && s.completion.Thrown? ==> s.completion.error == TypeError && s.calls == []
    ensures inner.Returned? && s.completion.Returned? ==>
      s.completion.value == (inner.value, OverallOutcome(inner.value).value)
  {
    match inner
    case Thrown(e) => Settle(Err(e), hasCallback, (x: (Data, JsValue)) => [])
    case _ =>
      var d := if inner.Returned? then inner.value else Nothing;
      match OverallOutcome(d)
      case Err(e) => Settled(Thrown(e), [])
      case Ok(p) => Settle(Ok((d, p)), hasCallback, OutcomePayloads)
  }

  /** What the download request fetched. */
  datatype Fetch = FetchError(reason: string) | Fetched(body: string)

  /** What `fs.writeFile` reported. */
  datatype WriteOutcome = WriteOk | WriteError(reason: string)

  /** The URI of a download: the URL, then `?apiKey=`, the encoded key and `&`; only the key is sent. */
  function DownloadUri(apiKey: string, path: string): (u: string)
    ensures u == Host + Prefix + path + "?apiKey=" + EncodeURIComponent(apiKey) + "&"
  {
    var e := ("apiKey", Scalar(Str(apiKey)));
    PairsOne(e);
    ScalarSegment(e.0, e.1);
    BuildRequestUrl(path) + QueryString([("apiKey", Scalar(Str(apiKey)))])
  }

  /** download(path, dest, callback) */
  function DownloadExchange(apiKey: string, path: string, dest: string, hasCallback: bool,
                            fetch: Fetch, write: WriteOutcome): (x: Exchange<string>)
    ensures x.sent == Some(Options(GET, DownloadUri(apiKey, path), UserAgent, false, None, None))
    ensures x.written.Some? <==> fetch.Fetched?
    ensures fetch.Fetched? ==> x.written == Some((dest, fetch.body))
    ensures hasCallback ==> |x.calls| == 1 && !x.completion.Thrown?
    ensures !hasCallback ==> x.calls == [] && (x.completion.Thrown? <==> fetch.FetchError? || write.WriteError?)
  {
    var opts := Options(GET, DownloadUri(apiKey, path), UserAgent, false, None, None);
    match fetch
    case FetchError(reason) => Sent(opts, None, Settle(Err(TransportFailure(reason)), hasCallback, (b: string) => []))
    case Fetched(body) =>
      var r := if write.WriteError? then Err(WriteFailure(write.reason)) else Ok(body);
      Sent(opts, Some((dest, body)), Settle(r, hasCallback, (b: string) => [ContentPayload(b)]))
  }

  /** Error `e` reached the caller: through the callback when there is one, as a rejection otherwise. */
  predicate FailureReported<T>(x: Exchange<T>, e: Error, hasCallback: bool)
  {
    if hasCallback then x.calls == [ErrorCall(e)] && x.completion == ReturnedUndefined
    else x.calls == [] && x.completion == Thrown(e)
  }

  // ---- request ----

  /**
   * After `params.apiKey = this.apiKey` the key is exactly the client's and every other entry
   * is unchanged, in place; a key the caller did not pass is appended.
   */
  lemma InjectedKey(apiKey: string, ps: Params)
    requires DistinctKeys(ps)
    ensures var r := Injected(apiKey, ps);
      DistinctKeys(r) && Lookup(r, "apiKey") == Some(Scalar(Str(apiKey))) &&
      (forall k {:trigger Lookup(ps, k)} :: k != "apiKey" ==> Lookup(r, k) == Lookup(ps, k)) &&
      (Lookup(ps, "apiKey").None? ==> r == ps + [("apiKey", Scalar(Str(apiKey)))]) &&
      (Lookup(ps, "apiKey").Some? ==> |r| == |ps|) &&
      (forall i :: 0 <= i < |ps| ==> r[i] == if ps[i].0 == "apiKey" then ("apiKey", Scalar(Str(apiKey))) else ps[i])
  {
    var r := Injected(apiKey, ps);
    SetKeyInPlace(ps, "apiKey", Scalar(Str(apiKey)));
    forall k | k != "apiKey" ensures Lookup(r, k) == Lookup(ps, k) {
      assert Lookup(r, k) == Lookup(ps, k);
    }
  }

  /** A GET request never throws before sending, and its URI is the URL followed by the query string. */
  lemma GetRequestUri(apiKey: string, path: string, ps: Params, hasCallback: bool, reply: Reply)
    ensures var x := RequestExchange(apiKey, GET, path, ps, hasCallback, reply);
      x.sent.Some? && x.sent.value.verb == GET && x.sent.value.formData.None? &&
      x.sent.value.uri == Host + Prefix + path + QueryString(Injected(apiKey, ps)) &&
      x.sent.value.userAgent == UserAgent && x.sent.value.json && x.sent.value.timeout == Some(Timeout)
  {
  }

  /** The name `apiKey` cannot be a key with `[]` appended. */
  lemma ApiKeyUnbracketed(ps: Params)
    ensures forall j :: 0 <= j < |ps| ==> ps[j].0 + "[]" != "apiKey"
  {
    forall j | 0 <= j < |ps| ensures ps[j].0 + "[]" != "apiKey" {
      var n := ps[j].0 + "[]";
      assert n[|n| - 1] == ']';
    }
  }

  /**
   * The query string of a GET request carries the client's key exactly once, and a reader that
   * splits it at `&` and `=` gets back every pair in order.
   */
  lemma GetQueryCarriesKey(apiKey: string, ps: Params)
    requires DistinctKeys(ps)
    ensures ValuesNamed(Pairs(Injected(apiKey, ps)), "apiKey") == [EncodeURIComponent(apiKey)]
    ensures PlainKeys(ps) ==> ParseQuery(QueryString(Injected(apiKey, ps))) == Some(Pairs(Injected(apiKey, ps)))
  {
    var r := Injected(apiKey, ps);
    InjectedKey(apiKey, ps);
    ApiKeyUnbracketed(r);
    ValuesOfUnbracketedName(r, "apiKey");
    if PlainKeys(ps) {
      InjectedPlain(apiKey, ps);
      QueryRoundTrip(r);
    }
  }

  lemma InjectedPlain(apiKey: string, ps: Params)
    requires DistinctKeys(ps) && PlainKeys(ps)
    ensures PlainKeys(Injected(apiKey, ps))
  {
    var r := Injected(apiKey, ps);
    KeysLookup(r, "");
    KeysLookup(ps, "");
    forall i | 0 <= i < |r| ensures PlainName(r[i].0) {
      var k := r[i].0;
      assert k == Keys(r)[i];
      assert k in Keys(ps) || k == "apiKey";
      if k in Keys(ps) {
        var j :| 0 <= j < |Keys(ps)| && Keys(ps)[j] == k;
        assert ps[j].0 == k;
      }
    }
  }

  /**
   * A POST request throws a TypeError before sending, and calls nothing, exactly when some
   * value is an array holding an array; otherwise it sends the form of the parameters to the
   * bare URL.
   */
  lemma PostSends(apiKey: string, path: string, ps: Params, hasCallback: bool, reply: Reply)
    requires DistinctKeys(ps)
    ensures var r := Injected(apiKey, ps);
      var x := RequestExchange(apiKey, POST, path, ps, hasCallback, reply);
      (x.sent.None? <==> exists i :: 0 <= i < |r| && Nested(r[i].1)) &&
      (x.sent.None? ==> x.calls == [] && x.completion == Thrown(TypeError)) &&
      (x.sent.Some? ==>
        FormData(r).Ok? && x.sent.value.uri == Host + Prefix + path &&
        x.sent.value.formData == Some(AttachDataFile(FormData(r).value, r)))
  {
    InjectedKey(apiKey, ps);
    FormDataShape(Injected(apiKey, ps));
  }

  /** Every parameter other than `dataFile` is sent converted, under its own key. */
  lemma PostFields(r: Params, f: FormFields)
    requires DistinctKeys(r) && FormData(r) == Ok(f)
    ensures forall i :: 0 <= i < |r| ==> DeepConvert(r[i].1).Ok?
    ensures forall i :: 0 <= i < |r| && r[i].0 != "dataFile" ==>
      Lookup(AttachDataFile(f, r), r[i].0) == Some(DeepConvert(r[i].1).value)
  {
    forall i | 0 <= i < |r| ensures DeepConvert(r[i].1).Ok? {
      FormKeyAt(r, f, i);
    }
    forall i | 0 <= i < |r| && r[i].0 != "dataFile"
      ensures Lookup(AttachDataFile(f, r), r[i].0) == Some(DeepConvert(r[i].1).value)
    {
      FormKeyAt(r, f, i);
    }
  }

  /** The key is sent as the text of the client's key. */
  lemma PostKeyField(apiKey: string, r: Params, f: FormFields)
    requires DistinctKeys(r) && Lookup(r, "apiKey") == Some(Scalar(Str(apiKey))) && FormData(r) == Ok(f)
    ensures Lookup(AttachDataFile(f, r), "apiKey") == Some(Text(apiKey))
  {
    var i := KeyAt(r, "apiKey");
    FormKeyAt(r, f, i);
  }

  /** A truthy `dataFile` is sent as a read stream on its string; a falsy one as its converted value. */
  lemma PostDataFileField(r: Params, f: FormFields, v: Value)
    requires DistinctKeys(r) && FormData(r) == Ok(f) && Lookup(r, "dataFile") == Some(v)
    ensures DeepConvert(v).Ok?
    ensures Lookup(AttachDataFile(f, r), "dataFile") ==
      if Truthy(v) then Some(ReadStream(ToString(v))) else Some(DeepConvert(v).value)
  {
    var j := KeyAt(r, "dataFile");
    FormKeyAt(r, f, j);
  }

  /** The index of a key that is present. */
  lemma KeyAt(r: Params, k: string) returns (i: nat)
    requires DistinctKeys(r) && Lookup(r, k).Some?
    ensures i < |r| && r[i] == (k, Lookup(r, k).value)
  {
    assert exists j :: 0 <= j < |r| && r[j].0 == k by {
      KeysLookup(r, k);
    }
    i :| 0 <= i < |r| && r[i].0 == k;
    LookupAt(r, i);
  }

  /** The form field of entry `i` is its converted value. */
  lemma FormKeyAt(r: Params, f: FormFields, i: nat)
    requires DistinctKeys(r) && FormData(r) == Ok(f) && i < |r|
    ensures |f| == |r| && DeepConvert(r[i].1) == Ok(f[i].1)
    ensures Lookup(f, r[i].0) == Some(DeepConvert(r[i].1).value)
    ensures r[i].0 != "dataFile" ==> Lookup(AttachDataFile(f, r), r[i].0) == Lookup(f, r[i].0)
  {
    FormDataShape(r);
    KeysLookup(f, "");
    KeysLookup(r, "");
    assert f[i].0 == Keys(f)[i] == Keys(r)[i] == r[i].0;
    LookupAt(f, i);
  }

  /** A call that reached the transport calls a callback exactly once and then never rejects; without one it rejects exactly on failure. */
  lemma RequestSettles(apiKey: string, m: HttpMethod, path: string, ps: Params, hasCallback: bool, reply: Reply)
    requires RequestExchange(apiKey, m, path, ps, hasCallback, reply).sent.Some?
    ensures var x := RequestExchange(apiKey, m, path, ps, hasCallback, reply);
      x.written.None? &&
      (hasCallback ==> |x.calls| == 1 && !x.completion.Thrown?) &&
      (!hasCallback ==> x.calls == [] && (x.completion.Thrown? <==> reply.TransportError? || reply.code == "ERROR"))
  {
  }

  /**
   * Envelope handling: a transport error is passed on unchanged, `code: "ERROR"` fails with
   * `message` as its text, any other code succeeds with `data`, which is returned and called back.
   */
  lemma RequestReplies(apiKey: string, m: HttpMethod, path: string, ps: Params, hasCallback: bool, reply: Reply)
    requires RequestExchange(apiKey, m, path, ps, hasCallback, reply).sent.Some?
    ensures var x := RequestExchange(apiKey, m, path, ps, hasCallback, reply);
      (reply.TransportError? ==> FailureReported(x, TransportFailure(reply.reason), hasCallback)) &&
      (reply.Body? && reply.code == "ERROR" ==> FailureReported(x, ApiError(reply.message), hasCallback)) &&
      (reply.Body? && reply.code != "ERROR" ==>
        x.completion == Returned(reply.data) &&
        x.calls == if hasCallback then [SuccessCall([DataPayload(reply.data)])] else [])
  {
  }

  /** A nested array among POST parameters rejects before sending, and the callback is not called. */
  lemma NestedArrayRejects(apiKey: string, path: string, ps: Params, hasCallback: bool, reply: Reply, i: nat)
    requires DistinctKeys(ps) && i < |ps| && ps[i].0 != "apiKey" && Nested(ps[i].1)
    ensures RequestExchange(apiKey, POST, path, ps, hasCallback, reply) == Exchange(None, None, Thrown(TypeError), [])
  {
    var r := Injected(apiKey, ps);
    SetKeyInPlace(ps, "apiKey", Scalar(Str(apiKey)));
    assert r[i] == ps[i];
    PostSends(apiKey, path, ps, hasCallback, reply);
  }

  // ---- execute ----

  /** A failed execute request reports its error once and computes no outcome. */
  lemma ExecuteFailure(apiKey: string, path: string, ps: Params, hasCallback: bool, reply: Reply)
    requires RequestExchange(apiKey, POST, path, ps, false, reply).sent.Some?
    requires Unwrap(reply).Err?
    ensures FailureReported(ExecuteExchange(apiKey, path, ps, hasCallback, reply), Unwrap(reply).error, hasCallback)
  {
  }

  /**
   * A nested array among the parameters makes the inner request throw before sending; execute
   * catches that TypeError like any failure of the request and reports it.
   */
  lemma NestedArrayExecute(apiKey: string, path: string, ps: Params, hasCallback: bool, reply: Reply, i: nat)
    requires DistinctKeys(ps) && i < |ps| && ps[i].0 != "apiKey" && Nested(ps[i].1)
    ensures var x := ExecuteExchange(apiKey, path, ps, hasCallback, reply);
      x.sent.None? && FailureReported(x, TypeError, hasCallback)
  {
    NestedArrayRejects(apiKey, path, ps, false, reply, i);
  }

  /**
   * A successful execute request returns `[data, outcome]` and calls back
   * `(null, data, outcome)`, with `outcome` what getOverallResultOutcome gives on `data`.
   */
  lemma ExecuteSuccess(apiKey: string, path: string, ps: Params, hasCallback: bool, reply: Reply)
    requires RequestExchange(apiKey, POST, path, ps, false, reply).sent.Some?
    requires Unwrap(reply).Ok? && OverallOutcome(reply.data).Ok?
    ensures var x := ExecuteExchange(apiKey, path, ps, hasCallback, reply);
      var p := OverallOutcome(reply.data).value;
      x.completion == Returned((reply.data, p)) &&
      x.calls == if hasCallback then [SuccessCall([DataPayload(reply.data), PassingPayload(p)])] else []
  {
  }

  /** An execute reply whose data has no `passing` to read rejects, and the callback is not called. */
  lemma ExecuteWithoutData(apiKey: string, path: string, ps: Params, hasCallback: bool, reply: Reply)
    requires RequestExchange(apiKey, POST, path, ps, false, reply).sent.Some?
    requires Unwrap(reply).Ok? && OverallOutcome(reply.data).Err?
    ensures ExecuteExchange(apiKey, path, ps, hasCallback, reply) ==
      Exchange(RequestExchange(apiKey, POST, path, ps, false, reply).sent, None, Thrown(TypeError), [])
  {
  }

  /** The execute request is the POST request of the same parameters. */
  lemma ExecuteSends(apiKey: string, path: string, ps: Params, hasCallback: bool, reply: Reply)
    ensures ExecuteExchange(apiKey, path, ps, hasCallback, reply).sent ==
      RequestExchange(apiKey, POST, path, ps, hasCallback, reply).sent
    ensures |ExecuteExchange(apiKey, path, ps, hasCallback, reply).calls| <= 1
  {
  }

  // ---- download ----

  /** A failed fetch is reported and nothing is written. */
  lemma DownloadFetchFails(apiKey: string, path: string, dest: string, hasCallback: bool, reason: string, write: WriteOutcome)
    ensures var x := DownloadExchange(apiKey, path, dest, hasCallback, FetchError(reason), write);
      x.written.None? && FailureReported(x, TransportFailure(reason), hasCallback)
  {
  }

  /**
   * A fetched body is written once, to `dest`; a write error is reported exactly as a fetch
   * error is, otherwise the body is returned and called back.
   */
  lemma DownloadWrites(apiKey: string, path: string, dest: string, hasCallback: bool, body: string, write: WriteOutcome)
    ensures var x := DownloadExchange(apiKey, path, dest, hasCallback, Fetched(body), write);
      x.written == Some((dest, body)) &&
      (write.WriteError? ==> FailureReported(x, WriteFailure(write.reason), hasCallback)) &&
      (write.WriteOk? ==> (x.completion == Returned(body) &&
        x.calls == if hasCallback then [SuccessCall([ContentPayload(body)])] else []))
  {
  }
}

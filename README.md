# GhostInspector client: request/response layer in Dafny

This project models the Node.js client of the Ghost Inspector testing API (`index.js`). It
covers the layer between a caller and the HTTP transport:

- the endpoint methods and the URL each one requests;
- how `request` sorts out its params/callback arguments, writes the client's `apiKey` into the
  caller's parameter object, and encodes the parameters. A GET request gets a query string.
  A POST request gets form data, where a truthy `dataFile` becomes a read stream;
- how the reply envelope `{code, message, data}` becomes a success or an error, and the dual
  convention: a callback is called Node-style when one is given, and otherwise the returned
  promise resolves or rejects;
- the `[data, passing]` result of `executeSuite`/`executeTest`, where `passing` is the
  `&&`-reduction of the results' `passing` flags;
- `download`, which fetches an export and writes it to a local file.

Layout, one module per file:

| file | module | contents |
|---|---|---|
| js.dfy | Js | parameter values, `String(v)`, truthiness, errors, Option/Result |
| params.dfy | Params | objects as ordered association lists; `obj[k] = v`; the caller's mutable parameter object |
| uri.dfy | Uri | `encodeURIComponent` (ECMA-262, section 19.2.6.5) and a percent-decoder, which is proved to invert it |
| query.dfy | Query | buildQueryString as a loop proved against a specification function, its properties, and a query-string reader proved to read it back |
| form.dfy | Form | deepConvertParamToString and buildFormData |
| outcome.dfy | Outcome | getOverallResultOutcome |
| envelope.dfy | Envelope | the reply envelope, callback invocations, the callback-or-throw convention |
| protocol.dfy | Protocol | each call (request, execute, download) as a function from its inputs to the options it sends, how it ends and what the callback receives, with the lemmas about them |
| client.dfy | Client | the `GhostInspector` class: `request`, `download`, the execute code and every endpoint method, each proved to behave as its Protocol function says |

Inputs that the source gets from outside are parameters of the model:

- the transport's reply (`Envelope.Reply`), and for a download what was fetched (`Protocol.Fetch`);
- the outcome of the file write (`Protocol.WriteOutcome`), applied to a `Client.FileSystem`;
- a caller's callback, which is a `CallbackLog` object recording every invocation.

**Where the code departs from what the library evidently means to do, the model follows the code:**

- `deepConvertParamToString` maps itself over an array as `param.map(this.deepConvertParamToString)`.
  Inside `map`, `this` is undefined. So an array holding an array does not convert recursively:
  it throws a TypeError. This happens while the request is being built, before the `try`, so the
  call rejects even when a callback was given, and the callback is never called
  (`Protocol.NestedArrayRejects`). `executeSuite`/`executeTest` call `request` inside their own
  `try`, so they do catch this TypeError: with a callback it is called once with the TypeError
  and the call resolves to `undefined`; without one the call rejects (`Protocol.NestedArrayExecute`).
- In `executeSuite`/`executeTest`, `getOverallResultOutcome(data)` runs outside the `try`. A
  successful reply without `data` (or a list holding a missing entry whose flag is read) makes
  the call reject with a TypeError, and the callback is not called (`Protocol.ExecuteWithoutData`).
- On a list, an earlier result without `passing` gives the outcome `undefined`, not `false`
  (`Outcome.MissingBeforeFalse`).

## Model

| member | source | states |
|---|---|---|
| Params.SetKey | index.js:72 | `obj[k] = v`: afterwards `k` holds `v`, and every other key reads as before. The key order is unchanged when `k` existed; otherwise `k` is appended. Distinct keys stay distinct |
| Params.SetKeyInPlace | index.js:46 | on an object, assignment replaces the entry of `k` in place, or appends it when `k` is missing |
| Params.ParamObject.Put | index.js:72 | the caller's parameter object after `params.apiKey = ...`: its entries are the old entries with the key set, and its keys stay distinct |
| Uri.EncodeURIComponent | index.js:25 | the encoding holds only unreserved characters and `%`, so never `&` or `=` |
| Uri.Utf8 | index.js:28 | a code point is 1 to 4 bytes, each below 256 |
| Uri.DecodeEncode | index.js:28 | percent-decoding gives back exactly the string that was encoded: nothing is lost |
| Query.Pairs | index.js:20-30 | no value of any emitted (name, value) pair contains `&` or `=` |
| Query.QueryString | index.js:17-31 | the query string always starts with `?` |
| Query.BuildQueryString | index.js:17-32 | the nested loop that appends to `queryString` returns exactly `"?"` followed by one segment per (name, value) pair of the parameters, in iteration order |
| Query.AppendEntry | index.js:21-30 | one turn of the outer loop appends exactly the segments of that entry |
| Query.AppendItems | index.js:22-26 | the inner loop over an array appends one `key[]=` segment per item, in array order |
| Query.QueryStringShape | index.js:17-31 | the query string starts with `?`; it is exactly `"?"` when there are no parameters, and exactly when no pair is emitted; otherwise it ends with `&` |
| Query.PairsInOrder | index.js:20-30 | the pairs of entry `i` come after those of every earlier entry and before those of every later one |
| Query.EmptyArrayVanishes | index.js:22-26 | an entry whose value is an empty array contributes nothing: removing it leaves the query string unchanged |
| Query.ArrayEntryValues | index.js:22-26 | an array entry gives exactly one `key[]` value per item, `encodeURIComponent(String(item))`, in array order, and no plain `key` value |
| Query.ScalarEntryValue | index.js:27-29 | a scalar entry gives exactly one value under its key: `encodeURIComponent(String(v))` |
| Query.ValuesOfUnbracketedName | index.js:20-30 | a name that no key turns into by appending `[]` gets a value only from the entry of that key, and only when that entry is a scalar |
| Query.QueryRoundTrip | index.js:17-32 | when no key contains `&` or `=`, splitting the query string at `&` and `=` gives back every pair in order |
| Js.ToString | index.js:38 | `String(v)`: a string is itself; an integer below 10^21 in magnitude is its decimal numeral, with `-` before a negative one; `[]` is `""`; a one-item array is the string of its item |
| Js.NatToString | index.js:25 | a decimal numeral is a non-empty run of digits without a leading zero |
| Js.NumeralRoundTrip | index.js:25 | the numeral of `n` reads back as `n` |
| Js.Truthy | index.js:88 | every array is truthy; a scalar is falsy exactly when it is `""`, `0` or `false` |
| Form.DeepConvert | index.js:34-40 | conversion fails exactly on an array holding an array, and then with a TypeError. Otherwise it gives text for a scalar and a list for an array, never a read stream |
| Form.FormFold | index.js:44-47 | the loop over the parameters can only fail with a TypeError |
| Form.FormData | index.js:42-49 | buildFormData succeeds exactly when no parameter is an array holding an array; any failure is a TypeError |
| Form.ConvertItems | index.js:36 | `items.map(deepConvertParamToString)` with `this` unbound succeeds exactly when every item is a scalar. Its result has the same length, and item `i` becomes `String(items[i])`. Any failure is a TypeError |
| Form.DeepConvertShape | index.js:34-40 | a scalar becomes `toString()`; a flat array becomes a same-length list of its items' strings; an array holding an array fails, with a TypeError |
| Form.BuildFormData | index.js:42-49 | the loop that fills `formData` returns the form or error that `FormData` specifies |
| Form.FormFoldOk | index.js:45-47 | the loop fails, with a TypeError, exactly when some value is an array holding an array |
| Form.FormFoldValue | index.js:45-47 | on fresh keys each step appends one field whose key and converted value are those of the parameter, in order |
| Form.FormDataShape | index.js:42-49 | the form has exactly the parameters' keys, in order and distinct, and each value converted. It fails exactly when some value is an array holding an array |
| Outcome.PassingOf | index.js:55 | reading `entry.passing` fails, with a TypeError, exactly on a missing entry; on a nested list it gives `undefined` |
| Outcome.Fold | index.js:53-56 | the `&&`-chain can only fail with a TypeError |
| Outcome.OverallOutcome | index.js:51-61 | getOverallResultOutcome can only fail with a TypeError |
| Outcome.GetOverallResultOutcome | index.js:51-61 | the loop that updates `passing` returns exactly the outcome `OverallOutcome` specifies |
| Outcome.EmptyListIsNull | index.js:53 | an empty list gives `null` |
| Outcome.FoldStuck | index.js:55 | once the value so far is not `true`, no later entry is read and the value is the result |
| Outcome.FoldAllPassed | index.js:53-56 | a list whose entries all pass gives `true` |
| Outcome.FoldFirstNotPassed | index.js:53-56 | the result is what reading `passing` gives on the first entry that did not pass: its flag, `undefined` for a nested list, or a TypeError for a missing entry |
| Outcome.ListOutcome | index.js:52-57 | a non-empty list gives `true` when every entry passed, and otherwise the `passing` of the first entry that did not |
| Outcome.FalseIsFinal | index.js:55 | a `false` after passed entries is the result, whatever follows, even a missing entry |
| Outcome.MissingBeforeFalse | index.js:55 | a missing flag before a `false` one gives `undefined`, not `false` |
| Outcome.RecordOutcome | index.js:59 | a single result gives its flag, and `null` when the flag is missing; never `undefined` |
| Outcome.TypicalOutcomes | index.js:51-61 | `{passing: true}` gives `true`; `[{passing: true}, {passing: false}]` gives `false`; `[]` gives `null`; a result without `passing` gives `null` |
| Envelope.Unwrap | index.js:96-119 | a reply fails exactly when it is a transport error or has `code === 'ERROR'`. A transport error passes unchanged; `'ERROR'` carries `message`; any other code succeeds with `data` |
| Envelope.Settle | index.js:99-119 | with a callback, it is called exactly once (with the error, or with `null` and the payload) and the call never rejects. Without one, nothing is called, and the call rejects exactly on failure. A success resolves to the value |
| Envelope.CallbackLog.Invoke | index.js:101 | a callback invocation is appended to the callback's trace |
| Protocol.BuildRequestUrl | index.js:13-15 | the URL is the API host, then the `/v1` prefix, then the path |
| Protocol.Injected | index.js:72 | after `params.apiKey = this.apiKey` the key reads as the client's key and every other key reads as before; distinct keys stay distinct |
| Protocol.AttachDataFile | index.js:88-90 | a truthy `dataFile` parameter sets the `dataFile` field to a read stream on its string; otherwise the form is unchanged. No other field changes, and distinct keys stay distinct |
| Protocol.Prepare | index.js:74-94 | the options carry the method, the User-Agent, `json: true` and the one-hour timeout. A GET never fails, has no form data and adds the query string to the URL. A POST goes to the bare URL with form data, and fails (with a TypeError) exactly when some parameter is an array holding an array |
| Protocol.RequestExchange | index.js:63-120 | request writes no file. It sends exactly the options `Prepare` builds, and sends nothing exactly when building them fails; then it rejects with a TypeError, calling nothing, and only for a POST. Without a callback nothing is called; once sent, a callback is called exactly once and the call does not reject |
| Protocol.InjectedKey | index.js:72 | after the injection `apiKey` is exactly the client's key and overrides any caller value. Every other key reads as before and stays in place, and keys stay distinct |
| Protocol.GetRequestUri | index.js:74-94 | a GET request always reaches the transport. Its URI is `host + prefix + path + buildQueryString(params)`. It carries no form data, the User-Agent, `json: true` and the one-hour timeout |
| Protocol.GetQueryCarriesKey | index.js:93 | the GET query string carries the client's key exactly once. With plain keys, reading the query string back gives every pair |
| Protocol.PostSends | index.js:84-90 | a POST rejects with a TypeError before sending, calling nothing, exactly when some parameter (after the key is injected) is an array holding an array. Otherwise it sends to the bare URL the converted form, with `dataFile` attached |
| Protocol.PostFields | index.js:86 | every parameter converts, and each one other than `dataFile` is sent under its own key as its converted value |
| Protocol.PostKeyField | index.js:72 | the injected `apiKey` is sent as the text of the client's key |
| Protocol.PostDataFileField | index.js:88-90 | a truthy `dataFile` is sent as a read stream on its string; a falsy one as its converted value |
| Protocol.KeyAt | index.js:72 | a key that is present sits at exactly one index, which holds the value it reads as |
| Protocol.FormKeyAt | index.js:86-89 | the form field of a parameter is its converted value, and attaching `dataFile` changes no other field |
| Protocol.RequestSettles | index.js:96-119 | once sent, a request with a callback calls it exactly once and never rejects. Without one it calls nothing and rejects exactly on a transport error or `code === 'ERROR'` |
| Protocol.RequestReplies | index.js:96-119 | a transport error is reported unchanged; `'ERROR'` is reported with `message` as its text; any other code resolves to `data` and calls back `(null, data)` |
| Protocol.NestedArrayRejects | index.js:86 | a nested array among POST parameters makes the call reject with a TypeError before anything is sent, and the callback is not called |
| Protocol.ExecuteExchange | index.js:186-210 | execute sends what the inner POST request sends and writes no file. It calls back at most once, never without a callback, and a request that throws before sending is caught and reported like any failure |
| Protocol.ExecuteSettled | index.js:193-209 | an error of the inner request is passed to the callback (the call resolves to `undefined`) or rethrown. Otherwise the call rejects exactly when the outcome cannot be computed, then with a TypeError and calling nothing; the value returned is `[data, outcome]` |
| Protocol.NestedArrayExecute | index.js:194-201 | a nested array among execute's options is caught: nothing is sent, and the TypeError goes to the callback, or rejects the call when there is none |
| Protocol.ExecuteFailure | index.js:193-202 | when the inner request was sent and the reply is a failure, execute reports that error once (to the callback, or as a rejection) and computes no outcome |
| Protocol.ExecuteSuccess | index.js:203-209 | a successful execute resolves to `[data, outcome]` and calls back `(null, data, outcome)`, where outcome is getOverallResultOutcome of `data` |
| Protocol.ExecuteWithoutData | index.js:204 | a success whose data has no readable `passing` rejects with a TypeError, and the callback is not called |
| Protocol.ExecuteSends | index.js:195 | execute sends exactly what a POST request of its options sends, and calls back at most once |
| Protocol.DownloadUri | index.js:124-129 | the download URI is `buildRequestUrl(path) + "?apiKey=" + encodeURIComponent(key) + "&"` |
| Protocol.DownloadExchange | index.js:122-162 | download sends a GET of the download URI with the User-Agent and no `json`, timeout or form data. It writes `dest` exactly when the fetch succeeded, with the body. A callback is called exactly once and the call never rejects; without one the call rejects exactly on a fetch or write error |
| Protocol.DownloadFetchFails | index.js:135-144 | a failed fetch is reported unchanged and nothing is written |
| Protocol.DownloadWrites | index.js:145-161 | a fetched body is written once, to `dest`. A write error is reported exactly as a fetch error is; otherwise the body is returned and called back |
| Client.SortOut | index.js:178-181 | a function in the options slot becomes the callback and the options become empty; the options that come out are never a function |
| Client.SortOutIdempotent | index.js:176-183 | sorting out twice is sorting out once, so the endpoints that sort out before calling request agree with request's own normalisation |
| Client.FileSystem.WriteFile | index.js:146-148 | a successful write stores the data at `dest`; a failed write reports its reason and changes nothing |
| Client.GhostInspector.constructor | index.js:6-11 | the client holds the fixed User-Agent, host, prefix and the given key |
| Client.GhostInspector.BuildRequestUrl | index.js:13-15 | the method computes `Protocol.BuildRequestUrl` |
| Client.GhostInspector.Fail | index.js:99-104 | an error goes to the callback when there is one (the call resolves to `undefined`), and otherwise the call rejects with it |
| Client.GhostInspector.BuildOptions | index.js:74-94 | the options object is exactly `Protocol.Prepare`: form data for POST (or the conversion's error), a query string for any other method |
| Client.GhostInspector.Respond | index.js:96-119 | the reply is settled as `Envelope.Settle` says, with the data as the success payload, and the callback sees exactly those calls |
| Client.GhostInspector.Request | index.js:63-120 | request sorts out its arguments. It turns anything but an object into `{}` and writes the key into the caller's object. It sends and ends as `RequestExchange` says, and calls the callback with exactly the calls it lists. Nothing else changes |
| Client.GhostInspector.Execute | index.js:186-210 | executeSuite/executeTest (identical code) ends as `ExecuteExchange` says, with the same effects on the caller's object and callback |
| Client.GhostInspector.Conclude | index.js:196-209 | after the inner request, execute ends as `Protocol.ExecuteSettled` says: the request's error reported once, a failing outcome rejecting, or `[data, passing]` returned and called back |
| Client.GhostInspector.Download | index.js:122-162 | download sends, writes and ends as `DownloadExchange` says. The file system changes exactly by a successful write |
| Client.GhostInspector.GetSuites | index.js:164-166 | `GET /suites/`, with the callback passed in the params slot |
| Client.GhostInspector.GetSuite | index.js:168-170 | `GET /suites/<id>/` |
| Client.GhostInspector.GetSuiteTests | index.js:172-174 | `GET /suites/<id>/tests/` |
| Client.GhostInspector.GetSuiteResults | index.js:176-184 | `GET /suites/<id>/results/` with the sorted-out options and callback |
| Client.GhostInspector.ExecuteSuite | index.js:186-210 | `POST /suites/<id>/execute/`, returning `[data, passing]` |
| Client.GhostInspector.DownloadSuiteSeleniumHtml | index.js:212-214 | download of `/suites/<id>/export/selenium-html/` |
| Client.GhostInspector.DownloadSuiteSeleniumJson | index.js:216-218 | download of `/suites/<id>/export/selenium-json/` |
| Client.GhostInspector.DownloadSuiteSeleniumSide | index.js:220-222 | download of `/suites/<id>/export/selenium-side/` |
| Client.GhostInspector.GetTests | index.js:224-226 | `GET /tests/` |
| Client.GhostInspector.GetTest | index.js:228-230 | `GET /tests/<id>/` |
| Client.GhostInspector.GetTestResults | index.js:232-240 | `GET /tests/<id>/results/` with the sorted-out options and callback |
| Client.GhostInspector.ExecuteTest | index.js:242-266 | `POST /tests/<id>/execute/`, returning `[data, passing]` |
| Client.GhostInspector.DownloadTestSeleniumHtml | index.js:268-270 | download of `/tests/<id>/export/selenium-html/` |
| Client.GhostInspector.DownloadTestSeleniumJson | index.js:272-274 | download of `/tests/<id>/export/selenium-json/` |
| Client.GhostInspector.DownloadTestSeleniumSide | index.js:276-278 | download of `/tests/<id>/export/selenium-side/` |
| Client.GhostInspector.GetSuiteResult | index.js:280-282 | `GET /suite-results/<id>/` |
| Client.GhostInspector.GetSuiteResultTestResults | index.js:284-286 | `GET /suite-results/<id>/results/` |
| Client.GhostInspector.CancelSuiteResult | index.js:288-290 | `GET /suite-results/<id>/cancel/` |
| Client.GhostInspector.GetTestResult | index.js:292-294 | `GET /results/<id>/` |
| Client.GhostInspector.GetResult | index.js:297-299 | the legacy alias has exactly the contract of getTestResult |
| Client.GhostInspector.CancelTestResult | index.js:301-303 | `GET /results/<id>/cancel/` |
| Client.GhostInspector.CancelResult | index.js:306-308 | the legacy alias has exactly the contract of cancelTestResult |

## Left out

- The HTTP transport (`request-promise-native`): a call's reply is an input. Because `json: true`
  parses the body, a reply is either a rejection or `{code, message, data}`; other bodies are
  not modelled.
- The User-Agent header, the `json` flag and the timeout are recorded in the options sent, but
  what they do in the transport is not modelled.
- `fs.createReadStream` is a marker holding the path, not the file's contents.
  `fs.writeFile` is `Client.FileSystem.WriteFile`: its outcome is an input, and the stored
  contents are the fetched string, not its bytes.
- Client.FileSystem.WriteFile: assumes that a failed write leaves the file system unchanged.
- The promise machinery (`async`/`await`): each call is a sequential method. It ends in a
  `Completion` (resolved with a value, resolved with `undefined`, or rejected), and callback
  invocations are appended to a trace. A callback that throws is not modelled.
- Js.ToString: integers of magnitude 10^21 or more, which JavaScript writes in exponent form
  (`String(1e21)` is `"1e+21"`), and integers above 2^53, which a JavaScript number cannot hold
  exactly, are not modelled: the model writes every integer as its full decimal numeral.
- JavaScript's key order for integer-like keys (these come first in `for..in`). The model
  enumerates keys in insertion order.
- Parameter values are strings, integers, booleans and arrays of these, nested arbitrarily.
  The following are not modelled:
  - non-integer numbers;
  - `null`/`undefined` values, on which `String` and `toString` differ;
  - objects as values;
  - arrays passed in place of the parameter object.
- Outcome.OverallOutcome: result flags are `true`, `false`, `null` or absent. Other JSON values
  of `passing` (which `&&` would pass on by their own truthiness) are not modelled.
- The lone-surrogate URIError of `encodeURIComponent` does not arise: a Dafny `char` is a
  Unicode scalar value.
- Uri.Decode: the decoder exists only to show that the encoding is lossless. It does not
  reject overlong UTF-8 forms and is not meant as a faithful `decodeURIComponent`.
- The module's export (`module.exports = (apiKey) => new GhostInspector(apiKey)`) is the
  constructor.
- `bin/` (the command-line wiring, printing and `process.exit`) is not part of this model.
  Its commands call `executeTestOnDemand`, `updateSuite` and `updateFolder`, which do not
  exist in `index.js`.

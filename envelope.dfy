/**
 * The API's reply envelope and the library's dual calling convention (index.js, request,
 * download, executeSuite, executeTest): every public method both returns (through its
 * promise) and, when the last argument is a function, calls it back Node-style.
 */
module Envelope {
  import opened Js
  import opened Outcome

  /** What the HTTP layer hands back: a rejection, or the parsed JSON body `{code, message, data}`. */
  datatype Reply = TransportError(reason: string) | Body(code: string, message: string, data: Data)

  /** The envelope read as success or failure. */
  function Unwrap(reply: Reply): (r: Result<Data>)
    ensures r.Err? <==> reply.TransportError? || reply.code == "ERROR"
    ensures reply.TransportError? ==> r == Err(TransportFailure(reply.reason))
    ensures reply.Body? && reply.code == "ERROR" ==> r == Err(ApiError(reply.message))
    ensures r.Ok? ==> r.value == reply.data
  {
    match reply
    case TransportError(reason) => Err(TransportFailure(reason))
    case Body(code, message, data) => if code == "ERROR" then Err(ApiError(message)) else Ok(data)
  }

  /** How an async method ends: its promise resolves to a value or to `undefined`, or rejects. */
  datatype Completion<T> = Returned(value: T) | ReturnedUndefined | Thrown(error: Error)

  /** An argument after the leading `null` of a success callback. */
  datatype Payload = DataPayload(data: Data) | PassingPayload(passing: JsValue) | ContentPayload(content: string)

  /** One invocation of a caller's callback: `callback(err)` or `callback(null, ...args)`. */
  datatype Call = ErrorCall(error: Error) | SuccessCall(args: seq<Payload>)

  /** The completion of a step and the callback calls it makes. */
  datatype Settled<T> = Settled(completion: Completion<T>, calls: seq<Call>)

  /**
   * The callback-or-throw convention: with a callback, a failure calls it with the error and
   * returns `undefined`; without one, a failure throws. A success calls the callback (if any)
   * with `null` and the payload, then returns the value.
   */
  function Settle<T>(r: Result<T>, hasCallback: bool, payload: T -> seq<Payload>): (s: Settled<T>)
    ensures hasCallback ==> |s.calls| == 1 && !s.completion.Thrown?
    ensures !hasCallback ==> s.calls == [] && (s.completion.Thrown? <==> r.Err?)
    ensures r.Err? ==> !s.completion.Returned? && (hasCallback ==> s.calls[0] == ErrorCall(r.error))
    ensures r.Err? && !hasCallback ==> s.completion.error == r.error
    ensures r.Ok? ==> s.completion == Returned(r.value)
    ensures r.Ok? && hasCallback ==> s.calls[0] == SuccessCall(payload(r.value))
  {
    match r
    case Err(e) => if hasCallback then Settled(ReturnedUndefined, [ErrorCall(e)]) else Settled(Thrown(e), [])
    case Ok(v) => Settled(Returned(v), if hasCallback then [SuccessCall(payload(v))] else [])
  }

  /** A caller's callback function; `calls` is the trace of its invocations. */
  class CallbackLog {
    var calls: seq<Call>

    constructor ()
      ensures calls == []
    {
      calls := [];
    }

    method Invoke(c: Call)
      modifies this
      ensures calls == old(calls) + [c]
    {
      calls := calls + [c];
    }
  }
}

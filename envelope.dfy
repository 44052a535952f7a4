/**
  The result envelope every repository operation hands to its callback, and what an
  operation run amounts to: the reply it gives and the statements it sent, in order.
 */
module Envelope {
  import opened JsObject
  import opened Gateway
  import Messages

  datatype Option<T> = None | Some(value: T)

  /**
    The `data` field. `[]` is `List([])` and `{}` is `Record([])`; a successful read
    carries the fetched rows or row, a successful write the identifier.
   */
  datatype Data = List(items: seq<Object>) | Record(fields: Object) | Scalar(value: Value)

  /** The flat envelope; `totalCount` is a property that only some operations set. */
  datatype Envelope = Envelope(
    data: Data,
    message: string,
    success: bool,
    error: string,
    totalCount: Option<Value>)

  /**
    How an operation ends: its callback is invoked with an envelope, or a `TypeError`
    is thrown first. `create` throws it synchronously to its own caller;
    `getListWithLimitOffset` throws it inside the driver callback.
   */
  datatype Reply = Callback(env: Envelope) | TypeError

  /** One invocation of an operation: its reply and the statements it issued. */
  datatype Run = Run(reply: Reply, issued: seq<Statement>)

  /** `[]` or `{}`: the empty defaults of a failure envelope. */
  predicate EmptyData(d: Data) {
    d == List([]) || d == Record([])
  }

  /** The envelope discipline: a failure carries no payload, a success no error. */
  predicate WellFormed(e: Envelope) {
    && (!e.success ==> EmptyData(e.data))
    && (e.success ==> e.error == "")
  }

  /** The four ways a call can end. */
  datatype Kind = Applied | NotFound | DriverError | ValidationFailure

  /**
    Classification of a flat envelope by `success`, then by whether `message` is
    the validation message, then by whether `error` is empty. Other message texts
    are not consulted.
   */
  function Observe(e: Envelope): (k: Kind)
    ensures k == Applied <==> e.success
    ensures k == NotFound ==> e.error == ""
    ensures k == DriverError ==> e.error != ""
  {
    if e.success then Applied
    else if e.message == Messages.InvalidData then ValidationFailure
    else if e.error == "" then NotFound
    else DriverError
  }
}

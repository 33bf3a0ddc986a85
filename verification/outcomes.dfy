/** Values with which the asynchronous operations of the services settle. */
module Outcomes {

  datatype Option<+T> = None | Some(value: T)

  /** The reply of one call into a client library (Redis or MinIO): a value,
      or a failure raised by the client (connection lost, wrong type, ...). */
  datatype Reply<+T> = Ok(value: T) | Failed

  /** Why a promise or an observable ended in error. */
  datatype Reason =
    | ClientFailure          // an error raised by the client and passed through unchanged
    | TypeError              // a JavaScript TypeError raised by the service's own code
    | Message(text: string)  // a rejection with a literal string chosen by the service

  /** A promise (or an observable that emits once) after it has settled. */
  datatype Settled<+T> = Resolved(value: T) | Rejected(reason: Reason)

  /** What an operation settles with, together with the state it leaves behind. */
  datatype Effect<+R, +S> = Effect(result: R, state: S)

  /** A JavaScript value that may also be `undefined` or `null`. */
  datatype Nullable<+T> = Undefined | Null | Value(value: T)
}

/** Failure-carrying datatypes shared by every module of the model. */
module Wrappers {

  /** A JavaScript value that may be `null` or `undefined`. */
  datatype Option<+T> = None | Some(value: T) {
    function GetOr(default: T): T {
      match this
      case Some(v) => v
      case None => default
    }
  }

  /** Why an asynchronous call rejected.
      `Thrown(message)` stands for `throw new Error(message)`;
      `MalformedBody` is the rejection of `Response.json()` on a body that is not JSON. */
  datatype Failure = Thrown(message: string) | MalformedBody

  /** The outcome of a call that either resolves with a value or rejects. */
  datatype Result<+T> = Ok(value: T) | Err(error: Failure)
}

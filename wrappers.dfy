/** Failure-carrying result types shared by the modules of the model. */
module Wrappers {

  /** An optional value; `None` plays the part of the `null` that a lookup returns for a missing key. */
  datatype Option<+T> = None | Some(value: T)

  /** The outcome of an operation that may throw: `Failure` carries the message of the thrown `Error`. */
  datatype Result<+T> = Ok(value: T) | Failure(message: string)
}

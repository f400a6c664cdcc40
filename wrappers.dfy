/** Failure-carrying values shared by the modules of this model. */
module Wrappers {

  /** A value that may be absent (Java's null or a "no such element" answer). */
  datatype Option<+T> = None | Some(value: T)

  /** The outcome of an operation that may raise an exception instead of returning. */
  datatype Result<+T> = Ok(value: T) | Err(message: string)
}

/** Failure-carrying values shared by every module of the model: Java's null
    becomes `None`, and a thrown exception becomes `Err`/`Fail`. */
module Wrappers {

  datatype Option<+T> = None | Some(value: T)

  datatype Result<+T, +E> = Ok(value: T) | Err(error: E)

  /** The outcome of a step that returns nothing but may throw. */
  datatype Outcome<+E> = Pass | Fail(error: E)
}

/** The optional value and the value-or-error types shared by the other modules. */
module Wrappers {

  datatype Option<+T> = None | Some(value: T)

  /** The outcome of a step that, in the Python scripts, either returns a
      value or raises an exception described by `error`. */
  datatype Result<+R, +E> = Success(value: R) | Failure(error: E)
}

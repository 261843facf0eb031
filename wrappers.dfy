/** Option and Result datatypes shared by the model. */
module Wrappers {

  datatype Option<+T> = None | Some(value: T)

  /** The value, or `default` when there is none: an omitted Python argument and its default. */
  function UnwrapOr<T>(o: Option<T>, default: T): T {
    if o.Some? then o.value else default
  }

  /** The outcome of an operation that can raise: a value, or the error it raises. */
  datatype Result<+T, +E> = Success(value: T) | Failure(error: E)
}

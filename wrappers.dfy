/** Option and Result, the failure-compatible wrappers used throughout the model.
    A C# reference that may be `null` becomes an Option; a call that may throw a
    .NET exception returns a Result whose failure is a `Runtime.Exception`. */
module Wrappers {

  datatype Option<+T> = None | Some(value: T)

  datatype Result<+T, +E> = Success(value: T) | Failure(error: E) {
    predicate IsFailure() { Failure? }

    function PropagateFailure<U>(): Result<U, E>
      requires Failure?
    {
      Failure(error)
    }

    function Extract(): T
      requires Success?
    {
      value
    }
  }
}

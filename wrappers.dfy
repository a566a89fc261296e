/** Option and Result, the failure-compatible wrappers the model uses for
    optional values and for code that may throw. */
module Wrappers {

  datatype Option<+T> = None | Some(value: T)

  /** `Failure(msg)` stands for a JavaScript exception carrying `msg` as its message. */
  datatype Result<+R> = Success(value: R) | Failure(error: string) {

    predicate IsFailure() {
      Failure?
    }

    function PropagateFailure<U>(): Result<U>
      requires Failure?
    {
      Failure(error)
    }

    function Extract(): R
      requires Success?
    {
      value
    }
  }
}

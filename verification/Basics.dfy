/** Small shared types: optional values, results and the errors the store reports. */
module Basics {

  datatype Option<+T> = None | Some(value: T)

  /** The error classes of `orbit-research-common`; messages are not modelled. */
  datatype Error =
    | Invalid
    | InvalidInput
    | NotFound
    | Conflict
    | Refused

  datatype Result<+T> = Success(value: T) | Failure(error: Error) {
    predicate IsFailure() {
      Failure?
    }

    function PropagateFailure<U>(): Result<U>
      requires Failure?
    {
      Failure(error)
    }

    function Extract(): T
      requires Success?
    {
      value
    }
  }

  /** What `:-` propagates when a condition is not met. */
  function Need(condition: bool, error: Error): Result<()> {
    if condition then Success(()) else Failure(error)
  }
}

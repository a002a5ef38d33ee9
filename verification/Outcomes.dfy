/** Results standing for the exceptions the repository's components throw. */
module Outcomes {
  datatype Error =
    | InvalidArgument
    | OutOfRange
    | LogicError
    | LengthError
    | OverflowError
    | StateError
    | PoolExhausted
    | CapacityExceeded
    | BackendError

  datatype Status = Ok | Failed(error: Error)

  datatype Result<+T> = Success(value: T) | Failure(error: Error)

  datatype Option<+T> = None | Some(value: T)
}

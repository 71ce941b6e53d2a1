/** What the C++ components share: the status every one of them returns, and the vocabulary of actions. */
module Statuses {

  datatype StatusCode =
    | InvalidArgument
    | NotReady
    | DeadlineExceeded
    | QueueFull
    | Cancelled
    | BackendError
    | InternalError

  datatype Status = Ok | Error(code: StatusCode, message: string)

  datatype Result<+T> = Success(value: T) | Failure(status: Status)

  datatype Representation = Absolute | Delta | Relative

  /** The largest unsigned 64-bit number. */
  const MAX: nat := 0xFFFF_FFFF_FFFF_FFFF
}

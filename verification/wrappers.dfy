/** Failure-carrying values used by the collaborators of the seed extension.
    Every failure carries the human-readable detail the source reads with
    `getFailureDetail()`. */
module Wrappers {

  /** An optional value; `None` stands for a Java `null`. */
  datatype Option<+T> = None | Some(value: T)

  /** A service result: a value on success, a failure detail otherwise. */
  datatype Result<+T> = Success(value: T) | Failure(detail: string)

  /** A service result that carries no value (`Result<Void>` in the source). */
  datatype Status = Ok | Failed(detail: string)
}

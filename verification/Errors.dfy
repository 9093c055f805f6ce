/** The exceptions a bulk operation can end with. */
module Errors {
  import opened Basics

  type Target = string

  datatype Error =
    | DeadlineExceeded
    | NotReady
    | ClientClosed
    | InvalidTimeout
    | NotMapPairs
    | UnequalLengths
    | RequestTooLarge
    | PositionOverflow
    | Unavailable
    | FailedPrecondition(route: Option<Target>)
    | OtherRpc(code: nat)

  /** Raised before anything is sent, by looking at the request alone. */
  predicate IsSizeOrShapeError(e: Error) {
    e.NotMapPairs? || e.UnequalLengths? || e.RequestTooLarge? || e.PositionOverflow?
  }
}

/** Failure-carrying wrappers for the router's possibly-null and possibly-throwing results. */
module Outcomes {

  /** A value the source may return as `null` or `undefined`. */
  datatype Option<+T> = None | Some(value: T)

  /** A computation the source may abort by raising a `TypeError`. */
  datatype Result<+T> = Success(value: T) | Failure(error: string)
}

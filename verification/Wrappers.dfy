/** Shared by every component. */
module Wrappers {

  datatype Option<+T> = None | Some(value: T)

  datatype Result<+T, +E> = Success(value: T) | Failure(error: E)

  /** How a repository call can end: acknowledged, or failed before or after it took effect. */
  datatype Fault = Acknowledged | LostBeforeApply | LostAfterApply
}

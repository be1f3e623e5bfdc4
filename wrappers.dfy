/** Option and Result types used for JavaScript's `undefined`, thrown errors
    and rejected promises throughout the model. */
module Wrappers {

  datatype Option<+T> = None | Some(value: T)

  datatype Result<+R, +E> = Success(value: R) | Failure(error: E)

  /** How a JavaScript promise ends up: resolved, rejected with a reason,
      or never settled (no code path calls `resolve` or `reject`). */
  datatype Settlement = Resolved | Rejected(reason: string) | Pending
}

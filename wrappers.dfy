/** Optional values and results with an error, used wherever the source
    returns `null`/`undefined`, yields `NaN` or throws. */
module Wrappers {

  /** `None` stands for JavaScript's `null`, `undefined` or an Invalid Date. */
  datatype Option<+T> = None | Some(value: T)

  /** `Failure` stands for a thrown error or an error object returned to the caller. */
  datatype Result<+T, +E> = Success(value: T) | Failure(error: E)
}

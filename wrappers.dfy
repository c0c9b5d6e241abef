/** Optional values and success-or-error results, used wherever the viewer's
    code has `undefined`, `null` or a caught exception. */
module Wrappers {

  datatype Option<+T> = None | Some(value: T)

  datatype Result<+T, +E> = Success(value: T) | Failure(error: E)
}

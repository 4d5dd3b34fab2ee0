/** Optional values and the two sentinel errors the task code compares against
    (`errors.ErrNotFound`, `errors.ErrNotModified`). A Go `error` result that is
    nil is `None`; a sentinel error is `Some(e)`. */
module Wrappers {

  datatype Option<+T> = None | Some(value: T)

  /** The sentinel errors of the task packages. */
  datatype Error = NotFound | NotModified
}

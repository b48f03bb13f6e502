/** Optional values and results-or-errors, used for Python's `None` and for
    the exceptions the scraper raises or catches. */
module Wrappers {

  datatype Option<+T> = None | Some(value: T)

  datatype Result<+R, +E> = Success(value: R) | Failure(error: E)
}

/** Optional values and results with an error, used for the decoder's "no
    descriptor" answer, the classifier's "no result" and training failure. */
module Wrappers {

  datatype Option<+T> = None | Some(value: T)

  datatype Result<+R, +E> = Success(value: R) | Failure(error: E)
}

/** Option and Result for the store's and the validators' results.
    The Go code returns a nil-or-pointer `*errResponse`; `Option` plays that role,
    and `Result` pairs a found record with the error of a failed lookup. */
module Wrappers {

  datatype Option<+T> = None | Some(value: T)

  datatype Result<+R, +E> = Success(value: R) | Failure(error: E)
}

/** Failure-carrying wrappers used across the model: `Option` stands for a
    JavaScript value that may be `null` (or a call that may throw), `Result`
    for an operation that ends either with a value or with one of the
    user-visible error messages. */
module Wrappers {

  datatype Option<+T> = None | Some(value: T)

  datatype Result<+R, +E> = Success(value: R) | Failure(error: E)
}

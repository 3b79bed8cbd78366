/** The result types shared by the whole model: Go's `(T, error)` pairs
    become `Result`, a bare `error` return becomes `Outcome`, and a nullable pointer or an
    absent value becomes `Option`. */
module Wrappers {

  datatype Option<+T> = None | Some(value: T)

  datatype Result<+R, +E> = Success(value: R) | Failure(error: E)

  datatype Outcome<+E> = Pass | Fail(error: E)
}

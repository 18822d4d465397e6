/** Failure-carrying values shared by every module of the model: `Option`
    stands for Python's `None`-or-value, `Result` for a return value or a
    raised exception (the exception is named by a short string). */
module Wrappers {

  datatype Option<+T> = None | Some(value: T)

  datatype Result<+T> = Success(value: T) | Failure(error: string)
}

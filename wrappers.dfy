/** Failure-carrying results: the C# code signals absence with `null` and
    failure with exceptions; the model uses these two datatypes instead. */
module Wrappers {

  datatype Option<+T> = None | Some(value: T)

  datatype Result<+R, +E> = Ok(value: R) | Err(error: E)
}

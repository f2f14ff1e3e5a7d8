/** Failure-carrying datatypes shared by the other modules: an absent value
    (`Option`) and a value-or-error (`Result`, the model of a PHP exception). */
module Wrappers {

  datatype Option<+T> = None | Some(value: T)

  datatype Result<+R, +E> = Success(value: R) | Failure(error: E)
}

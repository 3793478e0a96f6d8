/** The two wrappers shared by the whole model: Java's nullable references
    and `Optional` become `Option`, thrown exceptions become the `Failure`
    side of a `Result`. */
module Wrappers {

  datatype Option<+T> = None | Some(value: T)

  datatype Result<+T, +E> = Success(value: T) | Failure(error: E)
}

/** The two ways the forward-kinematics code can fail. */
module Errors {

  datatype FkError =
    | ShapeError          // an array does not reshape to the required layout
    | ConfigurationError  // the parent and bone tables disagree in length

  datatype Result<T> = Ok(value: T) | Err(error: FkError)
}

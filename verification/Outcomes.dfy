/** Outcomes shared by the modules of this project. */
module Outcomes {
  datatype Option<+T> = None | Some(value: T)
  datatype Result<+T> = Success(value: T) | Failure
}

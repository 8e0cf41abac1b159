/** The result shape that the models share. */
module Wrappers {
  datatype Option<+T> = None | Some(value: T)
}

/** An optional value, standing for a matrix that may be empty or a pointer that may be null. */
module Wrappers {

  datatype Option<+T> = None | Some(value: T)
}

/** The optional value of a Python variable that may hold None. */
module Wrappers {

  datatype Option<+T> = None | Some(value: T)
}

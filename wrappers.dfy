/** The optional value used for a path parameter that may not parse as a number. */
module Wrappers {

  datatype Option<+T> = None | Some(value: T)
}

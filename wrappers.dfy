/** The optional value used where a Python conversion or lookup may fail. */
module Wrappers {
  datatype Option<+T> = None | Some(value: T)
}

/** The value that may be absent, shared by every model. */
module Wrappers {
  datatype Option<+T> = None | Some(value: T)
}

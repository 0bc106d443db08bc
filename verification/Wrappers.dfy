/** A value that may be missing: Python's None beside a value. */
module Wrappers {

  datatype Option<+T> = None | Some(value: T)
}

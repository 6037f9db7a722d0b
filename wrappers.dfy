/** Python's `None` for the optional fields and lookups of the application. */
module Wrappers {

  datatype Option<+T> = None | Some(value: T)
}

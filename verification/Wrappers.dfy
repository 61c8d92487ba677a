module Wrappers {
  /** A Go pointer, map or handler that may be nil. */
  datatype Option<+T> = None | Some(value: T)
}

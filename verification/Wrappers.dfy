module Wrappers {
  /** A value that may be absent (`None` in the source). */
  datatype Option<+T> = None | Some(value: T)
}

/** Small failure-compatible wrapper used for lookups that may miss. */
module Wrappers {

  /** A value that may be absent: the `value, ok := m[k]` idiom of Go. */
  datatype Option<+T> = None | Some(value: T)
}

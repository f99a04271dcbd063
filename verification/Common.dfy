/** Shared failure-free helper types. */
module Common {
  datatype Option<+T> = None | Some(value: T)
}

/** Values that may be absent, as Python's `None` or a missing key. */
module Options {
  datatype Option<+T> = None | Some(value: T)
}

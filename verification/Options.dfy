/** The conventional optional value, for Python's `T | None`. */
module Options {
  datatype Option<+T> = None | Some(value: T)
}

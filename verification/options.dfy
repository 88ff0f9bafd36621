/** `Option`, as Python's `None`-or-value return. */
module Options {
  datatype Option<+T> = None | Some(value: T)
}

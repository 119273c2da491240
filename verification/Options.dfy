/** A value that may be missing: the program's `None`. */
module Options {
  datatype Option<+T> = None | Some(value: T)
}

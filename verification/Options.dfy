/** A value that may be missing: a null pointer, a failed allocation, an absent argument. */
module Options {
  datatype Option<+T> = None | Some(value: T)
}

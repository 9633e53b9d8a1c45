/** A value that may be missing: a NULL pointer, or an error code in place of a result. */
module Options {
  datatype Option<+T> = None | Some(value: T)
}

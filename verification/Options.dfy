/** A value or nothing: a C pointer that may be null, an index that may be missing. */
module Options {
  datatype Option<+T> = None | Some(value: T)
}

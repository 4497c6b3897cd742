/** A value that may be missing: a nil pointer, an absent key, text that does not parse. */
module Options {
  datatype Option<T> = None | Some(value: T)
}

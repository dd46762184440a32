/** A value that may be missing: a null pointer, an unset marker, an empty slot. */
module Options {
  datatype Option<T> = None | Some(value: T)
}

/** A value that may be absent: a null reference, an undefined argument, a key not found. */
module Options {
  datatype Option<+T> = None | Some(value: T)
}

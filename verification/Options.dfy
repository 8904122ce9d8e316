/** A value that may be absent: a field that is null, a read that failed, nothing yet. */
module Options {
  datatype Option<T> = None | Some(value: T)
}

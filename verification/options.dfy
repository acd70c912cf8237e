/** The usual optional-value datatype, used for Go's `(value, ok)` pairs. */
module Options {
  datatype Option<T> = None | Some(value: T)
}

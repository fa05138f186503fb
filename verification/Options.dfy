// A value that may be absent: a nullable column, an optional amount.

module Options {
  datatype Option<+T> = None | Some(value: T)
}

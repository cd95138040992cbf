/** An optional value: a nullable column, an unset field, a missing key. */
module Options {
  datatype Option<+T> = None | Some(value: T)
}

/** An optional value: a nullable column, a missing row, or a failed call. */
module Options {
  datatype Option<T> = None | Some(value: T)
}

/** The optional value used wherever the source has a NULL column, a nil pointer or a missing row. */
module Options {
  datatype Option<+T> = None | Some(value: T)
}

/** The optional value used throughout: a column, field or reply that may be absent. */
module Options {
  datatype Option<+T> = None | Some(value: T)
}

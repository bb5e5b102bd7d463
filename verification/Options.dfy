/** The optional value every module shares: a row that may be absent, a column that may be null. */
module Options {
  datatype Option<+T> = None | Some(value: T)
}

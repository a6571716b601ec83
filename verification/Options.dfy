/** The two-valued result of a lookup or of a parse that may fail. */
module Options {
  datatype Option<+T> = None | Some(value: T)
}

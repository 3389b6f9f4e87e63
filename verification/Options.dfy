/** The optional value used where the source has `null`, `undefined` or a missing row. */
module Options {
  datatype Option<+T> = None | Some(value: T)
}

/** The optional value used for every absent column or missing row. */
module Options {
  datatype Option<+T> = None | Some(value: T)
}

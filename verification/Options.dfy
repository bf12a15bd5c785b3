/** The usual optional value: a SQL NULL, a missing map key, an absent pointer. */
module Options {
  datatype Option<+T> = None | Some(value: T)
}

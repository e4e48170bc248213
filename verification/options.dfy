/** An optional value: an absent, null or undefined field is None. */
module Options {
  datatype Option<+T> = None | Some(value: T)
}

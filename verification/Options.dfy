/** An optional value, for the source's nil pointers and missing rows. */
module Options {
  datatype Option<+T> = None | Some(value: T)
}

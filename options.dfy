/** The optional value used for `null`/`undefined` results throughout the portal model. */
module Options {
  datatype Option<+T> = None | Some(value: T)
}

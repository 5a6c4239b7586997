/** The optional value used wherever the dashboard meets JavaScript's `undefined`. */
module Options {
  datatype Option<+T> = None | Some(value: T)
}

/** The optional value used wherever the JavaScript code has `null`/`undefined`. */
module Options {
  datatype Option<+T> = None | Some(value: T)
}

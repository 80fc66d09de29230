/** The optional value used where the JavaScript code yields `undefined`. */
module Options {
  datatype Option<+T> = None | Some(value: T)
}

/** An optional value: a JavaScript property that may be absent, `null` or `undefined`. */
module Optional {

  datatype Option<+T> = None | Some(value: T)
}

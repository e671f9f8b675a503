/** The usual Some/None wrapper, used for values the source leaves `undefined` or `null`. */
module Optional {
  datatype Option<+T> = None | Some(value: T)
}

/** An optional value: a missing setting, or a result that C leaves undefined. */
module Options {
  datatype Option<+T> = None | Some(value: T)
}

/** An optional value, for the source's `None` results and nullable columns. */
module Options {
  datatype Option<+T> = None | Some(value: T)
}

/** An optional value: Go's `(value, ok)` results and nil handles. */
module Options {
  datatype Option<+T> = None | Some(value: T)
}

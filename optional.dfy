/** The value-or-nothing type used wherever the source returns `Optional[...]` or `None`. */
module Optional {
  datatype Option<+T> = None | Some(value: T)
}

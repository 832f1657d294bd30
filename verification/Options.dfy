// A value that may be absent: a SQL NULL or a Python None.
module Options {
  datatype Option<+T> = None | Some(value: T)
}

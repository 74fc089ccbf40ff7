// A missing-or-present value: Python's `None`, and the missing (NaN) cells of a numeric column.
module Options {

  datatype Option<+T> = None | Some(value: T)
}

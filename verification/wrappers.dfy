/** The optional value used for SQL NULL, Python None and "not found". */
module Wrappers {
  datatype Option<+T> = None | Some(value: T)
}

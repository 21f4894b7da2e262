/** The optional value used wherever the program may hold "nothing" (Python's None). */
module Wrappers {
  datatype Option<+T> = None | Some(value: T)
}

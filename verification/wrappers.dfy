/** The optional value used where the Python code returns `None` or reads a key that may be absent. */
module Wrappers {

  datatype Option<+T> = None | Some(value: T)
}

/** An optional value: `None` where the Python code has `None`. */
module Wrappers {

  datatype Option<+T> = None | Some(value: T)
}

/** The optional value used for "absent" throughout the model (Python's None, JavaScript's undefined). */
module Wrappers {
  datatype Option<+T> = None | Some(value: T)
}

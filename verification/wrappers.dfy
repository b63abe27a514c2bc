/** The optional-value datatype used throughout the model for "may be missing". */
module Wrappers {

  datatype Option<+T> = None | Some(value: T)
}

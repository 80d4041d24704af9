/** The optional-value datatype used for "not set yet" and "nothing to report". */
module Wrappers {

  datatype Option<+T> = None | Some(value: T)
}

/** The optional-value wrapper used for Swift optionals and for calls that may throw. */
module Wrappers {

  datatype Option<+T> = None | Some(value: T)
}

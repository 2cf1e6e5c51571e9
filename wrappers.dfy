/** Small value wrappers shared by the other modules. */
module Wrappers {

  /** An optional value. Used for Go values that may be nil, in particular
      an `error` result: `None` is a nil error. */
  datatype Option<+T> = None | Some(value: T)
}

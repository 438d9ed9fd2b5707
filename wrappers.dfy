/** Small shared datatypes. */
module Wrappers {

  /** An optional value; stands for a Go pointer that may be nil, or an error that may be nil. */
  datatype Option<+T> = None | Some(value: T)
}

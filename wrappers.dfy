/** Optional values: Go's nil-able pointers, interfaces and errors. */
module Wrappers {

  /** `None` stands for Go's `nil`. */
  datatype Option<+T> = None | Some(value: T)
}

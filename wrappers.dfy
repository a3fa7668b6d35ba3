/** Java's nullable references, where the wrapped code tests for null. */
module Wrappers {

  datatype Option<+T> = None | Some(value: T)
}

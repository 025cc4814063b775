/** Small value wrappers shared by the screens. */
module Wrappers {

  /** A value that may be absent: Kotlin's nullable types (`T?`). */
  datatype Option<+T> = None | Some(value: T)
}

/** Kotlin's nullable results (`T?`) as an option value. */
module Wrappers {
  datatype Option<+T> = None | Some(value: T)
}

/** The optional value the source writes as `null` or a missing key. */
module Wrappers {
  datatype Option<+T> = None | Some(value: T)
}

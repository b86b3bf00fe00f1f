/** Results that may be absent: the source's nil pointers, empty cursors and error returns. */
module Wrappers {
  datatype Option<+T> = None | Some(value: T)
}

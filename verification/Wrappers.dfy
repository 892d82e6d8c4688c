/** Values that may be absent: a NULL column, a missing Redis key, a free row lock. */
module Wrappers {
  datatype Option<+T> = None | Some(value: T)
}

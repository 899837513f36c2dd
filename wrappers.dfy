/** Go's nil-able pointers (`*string`, `*time.Time`, ...) become Option values. */
module Wrappers {

  datatype Option<+T> = None | Some(value: T)
}

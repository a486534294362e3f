/** Optional values, used for Go's `error` results (`nil` is `None`). */
module Wrappers {

  datatype Option<+T> = None | Some(value: T)
}

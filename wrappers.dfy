/** Optional values: Python's `None` and the model's nullable columns. */
module Wrappers {

  datatype Option<+T> = None | Some(value: T)
}

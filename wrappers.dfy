/** Optional values, standing for Python's `Optional[...]` / `None`. */
module Wrappers {
  datatype Option<+T> = None | Some(value: T)
}

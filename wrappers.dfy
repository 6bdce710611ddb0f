/** Optional values: a dictionary lookup that may miss, a thread that may be absent. */
module Wrappers {
  datatype Option<+T> = None | Some(value: T)
}

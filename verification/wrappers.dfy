/** Optional values, used wherever the source has a value that may be absent
    (Python's None, a missing JSON key, a caught exception). */
module Wrappers {

  datatype Option<+T> = None | Some(value: T)
}

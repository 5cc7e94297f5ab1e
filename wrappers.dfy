/** Optional values, standing for Python's `None` and for fields a dict may lack. */
module Wrappers {

  datatype Option<+T> = None | Some(value: T)
}

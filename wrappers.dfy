/** Optional values, used for Python's `None` results, failed parses and JavaScript exceptions. */
module Wrappers {

  datatype Option<+T> = None | Some(value: T)
}

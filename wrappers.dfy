/** Optional values: Python's `None` and the "no row" answer of a query. */
module Wrappers {

  datatype Option<+T> = None | Some(value: T)
}

/** Optional values: `None` stands for Go's nil (a nil map, a nil function value). */
module Wrappers {

  datatype Option<+T> = None | Some(value: T)
}

/** Optional values: the model's reading of JavaScript's `undefined` / SQL's "no row". */
module Wrappers {

  datatype Option<+T> = None | Some(value: T)
}

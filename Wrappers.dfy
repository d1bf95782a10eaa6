/** Optional values: `None` stands for a missing cell (NaN in the data frame). */
module Wrappers {

  datatype Option<+T> = None | Some(value: T)

}

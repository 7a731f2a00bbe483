/** Optional values, used for "no post from this row", "no qualifying cell"
    and "no matched keyword". */
module Wrappers {

  datatype Option<+T> = None | Some(value: T)
}

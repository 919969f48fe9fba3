/** Optional values. In this model `None` also stands for JavaScript's NaN
    wherever a number may be NaN (an invalid Date, a failed parseInt). */
module Wrappers {

  datatype Option<+T> = None | Some(value: T)
}

/** Optional values. `None` stands for the host language's `null`, `undefined`
    or `NaN`, wherever the source uses one of them to mean "no number here". */
module Wrappers {
  datatype Option<+T> = None | Some(value: T)
}

/** Python's `None`-or-value results, as used by every extractor. */
module Wrappers {
  datatype Option<+T> = None | Some(value: T)
}

/** Swift's `Optional`, written out: `None` is `nil`. */
module Optionals {
  datatype Option<+T> = None | Some(value: T)
}

/** The optional-value datatype used for Go's nil checks and "comma ok" lookups. */
module Wrappers {

  datatype Option<+T> = None | Some(value: T)

}

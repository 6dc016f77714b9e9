/** The nullable-value datatype used throughout the model: Java's `null` is `None`. */
module Wrappers {

  datatype Option<+T> = None | Some(value: T)
}

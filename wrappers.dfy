/** The optional value used wherever the C# source returns a nullable value or throws. */
module Wrappers {
  datatype Option<+T> = None | Some(value: T)
}

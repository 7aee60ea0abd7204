/** The optional value used for C# nullable fields and optional arguments. */
module Wrappers {
  datatype Option<+T> = None | Some(value: T)
}

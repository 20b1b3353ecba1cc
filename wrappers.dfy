/** The C# `null` of a reference or a `Nullable<T>`, as a value. */
module Wrappers {

  datatype Option<+T> = None | Some(value: T)
}

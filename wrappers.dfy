/** The optional value, used where the TypeScript code reads `undefined`. */
module Wrappers {
  datatype Option<T> = None | Some(value: T)
}

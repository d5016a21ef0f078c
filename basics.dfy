/** Small value types shared by the other modules. */
module Basics {

  /** An optional value: a result that may be absent. */
  datatype Option<T> = None | Some(value: T)

  /** An octet, as Go's `byte`. */
  newtype byte = x: int | 0 <= x < 256
}

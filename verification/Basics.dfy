module Basics {
  /** The null pointer or failure value of the sources, and a proper one. */
  datatype Option<+T> = None | Some(value: T)

  type Byte = x: int | 0 <= x < 256
}

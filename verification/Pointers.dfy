/** A pointer that may be null. */
module Pointers {
  datatype Pointer<T> = Null | Ptr(at: T)
}

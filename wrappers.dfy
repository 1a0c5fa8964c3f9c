/** The optional value a read of the cycle list yields: `None` stands for
    JavaScript's `undefined`, the element of an empty array. */
module Wrappers {
  datatype Option<+T> = None | Some(value: T)
}

// Shared by every module: the optional value that stands for a nil pointer,
// a missing map entry or an absent error; and the larger and the smaller of two.
module Wrappers {

  datatype Option<+T> = None | Some(value: T)

  function Max(x: int, y: int): int {
    if x < y then y else x
  }

  function Min(x: int, y: int): int {
    if x < y then x else y
  }

}

/** Shared vocabulary of the models. */
module Wrappers {
  datatype Option<+T> = None | Some(value: T)

  /** The 32-bit signed range of a C int. */
  const INT_MAX: int := 0x7FFF_FFFF
}

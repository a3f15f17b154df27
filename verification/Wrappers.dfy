/** Values shared by all models. */
module Wrappers {
  datatype Option<T> = None | Some(value: T)

  const TWO32: nat := 0x1_0000_0000

  /** An unsigned 32-bit word. */
  type U32 = x: int | 0 <= x < TWO32 witness 0

  function Min(a: int, b: int): int {
    if a <= b then a else b
  }
}

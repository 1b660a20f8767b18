/** Small things that several modules use. */
module Basics {

  /** A machine byte. */
  type Byte = bv8

  /** A fact as a number, for counting. */
  function One(b: bool): nat {
    if b then 1 else 0
  }

  function Min(x: int, y: int): int {
    if x < y then x else y
  }
}

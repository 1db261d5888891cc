/** The optional value used for pointers that may be null and searches that may fail. */
module Common {
  datatype Option<+T> = None | Some(value: T)

  const INT_MAX := 0x7FFF_FFFF

  /** The conversion of a wider integer to a 32-bit int. */
  function ToInt32(n: int): (r: int)
    ensures -INT_MAX - 1 <= r <= INT_MAX && (r - n) % 0x1_0000_0000 == 0
  {
    (n + 0x8000_0000) % 0x1_0000_0000 - 0x8000_0000
  }
}

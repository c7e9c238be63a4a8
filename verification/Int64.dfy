/** Two's complement integers of 64 bits. */
module Int64 {
  const TWO63: int := 0x8000_0000_0000_0000
  const TWO64: int := 0x1_0000_0000_0000_0000
  const MAX_INT64: int := TWO63 - 1

  /** What an int64 result becomes. */
  function Wrap(x: int): int {
    (x + TWO63) % TWO64 - TWO63
  }

  lemma WrapFits(x: int)
    requires -TWO63 <= x <= MAX_INT64
    ensures Wrap(x) == x
  {
  }

  /** Equal after wrapping means equal, for values less than 2^64 apart. */
  lemma WrapSeparates(x: int, y: int)
    requires 0 < x - y < TWO64
    ensures Wrap(x) != Wrap(y)
  {
  }
}

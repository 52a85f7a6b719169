/** Bytes and the range of a 64-bit number. */
module Bytes {
  type byte = x: int | 0 <= x < 256

  const TWO63: int := 0x8000_0000_0000_0000

  predicate Int64(x: int) { -TWO63 <= x < TWO63 }

  /** What is left of a number in 64 bits. */
  function Wrap64(x: int): (y: int)
    ensures Int64(y) && (Int64(x) ==> y == x)
  {
    (x + TWO63) % (2 * TWO63) - TWO63
  }

  /** Wrapping on the way does not change where a sum ends. */
  lemma WrapSum(x: int, y: int)
    ensures Wrap64(Wrap64(x) + y) == Wrap64(x + y)
  {
    var m := 2 * TWO63;
    var q := (x + TWO63) / m;
    assert Wrap64(x) == x - q * m;
    assert (x + y + TWO63 - q * m) % m == (x + y + TWO63) % m;
  }
}

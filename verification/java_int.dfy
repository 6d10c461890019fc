/** Java's 32-bit `int`: its range, the narrowing cast from `long`, and
    `Math.abs`, whose result wraps for the most negative value. */
module JavaInts {
  const IntMax: int := 2147483647
  const IntMin: int := -2147483648
  const TwoTo32: int := 0x1_0000_0000

  predicate IsInt(x: int) {
    IntMin <= x <= IntMax
  }

  /** `(int) x`: keeps the low 32 bits of a `long`, read as two's complement. */
  function NarrowToInt(x: int): (r: int)
    ensures IsInt(r)
    ensures (r - x) % TwoTo32 == 0
    ensures IsInt(x) ==> r == x
  {
    (x - IntMin) % TwoTo32 + IntMin
  }

  /** `Math.abs(int)`: the absolute value, except that Integer.MIN_VALUE has
      no positive counterpart and comes back unchanged. */
  function AbsInt(x: int): (r: int)
    requires IsInt(x)
    ensures IsInt(r)
    ensures x != IntMin ==> r >= 0 && (r == x || r == -x)
    ensures x == IntMin ==> r == IntMin
  {
    if x == IntMin then IntMin else if x < 0 then -x else x
  }

  /** Long.MAX_VALUE, the day count of a certificate without expiry, reads as
      -1 once narrowed to int. */
  lemma NarrowLongMax()
    ensures NarrowToInt(9223372036854775807) == -1
  {
  }
}

/**
 * JavaScript's `x | 0`: convert a number to a signed 32-bit integer by
 * truncating toward zero and wrapping modulo 2^32 (ECMAScript ToInt32).
 */
module Numbers {

  const TwoTo31: int := 0x8000_0000
  const TwoTo32: int := 0x1_0000_0000

  /** Rounds toward zero, as ToInt32 does before it wraps. */
  function TruncateTowardZero(x: real): (t: int)
    ensures 0.0 <= x ==> 0 <= t && t as real <= x < t as real + 1.0
    ensures x < 0.0 ==> t <= 0 && t as real - 1.0 < x <= t as real
  {
    if x >= 0.0 then x.Floor else -((-x).Floor)
  }

  function ToInt32(x: real): (r: int)
    ensures -TwoTo31 <= r < TwoTo31
    ensures (r - TruncateTowardZero(x)) % TwoTo32 == 0
    ensures -TwoTo31 <= TruncateTowardZero(x) < TwoTo31 ==> r == TruncateTowardZero(x)
  {
    var m := TruncateTowardZero(x) % TwoTo32;
    if m >= TwoTo31 then m - TwoTo32 else m
  }
}

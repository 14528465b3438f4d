/**
 * Shared vocabulary of the model: optional values (Kotlin's nullable types
 * and Java's null returns), the 32-bit `Int` range of the JVM, the
 * truncating double-to-int conversion, and the small clamps the Kotlin
 * standard library offers (`coerceAtLeast`, `coerceIn`).
 */
module Common {

  datatype Option<T> = None | Some(value: T) {
    /** Kotlin's `x ?: d` and `getOrDefault(k, d)`. */
    function GetOr(d: T): T {
      if Some? then value else d
    }
  }

  /** A value, or the reason there is none (the early `return` of a guard). */
  datatype Result<T, E> = Ok(value: T) | Err(error: E)

  const INT_MIN: int := -0x8000_0000
  const INT_MAX: int := 0x7FFF_FFFF
  const TWO_32: int := 0x1_0000_0000

  predicate IsInt32(x: int) {
    INT_MIN <= x <= INT_MAX
  }

  /** Two's-complement wrap-around of a JVM `Int` addition or multiplication. */
  function Wrap32(x: int): (r: int)
    ensures IsInt32(r)
    ensures (x - r) % TWO_32 == 0
    ensures IsInt32(x) ==> r == x
  {
    (x - INT_MIN) % TWO_32 + INT_MIN
  }

  function Min(a: int, b: int): (r: int)
    ensures r <= a && r <= b && (r == a || r == b)
  {
    if a <= b then a else b
  }

  function Max(a: int, b: int): (r: int)
    ensures r >= a && r >= b && (r == a || r == b)
  {
    if a >= b then a else b
  }

  /** Kotlin's `Int.coerceAtLeast(lo)`. */
  function CoerceAtLeast(x: int, lo: int): (r: int)
    ensures r >= lo
    ensures x >= lo ==> r == x
    ensures x < lo ==> r == lo
  {
    if x < lo then lo else x
  }

  /**
   * Kotlin's `Int.coerceIn(lo, hi)`; the library throws when `lo > hi`,
   * so callers check that case first.
   */
  function CoerceIn(x: int, lo: int, hi: int): (r: int)
    requires lo <= hi
    ensures lo <= r <= hi
    ensures lo <= x <= hi ==> r == x
    ensures x < lo ==> r == lo
    ensures x > hi ==> r == hi
  {
    if x < lo then lo else if x > hi then hi else x
  }

  /**
   * The JVM's `Double.toInt()` / `(int) d`: rounds toward zero and saturates
   * at the ends of the `Int` range (NaN does not arise for a `real`).
   */
  function TruncToInt(x: real): (r: int)
    ensures IsInt32(r)
    ensures 0.0 <= x && x < (INT_MAX + 1) as real ==> r as real <= x < r as real + 1.0
    ensures (INT_MIN - 1) as real < x && x <= 0.0 ==> r as real - 1.0 < x <= r as real
  {
    var t := if x >= 0.0 then x.Floor else -((-x).Floor);
    if t < INT_MIN then INT_MIN else if t > INT_MAX then INT_MAX else t
  }

  /** `Math.pow(b, n)` for a non-negative whole exponent. */
  function Pow(b: real, n: nat): real
  {
    if n == 0 then 1.0 else b * Pow(b, n - 1)
  }
}

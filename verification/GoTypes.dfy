// Go's integer widths and the few value types that every other module needs.
module GoTypes {

  datatype Option<+T> = None | Some(value: T)

  datatype Result<+T, +E> = Ok(value: T) | Err(error: E)

  /** A Go error value, kept only as its text. */
  type Error = string

  const MAX_DURATION: int := 0x7FFF_FFFF_FFFF_FFFF

  const MAX_UINT64: int := 0xFFFF_FFFF_FFFF_FFFF

  type uint64 = n: int | 0 <= n < 0x1_0000_0000_0000_0000

  /** time.Duration: a signed 64-bit number of nanoseconds. */
  type Duration = n: int | -MAX_DURATION - 1 <= n <= MAX_DURATION

  /** Go converts a floating-point value to an integer by dropping the fraction. */
  function Truncate(x: real): (r: int)
    ensures x >= 0.0 ==> 0.0 <= x - r as real < 1.0
    ensures x < 0.0 ==> -1.0 < x - r as real <= 0.0
  {
    if x >= 0.0 then x.Floor else -((-x).Floor)
  }

  /** Truncation towards zero never leaves an interval with integer ends. */
  lemma TruncateWithin(x: real, lo: int, hi: int)
    requires lo as real <= x <= hi as real
    ensures lo <= Truncate(x) <= hi
  {
  }

  /** rand.IntN(n) with the random source passed in: every value below n is reached by drawing itself. */
  function IntN(raw: nat, n: nat): (r: nat)
    requires n > 0
    ensures r < n
    ensures raw < n ==> r == raw
  {
    if raw < n then raw else raw % n
  }

  lemma OneMore(n: int, cost: int)
    ensures (n + 1) * cost == n * cost + cost
  {
  }
}

/** Go's int64, with the wrap-around of its arithmetic written out. */
module Int64 {

  const MAX_INT64: int := 0x7fff_ffff_ffff_ffff
  const MIN_INT64: int := -0x8000_0000_0000_0000

  type int64 = x: int | -0x8000_0000_0000_0000 <= x <= 0x7fff_ffff_ffff_ffff

  /** What an int64 operation leaves of an exact result that may not fit. */
  function Wrapped(x: int): (r: int64)
    ensures MIN_INT64 <= x <= MAX_INT64 ==> r == x
    ensures MAX_INT64 < x <= 2 * MAX_INT64 ==> r < 0
  {
    (x - MIN_INT64) % 0x1_0000_0000_0000_0000 + MIN_INT64
  }

  function Min(a: int, b: int): int {
    if a <= b then a else b
  }

  function Max(a: int, b: int): int {
    if a >= b then a else b
  }
}

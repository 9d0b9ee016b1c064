/** Small shared vocabulary: optional values, the bounds of Rust's `i32`,
    and the Rust integer operations whose meaning differs from Dafny's. */
module Base {

  datatype Option<+T> = None | Some(value: T) {
    /** Rust's `Option::unwrap_or`. */
    function GetOr(default: T): T {
      match this
      case Some(v) => v
      case None => default
    }
  }

  /** FALLBACK_MIN, FALLBACK_MAX, BRIGHTNESS_OFF, OS14_MIN and OS14_MAX
      (src/constants.rs). */
  const FallbackMin: int := 222
  const FallbackMax: int := 8191
  const BrightnessOff: int := 0
  const Os14Min: int := 22
  const Os14Max: int := 5118

  const I32Min: int := -0x8000_0000
  const I32Max: int := 0x7fff_ffff

  /** `x` is representable as a Rust `i32`. */
  predicate InI32(x: int) {
    I32Min <= x <= I32Max
  }

  function Min(a: int, b: int): (r: int)
    ensures r <= a && r <= b && (r == a || r == b)
  {
    if a <= b then a else b
  }

  function Max(a: int, b: int): (r: int)
    ensures r >= a && r >= b && (r == a || r == b)
  {
    if a >= b then a else b
  }

  /** Distance from zero. */
  function Abs(x: int): (r: nat)
    ensures r == x || r == -x
  {
    if x < 0 then -x else x
  }

  /** Rust's `Ord::clamp` (which panics unless `lo <= hi`). */
  function Clamp(x: int, lo: int, hi: int): (r: int)
    requires lo <= hi
    ensures lo <= r <= hi
    ensures lo <= x <= hi ==> r == x
    ensures x < lo ==> r == lo
    ensures x > hi ==> r == hi
  {
    if x < lo then lo else if x > hi then hi else x
  }

  /** Rust's `a / 4` on integers, which truncates toward zero (Dafny's `/`
      rounds toward negative infinity for a positive divisor). */
  function QuarterTowardZero(a: int): (q: int)
    ensures a >= 0 ==> 0 <= 4 * q <= a < 4 * q + 4
    ensures a < 0 ==> a <= 4 * q < a + 4 && q <= 0
  {
    if a >= 0 then a / 4 else -((-a) / 4)
  }
}

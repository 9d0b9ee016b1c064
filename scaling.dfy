/** The integer scaling engine (src/bin/scaling.rs, and `sb`/`sb_linear` in
    src/bin/xia.displayadaptor.rs): maps a logical brightness in
    `[inMin, inMax]` to a hardware value in `[hwMin, hwMax]`. All arithmetic
    is Rust `i32` (or `i64` where the source widens); each function requires
    that the intermediates the source computes fit, and on the non-negative
    operands used here Rust's truncating `/` agrees with Dafny's. */
module Scaling {
  import opened Base

  /** The coefficients of a three-segment piecewise-linear table on the
      0..511 internal scale: `0..=70` maps to `1 + lowSlope*p/70`, `71..=90`
      to `midBase + midSlope*(p-70)/20`, `91..=100` to `254 + 257*(p-90)/10`. */
  datatype Curve = Curve(lowSlope: int, midBase: int, midSlope: int)

  /** The table of `scale_brightness_curved`. */
  const Perceptual: Curve := Curve(56, 57, 197)

  /** The table of the older `sb`. */
  const LegacyPerceptual: Curve := Curve(149, 150, 104)

  /** The segments meet: each one starts where the previous one ends. */
  predicate Continuous(c: Curve) {
    c.lowSlope >= 0 && c.midSlope >= 0
    && 1 + c.lowSlope == c.midBase && c.midBase + c.midSlope == 254
  }

  /** The `match percent` of the curved scaler. */
  function Internal(c: Curve, percent: int): (r: int)
    requires Continuous(c)
    // each segment stays between its endpoints, so the table climbs 1 .. 254 .. 511
    ensures 0 <= percent <= 70 ==> 1 <= r <= c.midBase
    ensures 71 <= percent <= 90 ==> c.midBase <= r <= 254
    ensures 91 <= percent <= 100 ==> 254 <= r <= 511
    ensures percent < 0 || percent > 100 ==> r == 511
  {
    if 0 <= percent <= 70 then
      ScaledFraction(c.lowSlope, percent, 70, 70);
      1 + c.lowSlope * percent / 70
    else if 71 <= percent <= 90 then
      ScaledFraction(c.midSlope, percent - 70, 20, 20);
      c.midBase + c.midSlope * (percent - 70) / 20
    else if 91 <= percent <= 100 then
      ScaledFraction(257, percent - 90, 10, 10);
      254 + 257 * (percent - 90) / 10
    else 511
  }

  /** Every `i32` operation the curved scaler performs stays in range. */
  predicate CurvedDefined(c: Curve, val: int, hwMin: int, hwMax: int, inMin: int, inMax: int)
    requires Continuous(c)
  {
    && InI32(val) && InI32(hwMin) && InI32(hwMax) && InI32(inMin) && InI32(inMax)
    && (hwMin < hwMax ==>
          && InI32(inMax - 1)
          && var lo := Min(inMin, inMax - 1);
             var hi := Max(inMax, lo + 1);
             (lo < val < hi ==>
                && InI32(val - lo) && InI32((val - lo) * 100) && InI32(hi - lo)
                && InI32(hwMax - hwMin)
                && InI32(Internal(c, (val - lo) * 100 / (hi - lo)) * (hwMax - hwMin))))
  }

  /** `scale_brightness_curved` (and `sb`) over the table `c`. */
  function ScaleByTable(c: Curve, val: int, hwMin: int, hwMax: int, inMin: int, inMax: int): (r: int)
    requires Continuous(c)
    requires CurvedDefined(c, val, hwMin, hwMax, inMin, inMax)
    ensures hwMin >= hwMax ==> r == Max(hwMin, 0)
    ensures hwMin < hwMax ==> hwMin <= r <= hwMax
    ensures hwMin < hwMax && val >= inMax ==> r == hwMax
    ensures hwMin < hwMax && val < inMax && val <= inMin ==> r == hwMin
    ensures hwMin < hwMax && inMin < val < inMax ==> r < hwMax
  {
    if hwMin >= hwMax then Max(hwMin, 0)
    else
      var lo := Min(inMin, inMax - 1);
      var hi := Max(inMax, lo + 1);
      if val <= lo then hwMin
      else if val >= hi then hwMax
      else
        var percent := (val - lo) * 100 / (hi - lo);
        InteriorBelowMax(c, val, lo, hi, hwMin, hwMax);
        Clamp(hwMin + Internal(c, percent) * (hwMax - hwMin) / 511, hwMin, hwMax)
  }

  /** `scale_brightness_curved`. */
  function ScaleCurved(val: int, hwMin: int, hwMax: int, inMin: int, inMax: int): (r: int)
    requires CurvedDefined(Perceptual, val, hwMin, hwMax, inMin, inMax)
    ensures hwMin >= hwMax ==> r == Max(hwMin, 0)
    ensures hwMin < hwMax ==> hwMin <= r <= hwMax
    ensures hwMin < hwMax && val >= inMax ==> r == hwMax
    ensures hwMin < hwMax && val < inMax && val <= inMin ==> r == hwMin
    ensures hwMin < hwMax && inMin < val < inMax ==> r < hwMax
  {
    ScaleByTable(Perceptual, val, hwMin, hwMax, inMin, inMax)
  }

  /** `sb`, the older curved scaler with a brighter low segment. */
  function ScaleSb(val: int, hwMin: int, hwMax: int, inMin: int, inMax: int): (r: int)
    requires CurvedDefined(LegacyPerceptual, val, hwMin, hwMax, inMin, inMax)
    ensures hwMin >= hwMax ==> r == Max(hwMin, 0)
    ensures hwMin < hwMax ==> hwMin <= r <= hwMax
    ensures hwMin < hwMax && val >= inMax ==> r == hwMax
    ensures hwMin < hwMax && val < inMax && val <= inMin ==> r == hwMin
    ensures hwMin < hwMax && inMin < val < inMax ==> r < hwMax
  {
    ScaleByTable(LegacyPerceptual, val, hwMin, hwMax, inMin, inMax)
  }

  /** Every operation `scale_brightness_linear` does in `i32` stays in range
      (the product is taken in `i64`, where it always fits). */
  predicate LinearDefined(val: int, hwMin: int, hwMax: int, inMin: int, inMax: int) {
    && InI32(val) && InI32(hwMin) && InI32(hwMax) && InI32(inMin) && InI32(inMax)
    && (inMin < inMax && hwMin < hwMax ==> InI32(inMax - inMin) && InI32(hwMax - hwMin))
  }

  /** `scale_brightness_linear` (and the identical `sb_linear`): the clamped
      input mapped proportionally, rounded down. */
  function ScaleLinear(val: int, hwMin: int, hwMax: int, inMin: int, inMax: int): (r: int)
    requires LinearDefined(val, hwMin, hwMax, inMin, inMax)
    ensures inMin >= inMax || hwMin >= hwMax ==> r == Max(hwMin, 0)
    ensures inMin < inMax && hwMin < hwMax ==>
              && hwMin <= r <= hwMax && InI32(r)
              && (val <= inMin ==> r == hwMin)
              && (val >= inMax ==> r == hwMax)
              && var x := Clamp(val, inMin, inMax) - inMin;
                 (r - hwMin) * (inMax - inMin) <= x * (hwMax - hwMin) < (r - hwMin + 1) * (inMax - inMin)
  {
    if inMin >= inMax || hwMin >= hwMax then Max(hwMin, 0)
    else
      var x := Clamp(val, inMin, inMax) - inMin;
      var q := x * (hwMax - hwMin) / (inMax - inMin);
      LinearQuotient(x, hwMax - hwMin, inMax - inMin);
      hwMin + q
  }

  /** The table points: 1 at 0%, 57 at 70%, 66 at 71%, 254 at 90%, 279 at
      91% (truncating division), and at most 485 below 100%. */
  lemma PerceptualTablePoints()
    ensures Internal(Perceptual, 0) == 1 && Internal(Perceptual, 70) == 57
    ensures Internal(Perceptual, 71) == 66 && Internal(Perceptual, 90) == 254
    ensures Internal(Perceptual, 91) == 279 && Internal(Perceptual, 99) == 485
  {
  }

  /** The table points of `sb`: 1 at 0%, 150 at 70%, 254 at 90%. */
  lemma LegacyTablePoints()
    ensures Internal(LegacyPerceptual, 0) == 1 && Internal(LegacyPerceptual, 70) == 150
    ensures Internal(LegacyPerceptual, 90) == 254 && Internal(LegacyPerceptual, 99) == 485
  {
  }

  /** With the default ranges `[222, 8191] -> [1, 511]`: the ends map to the
      hardware ends, and 4099 (48%) gives internal 39 and hardware 39. */
  lemma CurvedDefaultRangeExamples()
    ensures ScaleCurved(222, 1, 511, 222, 8191) == 1
    ensures ScaleCurved(8191, 1, 511, 222, 8191) == 511
    ensures (4099 - 222) * 100 / (8191 - 222) == 48 && Internal(Perceptual, 48) == 39
    ensures ScaleCurved(4099, 1, 511, 222, 8191) == 39
  {
  }

  /** The internal value never decreases as the percentage grows. */
  lemma {:induction false} InternalMonotone(c: Curve, p: int, q: int)
    requires Continuous(c) && 0 <= p <= q <= 100
    ensures Internal(c, p) <= Internal(c, q)
  {
    if q <= 70 {
      ScaledFraction(c.lowSlope, p, q, 70);
    } else if p > 90 {
      ScaledFraction(257, p - 90, q - 90, 10);
    } else if 71 <= p && q <= 90 {
      ScaledFraction(c.midSlope, p - 70, q - 70, 20);
    } else {
      // p and q lie in different segments
      if p <= 70 {
        ScaledFraction(c.lowSlope, p, 70, 70);
      } else {
        ScaledFraction(c.midSlope, p - 70, 20, 20);
      }
      if q <= 90 {
        ScaledFraction(c.midSlope, 0, q - 70, 20);
      } else {
        ScaledFraction(257, 0, q - 90, 10);
      }
    }
  }

  /** Between the bounds, the rescaled internal value grows with the input. */
  lemma InteriorMonotone(c: Curve, v1: int, v2: int, lo: int, hi: int, d: int)
    requires Continuous(c) && lo < v1 <= v2 < hi && d > 0
    ensures Internal(c, (v1 - lo) * 100 / (hi - lo)) * d / 511
            <= Internal(c, (v2 - lo) * 100 / (hi - lo)) * d / 511
  {
    var p1 := (v1 - lo) * 100 / (hi - lo);
    var p2 := (v2 - lo) * 100 / (hi - lo);
    DivMonotone((v1 - lo) * 100, (v2 - lo) * 100, hi - lo);
    PercentRange(v1, lo, hi);
    PercentRange(v2, lo, hi);
    InternalMonotone(c, p1, p2);
    InternalRange(c, p1);
    var i1 := Internal(c, p1);
    var i2 := Internal(c, p2);
    MulMonotone(i1, i2, d);
    MulMonotone(0, i1, d);
    DivMonotone(i1 * d, i2 * d, 511);
  }

  /** The curved scalers never decrease as the input grows. */
  lemma ScaleByTableMonotone(c: Curve, v1: int, v2: int, hwMin: int, hwMax: int, inMin: int, inMax: int)
    requires Continuous(c) && v1 <= v2
    requires CurvedDefined(c, v1, hwMin, hwMax, inMin, inMax)
    requires CurvedDefined(c, v2, hwMin, hwMax, inMin, inMax)
    ensures ScaleByTable(c, v1, hwMin, hwMax, inMin, inMax) <= ScaleByTable(c, v2, hwMin, hwMax, inMin, inMax)
  {
    if hwMin < hwMax {
      var lo := Min(inMin, inMax - 1);
      var hi := Max(inMax, lo + 1);
      if lo < v1 && v2 < hi {
        InteriorMonotone(c, v1, v2, lo, hi, hwMax - hwMin);
        InteriorBelowMax(c, v1, lo, hi, hwMin, hwMax);
        InteriorBelowMax(c, v2, lo, hi, hwMin, hwMax);
      }
    }
  }

  /** `scale_brightness_linear` never decreases as the input grows. */
  lemma ScaleLinearMonotone(v1: int, v2: int, hwMin: int, hwMax: int, inMin: int, inMax: int)
    requires v1 <= v2
    requires LinearDefined(v1, hwMin, hwMax, inMin, inMax)
    requires LinearDefined(v2, hwMin, hwMax, inMin, inMax)
    ensures ScaleLinear(v1, hwMin, hwMax, inMin, inMax) <= ScaleLinear(v2, hwMin, hwMax, inMin, inMax)
  {
    if inMin < inMax && hwMin < hwMax {
      var x1 := Clamp(v1, inMin, inMax) - inMin;
      var x2 := Clamp(v2, inMin, inMax) - inMin;
      MulMonotone(x1, x2, hwMax - hwMin);
      MulMonotone(0, x1, hwMax - hwMin);
      DivMonotone(x1 * (hwMax - hwMin), x2 * (hwMax - hwMin), inMax - inMin);
    }
  }

  /** The `i64` product of `scale_brightness_linear` cannot overflow, and
      narrowing the result back to `i32` loses nothing. */
  lemma LinearProductFitsI64(val: int, hwMin: int, hwMax: int, inMin: int, inMax: int)
    requires LinearDefined(val, hwMin, hwMax, inMin, inMax)
    requires inMin < inMax && hwMin < hwMax
    ensures var x := Clamp(val, inMin, inMax) - inMin;
            0 <= x * (hwMax - hwMin) < 0x8000_0000_0000_0000
    ensures InI32(ScaleLinear(val, hwMin, hwMax, inMin, inMax))
  {
    var x := Clamp(val, inMin, inMax) - inMin;
    var h := hwMax - hwMin;
    MulMonotone(0, x, h);
    MulMonotone(x, I32Max, h);
    MulMonotone(h, I32Max, I32Max);
    assert I32Max * h == h * I32Max;
  }

  // ---- arithmetic helpers ----

  lemma MulMonotone(a: int, b: int, k: int)
    requires k >= 0
    ensures a <= b ==> a * k <= b * k
  {
  }

  lemma DivBounds(n: int, d: int)
    requires n >= 0 && d > 0
    ensures 0 <= n / d && (n / d) * d <= n < (n / d) * d + d
  {
    assert n == d * (n / d) + n % d;
  }

  lemma DivMonotone(a: int, b: int, d: int)
    requires 0 <= a <= b && d > 0
    ensures a / d <= b / d
  {
    DivBounds(a, d);
    DivBounds(b, d);
    MulMonotone(b / d + 1, a / d, d);
    assert (b / d + 1) * d == (b / d) * d + d;
  }

  lemma DivBelow(x: int, d: int, k: int)
    requires 0 <= x < k * d && d > 0
    ensures x / d < k
  {
    DivBounds(x, d);
    MulMonotone(k, x / d, d);
  }

  lemma MulDivCancel(h: int, w: int)
    requires h >= 0 && w > 0
    ensures (h * w) / w == h
  {
    var q := (h * w) / w;
    DivBounds(h * w, w);
    MulMonotone(h + 1, q, w);
    MulMonotone(q + 1, h, w);
    assert (h + 1) * w == h * w + w;
    assert (q + 1) * w == q * w + w;
  }

  /** The linear quotient is the floor of `x*h/w` and stays within `[0, h]`. */
  lemma LinearQuotient(x: int, h: int, w: int)
    requires 0 <= x <= w && h > 0 && w > 0
    ensures 0 <= x * h / w <= h
    ensures (x * h / w) * w <= x * h < (x * h / w + 1) * w
    ensures x == 0 ==> x * h / w == 0
    ensures x == w ==> x * h / w == h
  {
    var P := x * h;
    DivBounds(P, w);
    MulMonotone(x, w, h);
    DivMonotone(P, w * h, w);
    MulDivCancel(h, w);
    assert w * h == h * w;
  }

  /** Strictly between the bounds, the percentage is 0..99. */
  lemma PercentRange(val: int, lo: int, hi: int)
    requires lo < val < hi
    ensures 0 <= (val - lo) * 100 / (hi - lo) <= 99
  {
    var n := val - lo;
    var d := hi - lo;
    MulMonotone(n, d - 1, 100);
    DivBelow(n * 100, d, 100);
  }

  /** `k*x/d` grows with `x` and lies in `[0, k]` while `0 <= x <= d`. */
  lemma ScaledFraction(k: int, x: int, y: int, d: int)
    requires k >= 0 && 0 <= x <= y <= d && d > 0
    ensures 0 <= k * x / d <= k * y / d <= k
  {
    MulMonotone(x, y, k);
    MulMonotone(y, d, k);
    MulMonotone(0, x, k);
    assert k * x == x * k && k * y == y * k && k * d == d * k;
    DivMonotone(k * x, k * y, d);
    DivMonotone(k * y, k * d, d);
    MulDivCancel(k, d);
  }

  /** Below 100 percent the internal value is 1..485, so the last arm never
      reaches 511. */
  lemma InternalRange(c: Curve, p: int)
    requires Continuous(c) && 0 <= p <= 99
    ensures 1 <= Internal(c, p) <= 485
  {
    if p <= 70 {
      ScaledFraction(c.lowSlope, p, p, 70);
    } else if p <= 90 {
      ScaledFraction(c.midSlope, p - 70, p - 70, 20);
    } else {
      ScaledFraction(257, p - 90, 9, 10);
    }
  }

  lemma InteriorBelowMax(c: Curve, val: int, lo: int, hi: int, hwMin: int, hwMax: int)
    requires Continuous(c) && lo < val < hi && hwMin < hwMax
    ensures var p := (val - lo) * 100 / (hi - lo);
            0 <= Internal(c, p) * (hwMax - hwMin) / 511 < hwMax - hwMin
  {
    var p := (val - lo) * 100 / (hi - lo);
    PercentRange(val, lo, hi);
    InternalRange(c, p);
    var i := Internal(c, p);
    var d := hwMax - hwMin;
    MulMonotone(0, i, d);
    MulMonotone(i, 510, d);
    assert 0 <= i * d < 511 * d;
    assert 511 * d == d * 511;
    DivBelow(i * d, 511, d);
  }
}

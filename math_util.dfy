/**
 * The comparison helpers of the game's MathUtil and its smoothing of three
 * values, over reals (no NaN, no rounding).
 */
module MathUtil {
  /** clamp: raise to min, then lower to max; the max test comes last. */
  function Clamp(val: real, min: real, max: real): (r: real)
    ensures min <= max ==> min <= r <= max
    ensures min <= val <= max ==> r == val
    ensures min > max ==> r == max
  {
    var v := if val < min then min else val;
    if v > max then max else v
  }

  /** Clamping is idempotent when the range is well formed. */
  lemma ClampIdempotent(val: real, min: real, max: real)
    requires min <= max
    ensures Clamp(Clamp(val, min, max), min, max) == Clamp(val, min, max)
  {
  }

  function Max3(a: real, b: real, c: real): (r: real)
    ensures r == a || r == b || r == c
    ensures r >= a && r >= b && r >= c
  {
    if a >= b && a >= c then a
    else if b >= a && b >= c then b
    else c
  }

  function Min3(a: real, b: real, c: real): (r: real)
    ensures r == a || r == b || r == c
    ensures r <= a && r <= b && r <= c
  {
    if a <= b && a <= c then a
    else if b <= a && b <= c then b
    else c
  }

  function Max6(a: real, b: real, c: real, d: real, e: real, f: real): (r: real)
    ensures r == a || r == b || r == c || r == d || r == e || r == f
    ensures r >= a && r >= b && r >= c && r >= d && r >= e && r >= f
  {
    if a >= b && a >= c && a >= d && a >= e && a >= f then a
    else if b >= a && b >= c && b >= d && b >= e && b >= f then b
    else if c >= a && c >= b && c >= d && c >= e && c >= f then c
    else if d >= a && d >= b && d >= c && d >= e && d >= f then d
    else if e >= a && e >= b && e >= c && e >= d && e >= f then e
    else f
  }

  /** The maximum of six is the maximum of the two halves' maxima, and the minimum of three is the negated maximum of the negations. */
  // Max3 with its last argument repeated serves as the maximum of two.
  lemma MaxMinAgree(a: real, b: real, c: real, d: real, e: real, f: real)
    ensures Max6(a, b, c, d, e, f) == Max3(Max3(a, b, c), Max3(d, e, f), Max3(d, e, f))
    ensures Min3(a, b, c) == -Max3(-a, -b, -c)
  {
  }

  /** lerp: the point `factor` of the way from src to dest. */
  function Lerp(src: real, dest: real, factor: real): (r: real)
    ensures factor == 0.0 ==> r == src
    ensures factor == 1.0 ==> r == dest
    ensures 0.0 <= factor <= 1.0 && src <= dest ==> src <= r <= dest
    ensures 0.0 <= factor <= 1.0 && dest <= src ==> dest <= r <= src
  {
    var step := (dest - src) * factor;
    ScaleWithin(dest - src, factor, step);
    src + step
  }

  /** A fraction in [0, 1] of d lies between 0 and d. */
  lemma ScaleWithin(d: real, f: real, p: real)
    requires p == d * f
    ensures f == 0.0 ==> p == 0.0
    ensures f == 1.0 ==> p == d
    ensures 0.0 <= f <= 1.0 && d >= 0.0 ==> 0.0 <= p <= d
    ensures 0.0 <= f <= 1.0 && d <= 0.0 ==> d <= p <= 0.0
  {
    if 0.0 <= f <= 1.0 {
      var g := 1.0 - f;
      assert p + d * g == d;
      if d >= 0.0 {
        MulNonNegative(d, f);
        MulNonNegative(d, g);
      } else {
        MulNonNegative(-d, f);
        MulNonNegative(-d, g);
      }
    }
  }

  lemma MulNonNegative(a: real, b: real)
    requires a >= 0.0 && b >= 0.0
    ensures a * b >= 0.0
  {
  }

  /**
   * smooth3: a non-positive factor leaves the three values as they are;
   * otherwise the factor is capped at 1 and each value moves that fraction of
   * the way to their average.
   */
  method Smooth3(x0: real, y0: real, z0: real, factor0: real) returns (x: real, y: real, z: real)
    ensures factor0 <= 0.0 ==> x == x0 && y == y0 && z == z0
    ensures factor0 > 0.0 ==>
      var f := if factor0 > 1.0 then 1.0 else factor0;
      var avg := (x0 + y0 + z0) / 3.0;
      x == Lerp(x0, avg, f) && y == Lerp(y0, avg, f) && z == Lerp(z0, avg, f)
    ensures x + y + z == x0 + y0 + z0
    ensures factor0 >= 1.0 ==> x == y == z
  {
    x, y, z := x0, y0, z0;
    var factor := factor0;
    if factor <= 0.0 {
      return;
    }
    if factor > 1.0 {
      factor := 1.0;
    }
    var avg := (x + y + z) / 3.0;
    x := Lerp(x, avg, factor);
    y := Lerp(y, avg, factor);
    z := Lerp(z, avg, factor);
  }
}

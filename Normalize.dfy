/**
 * The piecewise-linear maps from a raw lever byte and its calibration points
 * to a ratio.  Bytes are promoted to `int` before the subtractions, so no
 * difference wraps around; the quotient is taken exactly (floats become reals).
 *
 * Every shape returns 0 when its calibration points would divide by zero.
 */
module Normalize {
  import opened Bits

  /** `(float)num / (float)den`, with a positive denominator placing the quotient against 0 and 1. */
  function Ratio(num: int, den: int): (r: real)
    requires den != 0
    ensures num == 0 ==> r == 0.0
    ensures num == den ==> r == 1.0
    ensures den > 0 ==> (r < 0.0 <==> num < 0)
    ensures den > 0 ==> (r < 1.0 <==> num < den)
    ensures den > 0 ==> (r > 1.0 <==> num > den)
  {
    if den > 0 then
      QuotientSign(num as real, den as real);
      QuotientSign((num - den) as real, den as real);
      num as real / den as real
    else
      num as real / den as real
  }

  /** With a positive divisor, a real quotient has the sign of its dividend. */
  lemma QuotientSign(x: real, d: real)
    requires d > 0.0
    ensures x / d < 0.0 <==> x < 0.0
    ensures x / d - 1.0 == (x - d) / d
  {
    var q := x / d;
    assert q * d == x;
    if q < 0.0 {
      assert q * d < 0.0;
    } else {
      assert q * d >= 0.0;
    }
    var p := (x - d) / d;
    assert p * d == x - d;
    assert (q - 1.0) * d == x - d;
    var e := p - (q - 1.0);
    assert e * d == 0.0;
    var r := 1.0 / d;
    assert r * d == 1.0;
    assert e == (e * d) * r;
  }

  /**
   * The reverser and throttle shape: below the centre the lever runs over
   * [-1, 0) from `min`, from the centre up it runs over [0, 1] to `max`, and
   * it is not clamped: past `min` it falls below -1, past `max` it rises above 1.
   */
  function Bipolar(raw: byte, min: byte, center: byte, max: byte): (r: real)
    ensures min == center || center == max ==> r == 0.0
    ensures raw == center ==> r == 0.0
    ensures min < center < max && min <= raw < center ==> -1.0 <= r < 0.0
    ensures min < center < max && center <= raw <= max ==> 0.0 <= r <= 1.0
    ensures min < center < max && raw < min ==> r < -1.0
    ensures min < center < max && raw > max ==> r > 1.0
  {
    if min == center || center == max then 0.0
    else if raw < center then
      Ratio(raw as int - min as int, center as int - min as int) - 1.0
    else
      Ratio(raw as int - center as int, max as int - center as int)
  }

  /**
   * The independent brake, bail-off and wiper shape, also used by the
   * automatic brake with its emergency point as `min`: 0 at `min`, 1 at
   * `max`, and not clamped outside them.
   */
  function Unipolar(raw: byte, min: byte, max: byte): (r: real)
    ensures min == max ==> r == 0.0
    ensures min != max && raw == min ==> r == 0.0
    ensures min != max && raw == max ==> r == 1.0
    ensures min < max && raw < min ==> r < 0.0
    ensures min < max && min <= raw <= max ==> 0.0 <= r <= 1.0
    ensures min < max && raw > max ==> r > 1.0
  {
    if min == max then 0.0
    else Ratio(raw as int - min as int, max as int - min as int)
  }

  /**
   * The emergency position of the automatic brake: strictly below its
   * threshold, so never at the threshold itself and never with a threshold
   * of 0, while a lever at 0 is in it whenever the threshold is above 0.
   */
  function Emergency(raw: byte, emg: byte): (e: bool)
    ensures raw == emg ==> !e
    ensures emg == 0 ==> !e
    ensures raw == 0 && emg > 0 ==> e
  {
    raw < emg
  }

  /**
   * The lights shape: the lower half of the lever fills [0, 0.5), the upper
   * half [0.5, 1]; unclamped, it is negative past `min` and above 1 past `max`.
   */
  function Split(raw: byte, min: byte, center: byte, max: byte): (r: real)
    ensures min == center || center == max ==> r == 0.0
    ensures min != center && center != max && raw == center ==> r == 0.5
    ensures min < center < max && min <= raw < center ==> 0.0 <= r < 0.5
    ensures min < center < max && center <= raw <= max ==> 0.5 <= r <= 1.0
    ensures min < center < max && raw < min ==> r < 0.0
    ensures min < center < max && raw > max ==> r > 1.0
  {
    if min == center || center == max then 0.0
    else if raw < center then
      Ratio(raw as int - min as int, center as int - min as int) * 0.5
    else
      Ratio(raw as int - center as int, max as int - center as int) * 0.5 + 0.5
  }

  lemma RatioMonotone(a: int, b: int, den: int)
    requires den > 0 && a <= b
    ensures Ratio(a, den) <= Ratio(b, den)
  {
    assert Ratio(b, den) - Ratio(a, den) == (b - a) as real / den as real;
  }

  /** A calibrated bipolar lever is negative exactly on the side below its centre, inside its range or past it. */
  lemma BipolarSign(raw: byte, min: byte, center: byte, max: byte)
    requires min < center < max
    ensures Bipolar(raw, min, center, max) < 0.0 <==> raw < center
  {
  }

  /** The calibrated end points map to -1 and 1. */
  lemma BipolarEnds(min: byte, center: byte, max: byte)
    requires min < center < max
    ensures Bipolar(min, min, center, max) == -1.0
    ensures Bipolar(max, min, center, max) == 1.0
  {
  }

  /** Moving a calibrated bipolar lever up never lowers its ratio, inside its range or past it. */
  lemma BipolarMonotone(a: byte, b: byte, min: byte, center: byte, max: byte)
    requires min < center < max && a <= b
    ensures Bipolar(a, min, center, max) <= Bipolar(b, min, center, max)
  {
    if b < center {
      RatioMonotone(a as int - min as int, b as int - min as int, center as int - min as int);
    } else if a >= center {
      RatioMonotone(a as int - center as int, b as int - center as int, max as int - center as int);
    }
  }

  /** Moving a calibrated unipolar lever up never lowers its ratio, inside or outside its range. */
  lemma UnipolarMonotone(a: byte, b: byte, min: byte, max: byte)
    requires min < max && a <= b
    ensures Unipolar(a, min, max) <= Unipolar(b, min, max)
  {
    RatioMonotone(a as int - min as int, b as int - min as int, max as int - min as int);
  }

  /**
   * With a calibrated automatic brake, the emergency predicate holds exactly
   * when the brake ratio is negative; at the threshold itself it does not hold.
   */
  lemma EmergencyIsNegativeBrake(raw: byte, emg: byte, max: byte)
    requires emg < max
    ensures Emergency(raw, emg) <==> Unipolar(raw, emg, max) < 0.0
    ensures !Emergency(emg, emg)
  {
  }

  /** The lights ratio is the bipolar ratio moved from [-1, 1] onto [0, 1]. */
  lemma SplitIsHalvedBipolar(raw: byte, min: byte, center: byte, max: byte)
    requires min != center && center != max
    ensures Split(raw, min, center, max) == (Bipolar(raw, min, center, max) + 1.0) * 0.5
  {
  }
}

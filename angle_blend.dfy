/** Linear blending, in viewing angle, of the predictions of the two trained
    angles that bound a bin. Magnitudes and magnitude errors are blended with
    the same weights. */
module AngleBlend {

  /** Weight of the lower prediction for a theta between lo and hi. */
  function LowerWeight(lo: real, hi: real, theta: real): real
    requires lo < hi
  {
    (hi - theta) / (hi - lo)
  }

  /** `((hi - theta) * lower + (theta - lo) * upper) / (hi - lo)`. */
  function Blend(lo: real, hi: real, theta: real, lower: real, upper: real): (v: real)
    requires lo < hi
    ensures theta == lo ==> v == lower
    ensures theta == hi ==> v == upper
    ensures lo <= theta <= hi && lower <= upper ==> lower <= v <= upper
    ensures lo <= theta <= hi && upper <= lower ==> upper <= v <= lower
  {
    BlendBounds(lo, hi, theta, lower, upper);
    ((hi - theta) * lower + (theta - lo) * upper) / (hi - lo)
  }

  /** The blend is the convex combination with weight LowerWeight on the
      lower prediction and the rest on the upper one. */
  lemma BlendIsConvexCombination(lo: real, hi: real, theta: real, lower: real, upper: real)
    requires lo < hi
    ensures Blend(lo, hi, theta, lower, upper)
         == LowerWeight(lo, hi, theta) * lower + (1.0 - LowerWeight(lo, hi, theta)) * upper
  {
    var d := hi - lo;
    calc {
      Blend(lo, hi, theta, lower, upper);
      ((hi - theta) * lower + (theta - lo) * upper) / d;
      (hi - theta) / d * lower + (theta - lo) / d * upper;
      { WeightsSumToOne(hi - theta, theta - lo, d); }
      LowerWeight(lo, hi, theta) * lower + (1.0 - LowerWeight(lo, hi, theta)) * upper;
    }
  }

  lemma WeightsSumToOne(a: real, b: real, d: real)
    requires d > 0.0 && a + b == d
    ensures b / d == 1.0 - a / d
  {
    assert b == d - a;
    assert (d - a) / d == d / d - a / d;
    assert d / d == 1.0;
  }

  lemma BlendBounds(lo: real, hi: real, theta: real, lower: real, upper: real)
    requires lo < hi
    ensures var v := ((hi - theta) * lower + (theta - lo) * upper) / (hi - lo);
      (theta == lo ==> v == lower) && (theta == hi ==> v == upper) &&
      (lo <= theta <= hi && lower <= upper ==> lower <= v <= upper) &&
      (lo <= theta <= hi && upper <= lower ==> upper <= v <= lower)
  {
    var d := hi - lo;
    var v := ((hi - theta) * lower + (theta - lo) * upper) / d;
    assert v * d == (hi - theta) * lower + (theta - lo) * upper;
    assert v * d - lower * d == (theta - lo) * (upper - lower);
    assert upper * d - v * d == (hi - theta) * (upper - lower);
    if lo <= theta <= hi {
      if lower <= upper {
        assert (theta - lo) * (upper - lower) >= 0.0;
        assert (hi - theta) * (upper - lower) >= 0.0;
        assert (v - lower) * d >= 0.0;
        assert (upper - v) * d >= 0.0;
      } else {
        assert (theta - lo) * (lower - upper) >= 0.0;
        assert (hi - theta) * (lower - upper) >= 0.0;
        assert (lower - v) * d >= 0.0;
        assert (v - upper) * d >= 0.0;
      }
    }
  }

  /** Blend applied to a batch: entry i blends lower[i] and upper[i] by
      thetas[i]. */
  function BlendAll(lo: real, hi: real, thetas: seq<real>, lower: seq<real>, upper: seq<real>): (vs: seq<real>)
    requires lo < hi
    requires |lower| == |thetas| && |upper| == |thetas|
    ensures |vs| == |thetas|
    ensures forall i :: 0 <= i < |thetas| ==> vs[i] == Blend(lo, hi, thetas[i], lower[i], upper[i])
  {
    if thetas == [] then []
    else
      var n := |thetas| - 1;
      BlendAll(lo, hi, thetas[..n], lower[..n], upper[..n]) + [Blend(lo, hi, thetas[n], lower[n], upper[n])]
  }
}

/** The solar curve: colour temperature and brightness as piecewise-linear
    functions of the sun's elevation in degrees. The elevation itself
    (trigonometry on the clock) is an input here. */
module Solar {

  /** Colour temperatures in Kelvin at the points of the day. */
  datatype ColorTempConfig = ColorTempConfig(sunrise: real, midday: real, sunset: real, night: real)

  const DefaultConfig: ColorTempConfig := ColorTempConfig(2700.0, 5500.0, 2700.0, 2200.0)

  /** Night below -12 degrees, a ramp to `sunrise` up to 0 degrees, a ramp to
      `midday` up to 30 degrees, then `midday`. */
  function CalculateColorTemp(elevation: real, config: ColorTempConfig): real {
    if elevation < -12.0 then config.night
    else if elevation < 0.0 then
      var progress := (elevation + 12.0) / 12.0;
      config.night + (config.sunrise - config.night) * progress
    else if elevation < 30.0 then
      var progress := elevation / 30.0;
      config.sunrise + (config.midday - config.sunrise) * progress
    else if elevation < 60.0 then config.midday
    else config.midday
  }

  /** Brightness percentage: 30 below -6 degrees, ramps to 70 at 0 degrees and
      to 100 at 30 degrees, then 100. */
  function CalculateBrightness(elevation: real): real {
    if elevation < -6.0 then 30.0
    else if elevation < 0.0 then
      var progress := (elevation + 6.0) / 6.0;
      30.0 + 40.0 * progress
    else if elevation < 30.0 then
      var progress := elevation / 30.0;
      70.0 + 30.0 * progress
    else 100.0
  }

  // ---------------------------------------------------------------------
  // Arithmetic helpers
  // ---------------------------------------------------------------------

  function Abs(x: real): (r: real)
    ensures r >= 0.0
  {
    if x < 0.0 then -x else x
  }

  /** How far `e` has come through the window [lo, lo + width], clamped to [0, 1]. */
  function Progress(e: real, lo: real, width: real): (p: real)
    requires width > 0.0
    ensures 0.0 <= p <= 1.0
  {
    if e < lo then 0.0 else if e >= lo + width then 1.0 else (e - lo) / width
  }

  lemma ProgressMonotone(x: real, y: real, lo: real, width: real)
    requires width > 0.0 && x <= y
    ensures Progress(x, lo, width) <= Progress(y, lo, width)
  {
    ProgressLipschitz(x, y, lo, width);
  }

  lemma DivSub(a: real, b: real, w: real)
    requires w > 0.0
    ensures a / w - b / w == (a - b) / w
  {
  }

  lemma DivMonotone(u: real, v: real, w: real)
    requires w > 0.0 && u <= v
    ensures u / w <= v / w
  {
    DivSub(v, u, w);
  }

  function Confine(e: real, lo: real, hi: real): real {
    if e < lo then lo else if e >= hi then hi else e
  }

  lemma ProgressOfConfined(e: real, lo: real, width: real)
    requires width > 0.0
    ensures Progress(e, lo, width) == (Confine(e, lo, lo + width) - lo) / width
  {
    if e >= lo + width {
      assert lo + width - lo == width;
    }
  }

  /** The clamped ramp rises by 0 to (y - x) / width between x and y. */
  lemma ProgressLipschitz(x: real, y: real, lo: real, width: real)
    requires width > 0.0 && x <= y
    ensures 0.0 <= Progress(y, lo, width) - Progress(x, lo, width) <= (y - x) / width
  {
    var cx, cy := Confine(x, lo, lo + width), Confine(y, lo, lo + width);
    ProgressOfConfined(x, lo, width);
    ProgressOfConfined(y, lo, width);
    DivSub(cy - lo, cx - lo, width);
    assert (cy - lo) - (cx - lo) == cy - cx;
    DivMonotone(cy - cx, y - x, width);
    DivMonotone(0.0, cy - cx, width);
  }

  lemma MulMonotone(a: real, u: real, v: real)
    requires a >= 0.0 && u <= v
    ensures a * u <= a * v
  {
    assert a * v - a * u == a * (v - u);
  }

  lemma MulAbsBound(a: real, u: real, v: real)
    requires 0.0 <= u <= v
    ensures Abs(a * u) <= Abs(a) * v
  {
    if a >= 0.0 {
      MulMonotone(a, u, v);
    } else {
      MulMonotone(-a, u, v);
      assert Abs(a * u) == (-a) * u;
    }
  }

  /** A base value plus two weighted ramps. */
  function Blend(n: real, a: real, b: real, p: real, q: real): real {
    n + a * p + b * q
  }

  lemma CombineMonotone(n: real, a: real, b: real, px: real, py: real, qx: real, qy: real)
    requires a >= 0.0 && b >= 0.0 && px <= py && qx <= qy
    ensures n + a * px + b * qx <= n + a * py + b * qy
  {
    MulMonotone(a, px, py);
    MulMonotone(b, qx, qy);
  }

  lemma MulUnit(a: real, p: real)
    requires a >= 0.0 && 0.0 <= p <= 1.0
    ensures 0.0 <= a * p <= a
  {
    MulMonotone(a, 0.0, p);
    MulMonotone(a, p, 1.0);
  }

  lemma SumBound(n: real, x: real, a: real, y: real, b: real)
    requires 0.0 <= x <= a && 0.0 <= y <= b
    ensures n <= n + x + y <= n + a + b
  {
  }

  lemma CombineRange(n: real, a: real, b: real, p: real, q: real)
    requires a >= 0.0 && b >= 0.0 && 0.0 <= p <= 1.0 && 0.0 <= q <= 1.0
    ensures n <= n + a * p + b * q <= n + a + b
  {
    MulUnit(a, p);
    MulUnit(b, q);
    SumBound(n, a * p, a, b * q, b);
  }

  /** `fy` is within `k * w` of `fx`. */
  predicate WithinSlope(fy: real, fx: real, k: real, w: real) {
    Abs(fy - fx) <= k * w
  }

  /** Two weighted ramps that advance by at most `w / k1` and `w / k2`
      move a blend by at most `(|a| / k1 + |b| / k2) * w`. */
  lemma BlendLipschitz(n: real, a: real, b: real, px: real, py: real, qx: real, qy: real,
                       w: real, k1: real, k2: real)
    requires k1 > 0.0 && k2 > 0.0
    requires 0.0 <= py - px <= w / k1 && 0.0 <= qy - qx <= w / k2
    ensures WithinSlope(Blend(n, a, b, py, qy), Blend(n, a, b, px, qx), SlopeOf(a, b, k1, k2), w)
  {
    var d := a * (py - px) + b * (qy - qx);
    ScaledSum(a, b, py - px, qy - qx, w / k1, w / k2);
    assert Blend(n, a, b, py, qy) - Blend(n, a, b, px, qx) == d;
    AbsOfEqual(Blend(n, a, b, py, qy) - Blend(n, a, b, px, qx), d);
    SlopeTimes(a, b, k1, k2, w);
  }

  lemma AbsOfEqual(u: real, v: real)
    requires u == v
    ensures Abs(u) == Abs(v)
  {
  }

  lemma SlopeTimes(a: real, b: real, k1: real, k2: real, w: real)
    requires k1 > 0.0 && k2 > 0.0
    ensures Abs(a) * (w / k1) + Abs(b) * (w / k2) == SlopeOf(a, b, k1, k2) * w
  {
  }

  lemma ScaledSum(a: real, b: real, d1: real, d2: real, u1: real, u2: real)
    requires 0.0 <= d1 <= u1 && 0.0 <= d2 <= u2
    ensures Abs(a * d1 + b * d2) <= Abs(a) * u1 + Abs(b) * u2
  {
    MulAbsBound(a, d1, u1);
    MulAbsBound(b, d2, u2);
  }

  function SlopeOf(a: real, b: real, k1: real, k2: real): (r: real)
    requires k1 > 0.0 && k2 > 0.0
    ensures r >= 0.0
  {
    Abs(a) / k1 + Abs(b) / k2
  }

  /** Swapping the two values, or renaming the distance, keeps the bound. */
  lemma WithinSlopeSwap(fy: real, fx: real, k: real, w: real, w': real)
    requires WithinSlope(fy, fx, k, w) && w' == w
    ensures WithinSlope(fx, fy, k, w') && WithinSlope(fy, fx, k, w')
  {
    assert fx - fy == -(fy - fx);
  }

  /** With slope `k`, a distance below `eps / (k + 1)` moves the value by less than `eps`. */
  lemma SlopeStep(fy: real, fx: real, k: real, dist: real, eps: real)
    requires k >= 0.0 && eps > 0.0 && 0.0 <= dist < eps / (k + 1.0)
    requires WithinSlope(fy, fx, k, dist)
    ensures Abs(fy - fx) < eps
  {
    var delta := eps / (k + 1.0);
    assert (k + 1.0) * delta == eps;
    MulMonotone(k, dist, delta);
  }

  // ---------------------------------------------------------------------
  // Colour temperature
  // ---------------------------------------------------------------------

  /** The colour-temperature curve is the night value plus two clamped
      ramps: night to sunrise over [-12, 0], sunrise to midday over [0, 30]. */
  lemma ColorTempAsRamps(c: ColorTempConfig, e: real)
    ensures CalculateColorTemp(e, c) == ColorTempRamps(c, e)
  {
  }

  function ColorTempRamps(c: ColorTempConfig, e: real): real {
    Blend(c.night, c.sunrise - c.night, c.midday - c.sunrise, Progress(e, -12.0, 12.0), Progress(e, 0.0, 30.0))
  }

  /** Values at the breakpoints of the curve. */
  lemma ColorTempBreakpoints(c: ColorTempConfig)
    ensures CalculateColorTemp(-12.0, c) == c.night
    ensures CalculateColorTemp(0.0, c) == c.sunrise
    ensures CalculateColorTemp(30.0, c) == c.midday
    ensures CalculateColorTemp(60.0, c) == c.midday
  {
  }

  /** Flat ends: `night` below -12 degrees, `midday` from 30 degrees on
      (the `< 60` branch and the final branch agree). */
  lemma ColorTempPlateaus(c: ColorTempConfig, e: real, e': real)
    ensures e < -12.0 ==> CalculateColorTemp(e, c) == c.night
    ensures e >= 30.0 && e' >= 30.0 ==> CalculateColorTemp(e, c) == CalculateColorTemp(e', c) == c.midday
  {
  }

  function ColorTempSlope(c: ColorTempConfig): real {
    SlopeOf(c.sunrise - c.night, c.midday - c.sunrise, 12.0, 30.0)
  }

  /** The colour temperature never changes faster than `ColorTempSlope(c)`
      Kelvin per degree. */
  lemma ColorTempLipschitz(c: ColorTempConfig, x: real, y: real)
    ensures WithinSlope(CalculateColorTemp(y, c), CalculateColorTemp(x, c), ColorTempSlope(c), Abs(y - x))
  {
    if x <= y {
      ColorTempLipschitzOrdered(c, x, y);
      WithinSlopeSwap(CalculateColorTemp(y, c), CalculateColorTemp(x, c), ColorTempSlope(c), y - x, Abs(y - x));
    } else {
      ColorTempLipschitzOrdered(c, y, x);
      WithinSlopeSwap(CalculateColorTemp(x, c), CalculateColorTemp(y, c), ColorTempSlope(c), x - y, Abs(y - x));
    }
  }

  lemma ColorTempLipschitzOrdered(c: ColorTempConfig, x: real, y: real)
    requires x <= y
    ensures WithinSlope(CalculateColorTemp(y, c), CalculateColorTemp(x, c), ColorTempSlope(c), y - x)
  {
    ColorTempAsRamps(c, x);
    ColorTempAsRamps(c, y);
    ProgressLipschitz(x, y, -12.0, 12.0);
    ProgressLipschitz(x, y, 0.0, 30.0);
    BlendLipschitz(c.night, c.sunrise - c.night, c.midday - c.sunrise,
      Progress(x, -12.0, 12.0), Progress(y, -12.0, 12.0), Progress(x, 0.0, 30.0), Progress(y, 0.0, 30.0),
      y - x, 12.0, 30.0);
  }

  /** Within `delta` degrees of `b` the colour temperature stays within `eps` of its value at `b`. */
  ghost predicate ColorTempWithin(c: ColorTempConfig, b: real, delta: real, eps: real) {
    forall e :: Abs(e - b) < delta ==> Abs(CalculateColorTemp(e, c) - CalculateColorTemp(b, c)) < eps
  }

  /** The colour temperature is continuous at every elevation, and so in
      particular at the breakpoints -12, 0, 30 and 60. */
  lemma ColorTempContinuous(c: ColorTempConfig, b: real, eps: real)
    requires eps > 0.0
    ensures exists delta :: delta > 0.0 && ColorTempWithin(c, b, delta, eps)
  {
    var k := ColorTempSlope(c);
    var delta := eps / (k + 1.0);
    forall e | Abs(e - b) < delta
      ensures Abs(CalculateColorTemp(e, c) - CalculateColorTemp(b, c)) < eps
    {
      ColorTempLipschitz(c, b, e);
      SlopeStep(CalculateColorTemp(e, c), CalculateColorTemp(b, c), k, Abs(e - b), eps);
    }
    assert delta > 0.0 && ColorTempWithin(c, b, delta, eps);
  }

  /** With night <= sunrise <= midday the curve never falls as the sun rises. */
  lemma ColorTempMonotone(c: ColorTempConfig, x: real, y: real)
    requires c.night <= c.sunrise <= c.midday
    requires x <= y
    ensures CalculateColorTemp(x, c) <= CalculateColorTemp(y, c)
  {
    ColorTempAsRamps(c, x);
    ColorTempAsRamps(c, y);
    ProgressMonotone(x, y, -12.0, 12.0);
    ProgressMonotone(x, y, 0.0, 30.0);
    CombineMonotone(c.night, c.sunrise - c.night, c.midday - c.sunrise,
      Progress(x, -12.0, 12.0), Progress(y, -12.0, 12.0), Progress(x, 0.0, 30.0), Progress(y, 0.0, 30.0));
  }

  /** With night <= sunrise <= midday the curve stays within [night, midday]. */
  lemma ColorTempRange(c: ColorTempConfig, e: real)
    requires c.night <= c.sunrise <= c.midday
    ensures c.night <= CalculateColorTemp(e, c) <= c.midday
  {
    ColorTempAsRamps(c, e);
    CombineRange(c.night, c.sunrise - c.night, c.midday - c.sunrise,
      Progress(e, -12.0, 12.0), Progress(e, 0.0, 30.0));
  }

  /** With the default configuration the curve lies in [2200, 5500] Kelvin. */
  lemma DefaultColorTempRange(e: real)
    ensures 2200.0 <= CalculateColorTemp(e, DefaultConfig) <= 5500.0
  {
    ColorTempRange(DefaultConfig, e);
  }

  /** The `sunset` field of the configuration is never read. */
  lemma ColorTempIgnoresSunset(c: ColorTempConfig, e: real, sunset: real)
    ensures CalculateColorTemp(e, c.(sunset := sunset)) == CalculateColorTemp(e, c)
  {
  }

  // ---------------------------------------------------------------------
  // Brightness
  // ---------------------------------------------------------------------

  /** Brightness is 30 plus two clamped ramps: +40 over [-6, 0] and +30 over [0, 30]. */
  lemma BrightnessAsRamps(e: real)
    ensures CalculateBrightness(e) == 30.0 + 40.0 * Progress(e, -6.0, 6.0) + 30.0 * Progress(e, 0.0, 30.0)
  {
  }

  /** 30 below -6 degrees, 100 from 30 degrees on, and the values at the breakpoints. */
  lemma BrightnessPlateaus(e: real)
    ensures e < -6.0 ==> CalculateBrightness(e) == 30.0
    ensures e >= 30.0 ==> CalculateBrightness(e) == 100.0
    ensures CalculateBrightness(-6.0) == 30.0 && CalculateBrightness(0.0) == 70.0
    ensures CalculateBrightness(30.0) == 100.0
  {
  }

  const BrightnessSlope: real := 40.0 / 6.0 + 1.0

  /** Brightness never changes faster than `BrightnessSlope` percent per degree. */
  lemma BrightnessLipschitz(x: real, y: real)
    ensures WithinSlope(CalculateBrightness(y), CalculateBrightness(x), BrightnessSlope, Abs(y - x))
  {
    if x <= y {
      BrightnessLipschitzOrdered(x, y);
      WithinSlopeSwap(CalculateBrightness(y), CalculateBrightness(x), BrightnessSlope, y - x, Abs(y - x));
    } else {
      BrightnessLipschitzOrdered(y, x);
      WithinSlopeSwap(CalculateBrightness(x), CalculateBrightness(y), BrightnessSlope, x - y, Abs(y - x));
    }
  }

  lemma BrightnessLipschitzOrdered(x: real, y: real)
    requires x <= y
    ensures WithinSlope(CalculateBrightness(y), CalculateBrightness(x), BrightnessSlope, y - x)
  {
    BrightnessAsRamps(x);
    BrightnessAsRamps(y);
    ProgressLipschitz(x, y, -6.0, 6.0);
    ProgressLipschitz(x, y, 0.0, 30.0);
  }

  /** Within `delta` degrees of `b` the brightness stays within `eps` of its value at `b`. */
  ghost predicate BrightnessWithin(b: real, delta: real, eps: real) {
    forall e :: Abs(e - b) < delta ==> Abs(CalculateBrightness(e) - CalculateBrightness(b)) < eps
  }

  /** Brightness is continuous at every elevation, so at -6, 0 and 30. */
  lemma BrightnessContinuous(b: real, eps: real)
    requires eps > 0.0
    ensures exists delta :: delta > 0.0 && BrightnessWithin(b, delta, eps)
  {
    var delta := eps / (BrightnessSlope + 1.0);
    forall e | Abs(e - b) < delta
      ensures Abs(CalculateBrightness(e) - CalculateBrightness(b)) < eps
    {
      BrightnessLipschitz(b, e);
      SlopeStep(CalculateBrightness(e), CalculateBrightness(b), BrightnessSlope, Abs(e - b), eps);
    }
    assert delta > 0.0 && BrightnessWithin(b, delta, eps);
  }

  /** Brightness never falls as the sun rises. */
  lemma BrightnessMonotone(x: real, y: real)
    requires x <= y
    ensures CalculateBrightness(x) <= CalculateBrightness(y)
  {
    BrightnessAsRamps(x);
    BrightnessAsRamps(y);
    ProgressMonotone(x, y, -6.0, 6.0);
    ProgressMonotone(x, y, 0.0, 30.0);
  }

  /** Brightness stays within [30, 100], inside the promised 0-100 percent. */
  lemma BrightnessRange(e: real)
    ensures 30.0 <= CalculateBrightness(e) <= 100.0
  {
    BrightnessAsRamps(e);
  }
}

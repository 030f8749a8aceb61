/** SimpleExponentialMovingAverage and SimpleMovingVariance (measurements/moving_average.go,
    measurements/moving_variance.go), for smoothing factors in (0, 1]. */
module MovingAverage {
  import opened Basics
  import opened Reals

  datatype Average = Average(alpha: real, minSamples: int, seenSamples: int, value: real)

  /** minSamples is the smallest integer that is at least 1 / alpha. */
  function NewAverage(alpha: real): (m: Average)
    requires 0.0 < alpha <= 1.0
    ensures m.minSamples >= 1
    ensures (m.minSamples - 1) as real < 1.0 / alpha <= m.minSamples as real
  {
    InverseAtLeastOne(alpha);
    Average(alpha, Ceil(1.0 / alpha), 0, 0.0)
  }

  /** The weight of the sample that brings the count to `seen`. */
  function Weight(alpha: real, minSamples: int, seen: int): real
    requires seen >= 1
  {
    if seen >= minSamples then alpha else 1.0 / seen as real
  }

  function Added(m: Average, v: real): Average
    requires m.seenSamples >= 0 && m.minSamples >= 1
  {
    var seen := if m.seenSamples < m.minSamples then m.seenSamples + 1 else m.seenSamples;
    m.(seenSamples := seen, value := Blend(m.value, v, Weight(m.alpha, m.minSamples, seen)))
  }

  function Run(alpha: real, vs: seq<real>): (m: Average)
    requires 0.0 < alpha <= 1.0
    ensures m.alpha == alpha && m.minSamples == NewAverage(alpha).minSamples
    ensures m.seenSamples == Min(|vs|, m.minSamples)
  {
    if vs == [] then NewAverage(alpha) else Added(Run(alpha, vs[..|vs| - 1]), vs[|vs| - 1])
  }

  /** During warm-up, the first minSamples - 1 samples, the average is the exact arithmetic mean. */
  lemma {:induction false} WarmUpIsArithmeticMean(alpha: real, vs: seq<real>)
    requires 0.0 < alpha <= 1.0 && |vs| < NewAverage(alpha).minSamples
    ensures Run(alpha, vs).value * |vs| as real == Sum(vs)
  {
    if vs != [] {
      var init, v := vs[..|vs| - 1], vs[|vs| - 1];
      WarmUpIsArithmeticMean(alpha, init);
      MeanStep(Run(alpha, init).value, v, |vs| as real, Sum(init));
    }
  }

  lemma MeanStep(mean: real, v: real, n: real, sum: real)
    requires n >= 1.0 && mean * (n - 1.0) == sum
    ensures Blend(mean, v, 1.0 / n) * n == sum + v
  {
    var w := 1.0 / n;
    assert w * n == 1.0;
    var d := v - mean;
    assert (mean + w * d) * n == mean * n + d * (w * n);
    assert Blend(mean, v, w) == mean + w * d;
  }

  lemma WeightIsFraction(alpha: real, minSamples: int, seen: int)
    requires 0.0 < alpha <= 1.0 && seen >= 1
    ensures 0.0 <= Weight(alpha, minSamples, seen) <= 1.0
  {
    RatioBetween(1.0, seen as real);
  }

  /** Adding a sample keeps the value between bounds that cover the samples so far; the very first
      sample replaces the initial zero. */
  lemma AddedBetween(m: Average, v: real, lo: real, hi: real)
    requires 0.0 < m.alpha <= 1.0 && m.minSamples >= 1 && m.seenSamples >= 0
    requires m.minSamples == 1 ==> m.alpha == 1.0
    requires lo <= v <= hi && (m.seenSamples > 0 ==> lo <= m.value <= hi)
    ensures lo <= Added(m, v).value <= hi
  {
    var seen := if m.seenSamples < m.minSamples then m.seenSamples + 1 else m.seenSamples;
    WeightIsFraction(m.alpha, m.minSamples, seen);
    var w := Weight(m.alpha, m.minSamples, seen);
    if m.seenSamples == 0 {
      assert w == 1.0;
      assert Blend(m.value, v, w) == v;
    } else {
      BlendBetween(m.value, v, w, lo, hi);
    }
  }

  lemma OneSampleMeansAlphaOne(alpha: real)
    requires 0.0 < alpha <= 1.0 && NewAverage(alpha).minSamples == 1
    ensures alpha == 1.0
  {
    assert 1.0 / alpha * alpha == 1.0;
    if alpha < 1.0 {
      ProductMonotone(1.0 / alpha, 1.0, alpha);
    }
  }

  ghost predicate AllBetween(vs: seq<real>, lo: real, hi: real) {
    forall i :: 0 <= i < |vs| ==> lo <= vs[i] <= hi
  }

  /** After any samples the average lies in any interval that contains all of them. */
  lemma {:induction false} AverageStaysInRange(alpha: real, vs: seq<real>, lo: real, hi: real)
    requires 0.0 < alpha <= 1.0 && vs != [] && AllBetween(vs, lo, hi)
    ensures lo <= Run(alpha, vs).value <= hi
  {
    var init, v := vs[..|vs| - 1], vs[|vs| - 1];
    if init != [] {
      AverageStaysInRange(alpha, init, lo, hi);
    }
    if NewAverage(alpha).minSamples == 1 {
      OneSampleMeansAlphaOne(alpha);
    }
    AddedBetween(Run(alpha, init), v, lo, hi);
  }

  /** From sample number minSamples on, a sample leaves the fraction 1 - alpha of its distance to the
      average. */
  lemma SampleClosesTheGap(m: Average, v: real)
    requires m.seenSamples >= 0 && m.minSamples >= 1 && m.seenSamples + 1 >= m.minSamples
    ensures v - Added(m, v).value == (1.0 - m.alpha) * (v - m.value)
  {
    BlendAsWritten(m.value, v, m.alpha);
    assert (1.0 - m.alpha) * (v - m.value) == v - ((1.0 - m.alpha) * m.value + m.alpha * v);
  }

  // ---------------------------------------------------------------- variance

  datatype Variance = Variance(average: Average, variance: Average, stdev: real, normalized: real)

  /** A deviation in units of `stdev`; unchanged when there is no unit. */
  function Normalized(deviation: real, stdev: real, before: real): real {
    if stdev != 0.0 then deviation / stdev else before
  }

  function Square(d: real): real { d * d }

  /** The average of the squared deviations from the average before each sample but the first. */
  function VarianceOf(average: Average, variance: Average, v: real): Average
    requires variance.seenSamples >= 0 && variance.minSamples >= 1
  {
    if average.seenSamples > 0 then Added(variance, Square(v - average.value)) else variance
  }

  /** SimpleMovingVariance.Add; math.Sqrt is a parameter. */
  function VarianceAdded(m: Variance, v: real, sqrt: real -> real): Variance
    requires m.average.seenSamples >= 0 && m.average.minSamples >= 1
    requires m.variance.seenSamples >= 0 && m.variance.minSamples >= 1
  {
    var average := Added(m.average, v);
    var variance := VarianceOf(m.average, m.variance, v);
    var stdev := sqrt(variance.value);
    Variance(average, variance, stdev, Normalized(v - average.value, stdev, m.normalized))
  }

  function VarianceRun(alphaAverage: real, alphaVariance: real, vs: seq<real>, sqrt: real -> real): (m: Variance)
    requires 0.0 < alphaAverage <= 1.0 && 0.0 < alphaVariance <= 1.0
    ensures m.average == Run(alphaAverage, vs)
    ensures m.variance.alpha == alphaVariance && m.variance.minSamples == NewAverage(alphaVariance).minSamples
    ensures m.variance.seenSamples >= 0
  {
    if vs == [] then Variance(NewAverage(alphaAverage), NewAverage(alphaVariance), 0.0, 0.0)
    else VarianceAdded(VarianceRun(alphaAverage, alphaVariance, vs[..|vs| - 1], sqrt), vs[|vs| - 1], sqrt)
  }

  lemma SquareBetween(d: real, r: real)
    requires -r <= d <= r
    ensures 0.0 <= d * d <= r * r
  {
    ProductNonNegative(r - d, r + d);
    assert (r - d) * (r + d) == r * r - d * d;
    if d >= 0.0 {
      ProductNonNegative(d, d);
    } else {
      ProductNonNegative(-d, -d);
    }
  }

  lemma VarianceStep(m: Variance, v: real, sqrt: real -> real, lo: real, hi: real, bound: real)
    requires 0.0 < m.variance.alpha <= 1.0 && m.variance.minSamples == NewAverage(m.variance.alpha).minSamples
    requires m.average.minSamples >= 1 && m.average.seenSamples >= 0 && m.variance.seenSamples >= 0
    requires lo <= v <= hi && (m.average.seenSamples > 0 ==> lo <= m.average.value <= hi)
    requires bound == (hi - lo) * (hi - lo) && 0.0 <= m.variance.value <= bound
    ensures 0.0 <= VarianceAdded(m, v, sqrt).variance.value <= bound
  {
    if m.average.seenSamples > 0 {
      var d := v - m.average.value;
      SquareBetween(d, hi - lo);
      if m.variance.minSamples == 1 {
        OneSampleMeansAlphaOne(m.variance.alpha);
      }
      AddedBetween(m.variance, d * d, 0.0, bound);
    }
  }

  /** The variance is always between 0 and the square of the samples' range (`bound`), so its square
      root is defined. */
  lemma {:induction false} VarianceStaysInRange(alphaAverage: real, alphaVariance: real, vs: seq<real>,
                                                sqrt: real -> real, lo: real, hi: real, bound: real)
    requires 0.0 < alphaAverage <= 1.0 && 0.0 < alphaVariance <= 1.0
    requires lo <= hi && AllBetween(vs, lo, hi) && bound == (hi - lo) * (hi - lo)
    ensures 0.0 <= VarianceRun(alphaAverage, alphaVariance, vs, sqrt).variance.value <= bound
  {
    SquareBetween(0.0, hi - lo);
    if vs != [] {
      var init := vs[..|vs| - 1];
      VarianceStaysInRange(alphaAverage, alphaVariance, init, sqrt, lo, hi, bound);
      if init != [] {
        AverageStaysInRange(alphaAverage, init, lo, hi);
      }
      VarianceStep(VarianceRun(alphaAverage, alphaVariance, init, sqrt), vs[|vs| - 1], sqrt, lo, hi, bound);
    }
  }

  /** What the proofs need of math.Sqrt. */
  ghost predicate IsSqrt(sqrt: real -> real) { forall x :: IsRootAt(sqrt, x) }

  predicate IsRootAt(sqrt: real -> real, x: real) {
    x >= 0.0 ==> sqrt(x) >= 0.0 && sqrt(x) * sqrt(x) == x
  }

  lemma SquareGrows(r: real, root: real)
    requires 0.0 <= r < root
    ensures r * r < root * root
  {
    ProductPositive(root - r, root + r);
    assert (root - r) * (root + r) == root * root - r * r;
  }

  lemma RootBetween(m: Variance, sqrt: real -> real, lo: real, hi: real, bound: real)
    requires IsSqrt(sqrt) && m.stdev == sqrt(m.variance.value)
    requires lo <= hi && bound == (hi - lo) * (hi - lo) && 0.0 <= m.variance.value <= bound
    ensures 0.0 <= m.stdev <= hi - lo
  {
    var r := hi - lo;
    assert IsRootAt(sqrt, m.variance.value);
    if m.stdev > r {
      SquareGrows(r, m.stdev);
    }
  }

  /** The standard deviation is the square root of the variance and never more than the range of the
      samples. */
  lemma {:induction false} DeviationStaysInRange(alphaAverage: real, alphaVariance: real, vs: seq<real>,
                                                 sqrt: real -> real, lo: real, hi: real, bound: real)
    requires 0.0 < alphaAverage <= 1.0 && 0.0 < alphaVariance <= 1.0 && IsSqrt(sqrt)
    requires vs != [] && lo <= hi && AllBetween(vs, lo, hi)
    requires bound == (hi - lo) * (hi - lo)
    ensures var m := VarianceRun(alphaAverage, alphaVariance, vs, sqrt);
            m.stdev == sqrt(m.variance.value) && 0.0 <= m.stdev <= hi - lo
  {
    VarianceStaysInRange(alphaAverage, alphaVariance, vs, sqrt, lo, hi, bound);
    StdevIsRoot(alphaAverage, alphaVariance, vs, sqrt);
    RootBetween(VarianceRun(alphaAverage, alphaVariance, vs, sqrt), sqrt, lo, hi, bound);
  }

  lemma {:induction false} StdevIsRoot(
    alphaAverage: real, alphaVariance: real, vs: seq<real>, sqrt: real -> real)
    requires 0.0 < alphaAverage <= 1.0 && 0.0 < alphaVariance <= 1.0 && vs != []
    ensures var m := VarianceRun(alphaAverage, alphaVariance, vs, sqrt); m.stdev == sqrt(m.variance.value)
  {}

  /** A sample's normalized value is its distance to the new average in units of the standard deviation,
      and is left as it was when there is none. */
  lemma NormalizedRule(m: Variance, v: real, sqrt: real -> real)
    requires m.average.seenSamples >= 0 && m.average.minSamples >= 1
    requires m.variance.seenSamples >= 0 && m.variance.minSamples >= 1
    ensures var m' := VarianceAdded(m, v, sqrt);
            && m'.stdev == sqrt(m'.variance.value)
            && (m'.stdev == 0.0 ==> m'.normalized == m.normalized)
            && (m'.stdev != 0.0 ==> m'.normalized * m'.stdev == v - m'.average.value)
  {
    var m' := VarianceAdded(m, v, sqrt);
    QuotientTimesUnit(v - m'.average.value, m'.stdev, m.normalized);
  }

  lemma QuotientTimesUnit(deviation: real, stdev: real, before: real)
    ensures stdev != 0.0 ==> Normalized(deviation, stdev, before) * stdev == deviation
  {}

  /** The weight of a sample is never below alpha: the warm-up is over before 1 / seen gets there. */
  lemma WeightAtLeastAlpha(alpha: real, seen: int)
    requires 0.0 < alpha <= 1.0 && seen >= 1
    ensures Weight(alpha, NewAverage(alpha).minSamples, seen) >= alpha
  {
    var m, n := NewAverage(alpha).minSamples, seen as real;
    if seen < m {
      assert n < 1.0 / alpha;
      assert 1.0 / alpha * alpha == 1.0;
      ProductMonotone(n, 1.0 / alpha, alpha);
      AtMostInverse(alpha, n);
    }
  }

  lemma AtMostInverse(alpha: real, n: real)
    requires n > 0.0 && n * alpha <= 1.0
    ensures alpha <= 1.0 / n
  {
    var r := 1.0 / n;
    assert r * n == 1.0;
    if alpha > r {
      ProductPositive(alpha - r, n);
    }
  }

  /** A deviation `dev` no larger than `d`, in units of a root of at least alpha * d^2. */
  lemma UnitsBounded(alpha: real, d2: real, dev2: real, q2: real, variance: real)
    requires alpha > 0.0 && q2 >= 0.0 && 0.0 <= dev2 <= d2 && alpha * d2 <= variance && variance > 0.0
    requires q2 * variance == dev2
    ensures q2 * alpha <= 1.0
  {
    if d2 == 0.0 {
      if q2 > 0.0 {
        ProductPositive(q2, variance);
      }
    } else {
      ProductMonotone(alpha * d2, variance, q2);
      var k := q2 * alpha;
      assert alpha * d2 * q2 == k * d2;
      if k > 1.0 {
        ProductPositive(k - 1.0, d2);
      }
    }
  }

  /** The deviation from the new average is no larger than that from the old one. */
  lemma DeviationShrinks(average: real, v: real, w: real)
    requires 0.0 <= w <= 1.0
    ensures Square(v - Blend(average, v, w)) <= Square(v - average)
  {
    var d, dev := v - average, v - Blend(average, v, w);
    assert dev == (1.0 - w) * d;
    if d >= 0.0 {
      ScaledDown(1.0 - w, d);
      SquareBetween(dev, d);
    } else {
      ScaledDown(1.0 - w, -d);
      assert dev == -((1.0 - w) * -d);
      SquareBetween(dev, -d);
      assert -d * -d == d * d;
    }
  }

  /** Adding `x` to an average of non-negative values leaves it at least alpha * x. */
  lemma AddedAtLeastShare(m: Average, x: real)
    requires 0.0 < m.alpha <= 1.0 && m.minSamples == NewAverage(m.alpha).minSamples && m.seenSamples >= 0
    requires m.value >= 0.0 && x >= 0.0
    ensures Added(m, x).value >= m.alpha * x
  {
    var seen := if m.seenSamples < m.minSamples then m.seenSamples + 1 else m.seenSamples;
    var w := Weight(m.alpha, m.minSamples, seen);
    WeightAtLeastAlpha(m.alpha, seen);
    WeightIsFraction(m.alpha, m.minSamples, seen);
    ProductMonotone(m.alpha, w, x);
    ProductNonNegative(1.0 - w, m.value);
    assert Blend(m.value, x, w) == (1.0 - w) * m.value + w * x;
  }

  /** `q` squared is at most 1 / alpha. */
  predicate Bounded(q: real, alpha: real) { Square(q) * alpha <= 1.0 }

  lemma NormalizedStep(m: Variance, v: real, sqrt: real -> real)
    requires IsSqrt(sqrt) && Bounded(m.normalized, m.variance.alpha)
    requires 0.0 < m.average.alpha <= 1.0 && m.average.minSamples >= 1 && m.average.seenSamples > 0
    requires 0.0 < m.variance.alpha <= 1.0 && m.variance.minSamples == NewAverage(m.variance.alpha).minSamples
    requires m.variance.seenSamples >= 0 && m.variance.value >= 0.0
    ensures Bounded(VarianceAdded(m, v, sqrt).normalized, m.variance.alpha)
  {
    var m', d := VarianceAdded(m, v, sqrt), v - m.average.value;
    SquareNonNegative(d);
    AddedAtLeastShare(m.variance, Square(d));
    ShareNonNegative(m.variance.alpha, Square(d));
    assert IsRootAt(sqrt, m'.variance.value);
    if m'.stdev != 0.0 {
      AverageApproaches(m.average, v);
      QuotientBounded(m.variance.alpha, d, v - m'.average.value, m'.stdev, m'.variance.value, m'.normalized);
    }
  }

  lemma AverageApproaches(m: Average, v: real)
    requires 0.0 < m.alpha <= 1.0 && m.minSamples >= 1 && m.seenSamples >= 0
    ensures Square(v - Added(m, v).value) <= Square(v - m.value)
  {
    var seen := if m.seenSamples < m.minSamples then m.seenSamples + 1 else m.seenSamples;
    WeightIsFraction(m.alpha, m.minSamples, seen);
    DeviationShrinks(m.value, v, Weight(m.alpha, m.minSamples, seen));
  }

  lemma QuotientBounded(alpha: real, d: real, dev: real, stdev: real, variance: real, q: real)
    requires alpha > 0.0 && Square(dev) <= Square(d) && alpha * Square(d) <= variance
    requires stdev > 0.0 && stdev * stdev == variance && q == dev / stdev
    ensures Bounded(q, alpha)
  {
    UnitsSquared(dev, stdev, variance, q);
    SquareNonNegative(dev);
    UnitsBounded(alpha, Square(d), Square(dev), Square(q), variance);
  }

  lemma SquareNonNegative(d: real)
    ensures Square(d) >= 0.0
  {
    SquareBetween(d, if d >= 0.0 then d else -d);
  }

  lemma ShareNonNegative(alpha: real, x: real)
    requires alpha > 0.0 && x >= 0.0
    ensures alpha * x >= 0.0
  {}

  lemma UnitsSquared(dev: real, stdev: real, variance: real, q: real)
    requires stdev > 0.0 && stdev * stdev == variance && q == dev / stdev
    ensures variance > 0.0 && Square(q) >= 0.0 && Square(q) * variance == Square(dev)
  {
    assert q * stdev == dev;
    PositiveProduct(stdev, stdev, variance);
    SquareNonNegative(q);
    SquareOfProduct(q, stdev, variance, dev);
  }

  lemma SquareOfProduct(q: real, u: real, u2: real, product: real)
    requires u * u == u2 && q * u == product
    ensures Square(q) * u2 == Square(product)
  {
    assert Square(q) * u2 == q * (q * (u * u));
    assert q * (u * u) == product * u;
    assert q * (product * u) == product * (q * u);
    assert q * (q * (u * u)) == q * (product * u);
  }

  /** The normalized value of every sample of every run is bounded by the smoothing alone: its square is
      at most 1 / alphaVariance. */
  lemma {:induction false} NormalizedIsBounded(
    alphaAverage: real, alphaVariance: real, vs: seq<real>, sqrt: real -> real)
    requires 0.0 < alphaAverage <= 1.0 && 0.0 < alphaVariance <= 1.0 && IsSqrt(sqrt)
    ensures Bounded(VarianceRun(alphaAverage, alphaVariance, vs, sqrt).normalized, alphaVariance)
    ensures VarianceRun(alphaAverage, alphaVariance, vs, sqrt).variance.value >= 0.0
  {
    if |vs| == 1 {
      FirstSample(alphaAverage, alphaVariance, vs, sqrt);
    } else if |vs| > 1 {
      var init := vs[..|vs| - 1];
      NormalizedIsBounded(alphaAverage, alphaVariance, init, sqrt);
      NormalizedStep(VarianceRun(alphaAverage, alphaVariance, init, sqrt), vs[|vs| - 1], sqrt);
      VarianceNonNegative(VarianceRun(alphaAverage, alphaVariance, init, sqrt), vs[|vs| - 1], sqrt);
    }
  }

  lemma VarianceNonNegative(m: Variance, v: real, sqrt: real -> real)
    requires m.average.minSamples >= 1 && m.average.seenSamples >= 0
    requires 0.0 < m.variance.alpha <= 1.0 && m.variance.minSamples == NewAverage(m.variance.alpha).minSamples
    requires m.variance.seenSamples >= 0 && m.variance.value >= 0.0
    ensures VarianceAdded(m, v, sqrt).variance.value >= 0.0
  {
    var d2 := Square(v - m.average.value);
    SquareNonNegative(v - m.average.value);
    AddedAtLeastShare(m.variance, d2);
    ShareNonNegative(m.variance.alpha, d2);
  }

  /** After one sample there is no variance, and nothing to normalize by. */
  lemma FirstSample(alphaAverage: real, alphaVariance: real, vs: seq<real>, sqrt: real -> real)
    requires 0.0 < alphaAverage <= 1.0 && 0.0 < alphaVariance <= 1.0 && IsSqrt(sqrt) && |vs| == 1
    ensures var m := VarianceRun(alphaAverage, alphaVariance, vs, sqrt);
            m.variance.value == 0.0 && m.stdev == 0.0 && m.normalized == 0.0
  {
    assert vs[..0] == [];
    FirstStep(VarianceRun(alphaAverage, alphaVariance, [], sqrt), vs[0], sqrt);
  }

  lemma FirstStep(m: Variance, v: real, sqrt: real -> real)
    requires IsSqrt(sqrt) && m.average.seenSamples == 0 && m.average.minSamples >= 1
    requires m.variance.seenSamples >= 0 && m.variance.minSamples >= 1
    requires m.variance.value == 0.0 && m.normalized == 0.0
    ensures var m' := VarianceAdded(m, v, sqrt);
            m'.variance.value == 0.0 && m'.stdev == 0.0 && m'.normalized == 0.0
  {
    assert IsRootAt(sqrt, m.variance.value);
    ZeroRoot(sqrt(m.variance.value), m.variance.value);
  }

  lemma ZeroRoot(root: real, x: real)
    requires root >= 0.0 && root * root == x && x <= 0.0
    ensures root == 0.0
  {
    if root != 0.0 {
      PositiveProduct(root, root, x);
    }
  }

  /** After two samples the variance is the square of their difference, whatever the factors: it is taken
      from the average before the second one. */
  lemma SecondSample(alphaAverage: real, alphaVariance: real, v1: real, v2: real, sqrt: real -> real)
    requires 0.0 < alphaAverage <= 1.0 && 0.0 < alphaVariance <= 1.0
    ensures VarianceRun(alphaAverage, alphaVariance, [v1, v2], sqrt).variance.value == Square(v2 - v1)
  {
    assert [v1, v2][..1] == [v1] && [v1][..0] == [];
    var start := VarianceRun(alphaAverage, alphaVariance, [], sqrt);
    var one := VarianceRun(alphaAverage, alphaVariance, [v1], sqrt);
    FirstIsTaken(start.average, v1);
    FirstIsTaken(one.variance, Square(v2 - v1));
  }

  lemma FirstIsTaken(m: Average, v: real)
    requires 0.0 < m.alpha <= 1.0 && m.minSamples == NewAverage(m.alpha).minSamples && m.seenSamples == 0
    ensures Added(m, v).value == v && Added(m, v).seenSamples == 1
  {
    if m.minSamples == 1 {
      OneSampleMeansAlphaOne(m.alpha);
    }
    assert Blend(m.value, v, 1.0) == v;
  }

  /** From then on each sample's squared deviation from the average before it closes the gap to the
      variance in the same way. */
  lemma VarianceClosesTheGap(m: Variance, v: real, sqrt: real -> real)
    requires m.average.seenSamples > 0 && m.average.minSamples >= 1
    requires m.variance.seenSamples >= 0 && m.variance.minSamples >= 1
    requires m.variance.seenSamples + 1 >= m.variance.minSamples
    ensures var d2 := Square(v - m.average.value);
            d2 - VarianceAdded(m, v, sqrt).variance.value == (1.0 - m.variance.alpha) * (d2 - m.variance.value)
  {
    SampleClosesTheGap(m.variance, Square(v - m.average.value));
  }

  // ---------------------------------------------------------------- the objects

  class SimpleExponentialMovingAverage {
    const alpha: real
    const minSamples: int
    var seenSamples: int
    var value: real

    function View(): Average reads this { Average(alpha, minSamples, seenSamples, value) }

    ghost predicate Valid() reads this { minSamples >= 1 && seenSamples >= 0 }

    constructor (alpha: real)
      requires 0.0 < alpha <= 1.0
      ensures Valid() && View() == NewAverage(alpha)
    {
      this.alpha := alpha;
      minSamples := NewAverage(alpha).minSamples;
      seenSamples, value := 0, 0.0;
    }

    method Add(v: real) returns (current: real, changed: bool)
      requires Valid()
      modifies this
      ensures Valid() && View() == Added(old(View()), v)
      ensures current == value && (changed <==> value != old(value))
    {
      if seenSamples < minSamples {
        seenSamples := seenSamples + 1;
      }
      var weight: real;
      if seenSamples >= minSamples {
        weight := alpha;
      } else {
        weight := 1.0 / seenSamples as real;
      }
      var newValue := Smooth(value, v, weight);
      changed := newValue != value;
      value := newValue;
      current := value;
    }
  }

  class SimpleMovingVariance {
    const average: SimpleExponentialMovingAverage
    const variance: SimpleExponentialMovingAverage
    const sqrt: real -> real
    var stdev: real
    var normalized: real

    function View(): Variance reads this, average, variance {
      Variance(average.View(), variance.View(), stdev, normalized)
    }

    ghost predicate Valid() reads this, average, variance {
      average != variance && average.Valid() && variance.Valid()
    }

    constructor (alphaAverage: real, alphaVariance: real, sqrt: real -> real)
      requires 0.0 < alphaAverage <= 1.0 && 0.0 < alphaVariance <= 1.0
      ensures Valid() && fresh(average) && fresh(variance) && this.sqrt == sqrt
      ensures View() == Variance(NewAverage(alphaAverage), NewAverage(alphaVariance), 0.0, 0.0)
    {
      average := new SimpleExponentialMovingAverage(alphaAverage);
      variance := new SimpleExponentialMovingAverage(alphaVariance);
      this.sqrt, stdev, normalized := sqrt, 0.0, 0.0;
    }

    /** Answers the standard deviation, and whether it or the normalized value changed. */
    method Add(v: real) returns (current: real, changed: bool)
      requires Valid()
      modifies this, average, variance
      ensures Valid() && View() == VarianceAdded(old(View()), v, sqrt)
      ensures current == stdev && (changed <==> stdev != old(stdev) || normalized != old(normalized))
    {
      AddToAverages(v);
      var newStdev := sqrt(variance.value);
      var newNormalized := Normalized(v - average.value, newStdev, normalized);
      changed := newStdev != stdev || newNormalized != normalized;
      stdev, normalized := newStdev, newNormalized;
      current := stdev;
    }

    method AddToAverages(v: real)
      requires Valid()
      modifies average, variance
      ensures Valid() && average.View() == Added(old(average.View()), v)
      ensures variance.View() == VarianceOf(old(average.View()), old(variance.View()), v)
    {
      if average.seenSamples > 0 {
        var _, _ := variance.Add(Square(v - average.value));
      }
      var _, _ := average.Add(v);
    }
  }
}

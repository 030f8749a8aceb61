/** ExponentialAverageMeasurement (measurements/exponential_average.go): the plain mean during
    warm-up, an exponential average afterwards. */
module ExponentialAverage {
  import opened Reals

  datatype Average = Average(value: real, sum: real, count: nat, window: int, warmupWindow: int)

  /** The weight of a sample, which is a fraction exactly for windows of at least 1; a window of -1
      divides by zero. */
  function Factor(n: int): (f: real)
    requires n != -1
    ensures 0.0 < f <= 1.0 <==> n >= 1
  {
    var d := (n + 1) as real;
    assert 2.0 / d * d == 2.0;
    2.0 / d
  }

  function Added(m: Average, v: real): Average
    requires m.window != -1
  {
    if m.count < m.warmupWindow then
      m.(count := m.count + 1, sum := m.sum + v, value := (m.sum + v) / (m.count + 1) as real)
    else m.(value := Blend(m.value, v, Factor(m.window)))
  }

  /** Within [lo, hi]: the value, once there is one, and each of the samples summed. */
  ghost predicate Within(m: Average, lo: real, hi: real) {
    && m.window >= 1 && m.warmupWindow >= 1
    && m.count as real * lo <= m.sum <= m.count as real * hi
    && (m.count > 0 ==> lo <= m.value <= hi)
  }

  lemma MeanBetween(sum: real, n: real, lo: real, hi: real)
    requires n > 0.0 && n * lo <= sum <= n * hi
    ensures lo <= sum / n <= hi
  {
    var mean := sum / n;
    assert mean * n == sum;
    if mean < lo {
      ProductPositive(lo - mean, n);
    } else if mean > hi {
      ProductPositive(mean - hi, n);
    }
  }

  lemma SumBetween(sum: real, v: real, n: real, lo: real, hi: real)
    requires n * lo <= sum <= n * hi && lo <= v <= hi
    ensures (n + 1.0) * lo <= sum + v <= (n + 1.0) * hi
  {}

  lemma WarmUpStaysWithin(m: Average, v: real, lo: real, hi: real)
    requires Within(m, lo, hi) && lo <= v <= hi && m.count < m.warmupWindow
    ensures Within(Added(m, v), lo, hi)
  {
    SumBetween(m.sum, v, m.count as real, lo, hi);
    MeanBetween(m.sum + v, (m.count + 1) as real, lo, hi);
  }

  /** Adding a sample keeps the average between bounds that cover all samples so far. */
  lemma AddedStaysWithin(m: Average, v: real, lo: real, hi: real)
    requires Within(m, lo, hi) && lo <= v <= hi
    ensures Within(Added(m, v), lo, hi) && Added(m, v).count > 0
  {
    if m.count < m.warmupWindow {
      WarmUpStaysWithin(m, v, lo, hi);
    } else {
      BlendBetween(m.value, v, Factor(m.window), lo, hi);
    }
  }

  lemma WithinWider(m: Average, lo: real, hi: real, lo': real, hi': real)
    requires Within(m, lo, hi) && lo' <= lo && hi <= hi'
    ensures Within(m, lo', hi')
  {
    ProductMonotone(lo', lo, m.count as real);
    ProductMonotone(hi, hi', m.count as real);
  }

  /** The measurement after the samples `vs`. */
  function After(window: int, warmupWindow: int, vs: seq<real>): (m: Average)
    requires window != -1
    ensures m.window == window && m.warmupWindow == warmupWindow
  {
    if vs == [] then Average(0.0, 0.0, 0, window, warmupWindow)
    else Added(After(window, warmupWindow, vs[..|vs| - 1]), vs[|vs| - 1])
  }

  /** During warm-up the value is the exact arithmetic mean. */
  lemma {:induction false} WarmUpIsMean(window: int, warmupWindow: int, vs: seq<real>)
    requires window != -1 && |vs| <= warmupWindow
    ensures var m := After(window, warmupWindow, vs);
            m.count == |vs| && m.sum == Sum(vs) && (vs != [] ==> m.value * |vs| as real == Sum(vs))
  {
    if vs != [] {
      WarmUpIsMean(window, warmupWindow, vs[..|vs| - 1]);
    }
  }

  /** Afterwards a sample leaves window - 1 of window + 1 parts of its distance to the value. */
  lemma SampleClosesTheGap(m: Average, v: real)
    requires m.window != -1 && m.count >= m.warmupWindow
    ensures (v - Added(m, v).value) * (m.window + 1) as real == (v - m.value) * (m.window - 1) as real
    ensures Added(m, v).count == m.count && Added(m, v).sum == m.sum
  {
    var d, n, f := v - m.value, (m.window + 1) as real, Factor(m.window);
    assert f * n == 2.0;
    assert v - Added(m, v).value == d - f * d;
    assert (d - f * d) * n == d * n - d * (f * n);
  }

  class ExponentialAverageMeasurement {
    var value: real
    var sum: real
    var count: nat
    const window: int
    const warmupWindow: int

    function View(): Average reads this { Average(value, sum, count, window, warmupWindow) }

    constructor (window: int, warmupWindow: int)
      ensures View() == Average(0.0, 0.0, 0, window, warmupWindow)
    {
      value, sum, count := 0.0, 0.0, 0;
      this.window, this.warmupWindow := window, warmupWindow;
    }

    method Add(v: real) returns (current: real)
      requires window != -1
      modifies this
      ensures View() == Added(old(View()), v) && current == value
    {
      if count < warmupWindow {
        count := count + 1;
        sum := sum + v;
        value := sum / count as real;
      } else {
        var f := Factor(window);
        BlendAsWritten(value, v, f);
        value := value * (1.0 - f) + v * f;
      }
      return value;
    }

    method Update(operation: real -> real)
      modifies this`value
      ensures value == operation(old(value))
    {
      value := operation(value);
    }
  }
}

/** Gradient2Limit (limit/gradient2.go).  float64 is modelled by real and round trips are positive.
    The whole of OnSample runs under one mutex; it ignores its didDrop argument. */
module Gradient2 {
  import opened Basics
  import opened Reals
  import E = ExponentialAverage

  datatype Config = Config(initial: int, maxLimit: int, minLimit: int, smoothing: real, longWindow: int,
                           queueSize: nat -> int)
  {
    predicate Valid() {
      initial >= 1 && 1 <= minLimit <= maxLimit && 0.0 <= smoothing <= 1.0 && longWindow >= 0
    }
  }

  /** The replacements NewGradient2Limit makes; the result is an error exactly when minLimit then
      exceeds maxLimit. */
  function Normalised(c: Config): (n: Option<Config>)
    ensures n.None? <==> (if c.minLimit <= 0 then 4 else c.minLimit) > (if c.maxLimit <= 0 then 1000 else c.maxLimit)
    ensures n.Some? ==> n.value.Valid()
    ensures c.Valid() ==> n == Some(c)
  {
    var n := c.(smoothing := if c.smoothing > 1.0 || c.smoothing < 0.0 then 0.2 else c.smoothing,
                maxLimit := if c.maxLimit <= 0 then 1000 else c.maxLimit,
                minLimit := if c.minLimit <= 0 then 4 else c.minLimit,
                longWindow := if c.longWindow < 0 then 100 else c.longWindow,
                initial := if c.initial <= 0 then 4 else c.initial);
    if n.minLimit > n.maxLimit then None else Some(n)
  }

  /** Each argument that is in range is taken, and each that is not is replaced by its default. */
  lemma ArgumentsAndDefaults(c: Config)
    ensures var r := Normalised(c);
            r.Some? ==>
              var n := r.value;
              && (if c.initial >= 1 then n.initial == c.initial else n.initial == 4)
              && (if c.maxLimit >= 1 then n.maxLimit == c.maxLimit else n.maxLimit == 1000)
              && (if c.minLimit >= 1 then n.minLimit == c.minLimit else n.minLimit == 4)
              && (if 0.0 <= c.smoothing <= 1.0 then n.smoothing == c.smoothing else n.smoothing == 0.2)
              && (if c.longWindow >= 0 then n.longWindow == c.longWindow else n.longWindow == 100)
              && n.queueSize == c.queueSize
  {}

  datatype Input = Input(rtt: int, inFlight: int)

  datatype State = State(estimate: real, longRTT: E.Average)

  const WARMUP := 10

  function Start(c: Config): State {
    State(c.initial as real, E.Average(0.0, 0.0, 0, c.longWindow, WARMUP))
  }

  /** The ratio of long to short round trip, kept in [0.5, 1]. */
  function Gradient(longRTT: real, rtt: int): (g: real)
    requires rtt > 0
    ensures 0.5 <= g <= 1.0
  {
    ClampedRatio(longRTT, rtt as real)
  }

  /** The new estimate, as one correction: a fraction of the gap between what the queue allows and
      what the gradient takes away, kept between the limits. */
  function Corrected(c: Config, estimate: real, gradient: real, queueSize: int): real {
    MaxReal(c.minLimit as real,
            MinReal(c.maxLimit as real, Blend(estimate, estimate * gradient + queueSize as real, c.smoothing)))
  }

  function Decayed(m: E.Average, rtt: int): E.Average
    requires rtt > 0
  {
    if m.value / rtt as real > 2.0 then m.(value := m.value * 0.9) else m
  }

  function Step(c: Config, s: State, x: Input): State
    requires s.estimate >= 0.0 && s.longRTT.window >= 0 && x.rtt > 0
  {
    var added := E.Added(s.longRTT, x.rtt as real);
    State(if x.inFlight as real < s.estimate / 2.0 then s.estimate
          else Corrected(c, s.estimate, Gradient(added.value, x.rtt), c.queueSize(s.estimate.Floor)),
          Decayed(added, x.rtt))
  }

  ghost predicate ValidRun(c: Config, xs: seq<Input>) {
    c.Valid() && forall i :: 0 <= i < |xs| ==> xs[i].rtt > 0
  }

  ghost function Run(c: Config, xs: seq<Input>): (s: State)
    requires ValidRun(c, xs)
    ensures s.estimate >= 1.0 && s.longRTT.window == c.longWindow && s.longRTT.warmupWindow == WARMUP
  {
    if xs == [] then Start(c) else Step(c, Run(c, xs[..|xs| - 1]), xs[|xs| - 1])
  }

  // ---------------------------------------------------------------- one sample

  /** A fraction `smoothing` of the way to the goal, kept between the limits. */
  predicate MovesTowards(c: Config, e: real, e': real, goal: real) {
    var moved := e + c.smoothing * (goal - e);
    && c.minLimit as real <= e' <= c.maxLimit as real
    && (c.minLimit as real <= moved <= c.maxLimit as real ==> e' == moved)
    && (moved < c.minLimit as real ==> e' == c.minLimit as real)
    && (moved > c.maxLimit as real ==> e' == c.maxLimit as real)
  }

  /** What a sample does, told by round trips.  The long round trip takes it in, and loses a tenth when it
      is then more than twice as long as the sample.  An estimate more than twice the calls in flight
      stands still; any other goes for the queue size and what the ratio of the long round trip, before
      that loss, to the sample leaves of it, which is at least half. */
  lemma SampleOutcome(c: Config, s: State, x: Input)
    requires c.Valid() && s.estimate >= 0.0 && s.longRTT.window >= 0 && x.rtt > 0
    ensures var s', added := Step(c, s, x), E.Added(s.longRTT, x.rtt as real);
            && s'.longRTT == (if added.value > 2.0 * x.rtt as real then added.(value := added.value * 0.9)
                              else added)
            && (2.0 * x.inFlight as real < s.estimate ==> s'.estimate == s.estimate)
            && (2.0 * x.inFlight as real >= s.estimate ==>
                  MovesTowards(c, s.estimate, s'.estimate,
                               Scaled(s.estimate, added.value, x.rtt as real) + c.queueSize(s.estimate.Floor) as real))
  {
    var added := E.Added(s.longRTT, x.rtt as real);
    DecayRule(added, x.rtt);
    CorrectionRule(c, s.estimate, added.value, x.rtt, c.queueSize(s.estimate.Floor));
  }

  lemma DecayRule(m: E.Average, rtt: int)
    requires rtt > 0
    ensures Decayed(m, rtt) == if m.value > 2.0 * rtt as real then m.(value := m.value * 0.9) else m
  {
    var short := rtt as real;
    var ratio := m.value / short;
    assert ratio * short == m.value;
    ScaledComparison(ratio, 2.0, short);
  }

  lemma CorrectionRule(c: Config, e: real, long: real, rtt: int, queue: int)
    requires c.Valid() && rtt > 0
    ensures MovesTowards(c, e, Corrected(c, e, Gradient(long, rtt), queue),
                         Scaled(e, long, rtt as real) + queue as real)
  {
    ScaledByRatio(e, long, rtt as real);
  }

  // ---------------------------------------------------------------- the long round trip

  /** The smallest and largest round trip seen. */
  function MinRTT(xs: seq<Input>): int
    requires xs != []
  {
    if |xs| == 1 then xs[0].rtt else Min(MinRTT(xs[..|xs| - 1]), xs[|xs| - 1].rtt)
  }

  function MaxRTT(xs: seq<Input>): int
    requires xs != []
  {
    if |xs| == 1 then xs[0].rtt else Max(MaxRTT(xs[..|xs| - 1]), xs[|xs| - 1].rtt)
  }

  lemma DecayedStaysWithin(m: E.Average, rtt: int, lo: real, hi: real)
    requires E.Within(m, lo, hi) && m.count > 0 && rtt > 0 && 0.0 < lo <= rtt as real
    ensures E.Within(Decayed(m, rtt), lo, hi)
  {
    var short := rtt as real;
    var ratio := m.value / short;
    if ratio > 2.0 {
      assert ratio * short == m.value;
      ProductMonotone(2.0, ratio, short);
    }
  }

  /** The long-term round trip stays between the smallest and largest sample ever seen, through the
      warm-up phase, the exponential average and the decay, so the gradient is always a quotient of
      positive numbers. */
  lemma {:induction false} LongRTTStaysInSampleRange(c: Config, xs: seq<Input>)
    requires ValidRun(c, xs) && xs != [] && c.longWindow >= 1
    ensures var m := Run(c, xs).longRTT;
            && 0 < MinRTT(xs) && m.count > 0
            && MinRTT(xs) as real <= m.value <= MaxRTT(xs) as real
            && E.Within(m, MinRTT(xs) as real, MaxRTT(xs) as real)
  {
    var init, x := xs[..|xs| - 1], xs[|xs| - 1];
    var lo, hi := MinRTT(xs) as real, MaxRTT(xs) as real;
    var before := Run(c, init).longRTT;
    if init != [] {
      LongRTTStaysInSampleRange(c, init);
      E.WithinWider(before, MinRTT(init) as real, MaxRTT(init) as real, lo, hi);
    }
    E.AddedStaysWithin(before, x.rtt as real, lo, hi);
    DecayedStaysWithin(E.Added(before, x.rtt as real), x.rtt, lo, hi);
  }

  /** `k` samples of round trip 3. */
  function Threes(k: nat): seq<Input> { seq(k, _ => Input(3, 0)) }

  lemma MeanOfThrees(n: real)
    requires n > 0.0
    ensures 3.0 * n / n == 3.0
  {}

  lemma {:induction false} WarmedUp(c: Config, k: nat)
    requires c.Valid() && k <= WARMUP
    ensures ValidRun(c, Threes(k))
    ensures Run(c, Threes(k)).longRTT ==
            E.Average(if k == 0 then 0.0 else 3.0, 3.0 * k as real, k, c.longWindow, WARMUP)
  {
    if k > 0 {
      WarmedUp(c, k - 1);
      assert Threes(k)[..k - 1] == Threes(k - 1);
      var before := Run(c, Threes(k - 1));
      assert before.longRTT.sum + 3.0 == 3.0 * k as real;
      MeanOfThrees(k as real);
      assert E.Added(before.longRTT, 3.0).value == 3.0;
    }
  }

  /** With a long window of 0 the average overshoots: after the warm-up on round trips of 3, one of 1
      makes it negative. */
  lemma ZeroWindowLeavesTheRange(c: Config) returns (xs: seq<Input>)
    requires c.Valid() && c.longWindow == 0
    ensures ValidRun(c, xs) && xs != [] && Run(c, xs).longRTT.value < 0.0 < MinRTT(xs) as real
  {
    WarmedUp(c, WARMUP);
    xs := Threes(WARMUP) + [Input(1, 0)];
    assert xs[..WARMUP] == Threes(WARMUP);
    assert Blend(3.0, 1.0, E.Factor(0)) == -1.0;
    MinRTTPositive(xs);
  }

  lemma {:induction false} MinRTTPositive(xs: seq<Input>)
    requires xs != [] && forall i :: 0 <= i < |xs| ==> xs[i].rtt > 0
    ensures MinRTT(xs) > 0
  {
    if |xs| > 1 {
      MinRTTPositive(xs[..|xs| - 1]);
    }
  }

  ghost predicate LongRTTInRange(c: Config, xs: seq<Input>) {
    ValidRun(c, xs) && xs != [] ==> MinRTT(xs) as real <= Run(c, xs).longRTT.value <= MaxRTT(xs) as real
  }

  /** The long-term round trip stays in the range of the samples in every run, if and only if the long
      window is not 0, which NewGradient2Limit accepts. */
  lemma LongRTTInRangeIff(c: Config)
    requires c.Valid()
    ensures (forall xs :: LongRTTInRange(c, xs)) <==> c.longWindow >= 1
  {
    if c.longWindow >= 1 {
      forall xs ensures LongRTTInRange(c, xs) {
        if ValidRun(c, xs) && xs != [] {
          LongRTTStaysInSampleRange(c, xs);
        }
      }
    } else {
      var xs := ZeroWindowLeavesTheRange(c);
      assert !LongRTTInRange(c, xs);
    }
  }

  // ---------------------------------------------------------------- envelopes

  lemma GradientScales(e: real, gradient: real)
    requires 0.5 <= gradient <= 1.0 && e >= 0.0
    ensures e * 0.5 <= e * gradient <= e
  {
    ProductMonotone(0.5, gradient, e);
    ScaledDown(gradient, e);
  }

  /** Before clamping, the correction is at least the smaller of the estimate and twice the queue. */
  lemma CorrectionFloor(estimate: real, gradient: real, q: real, smoothing: real)
    requires 0.5 <= gradient <= 1.0 && 0.0 <= smoothing <= 1.0 && estimate >= 0.0
    ensures Blend(estimate, estimate * gradient + q, smoothing) >= MinReal(estimate, 2.0 * q)
  {
    var target := estimate * gradient + q;
    GradientScales(estimate, gradient);
    HalfPlusQueue(estimate, q, target);
    BlendBetween(estimate, target, smoothing, MinReal(estimate, target), MaxReal(estimate, target));
  }

  lemma HalfPlusQueue(estimate: real, q: real, target: real)
    requires target >= estimate * 0.5 + q
    ensures target >= MinReal(estimate, 2.0 * q)
  {}

  /** ... and between the shrinking and growing envelopes. */
  lemma CorrectionEnvelope(e: real, gradient: real, q: real, smoothing: real, f: real, gain: real)
    requires 0.5 <= gradient <= 1.0 && 0.0 <= smoothing <= 1.0 && e >= 0.0 && q >= 0.0
    requires f == 1.0 - smoothing / 2.0 && gain == smoothing * q
    ensures e * f <= Blend(e, e * gradient + q, smoothing) <= e + gain
  {
    var target := e * gradient + q;
    GradientScales(e, gradient);
    BlendMonotone(e, e * 0.5, target, smoothing);
    BlendMonotone(e, target, e + q, smoothing);
    assert Blend(e, e * 0.5, smoothing) == e * f;
    assert Blend(e, e + q, smoothing) == e + gain;
  }

  lemma StandingStillInEnvelope(e: real, q: real, smoothing: real, f: real, gain: real)
    requires 0.0 <= smoothing <= 1.0 && e >= 0.0 && q >= 0.0
    requires f == 1.0 - smoothing / 2.0 && gain == smoothing * q
    ensures e * f <= e <= e + gain
  {
    ProductNonNegative(smoothing, q);
    ScaledDown(f, e);
  }

  lemma CorrectedInEnvelope(c: Config, e: real, g: real, q: int, f: real, gain: real)
    requires c.Valid() && 0.5 <= g <= 1.0 && q >= 0 && c.minLimit as real <= e <= c.maxLimit as real
    requires f == 1.0 - c.smoothing / 2.0 && gain == c.smoothing * q as real
    ensures e * f <= Corrected(c, e, g, q) <= e + gain
  {
    var b := Blend(e, e * g + q as real, c.smoothing);
    var low, high := e * f, e + gain;
    CorrectionEnvelope(e, g, q as real, c.smoothing, f, gain);
    StandingStillInEnvelope(e, q as real, c.smoothing, f, gain);
    ClampBetween(c.minLimit as real, c.maxLimit as real, e, b, low, high);
  }

  lemma BlendMonotone(a: real, b: real, b': real, w: real)
    requires b <= b' && w >= 0.0
    ensures Blend(a, b, w) <= Blend(a, b', w)
  {
    ProductMonotone(b - a, b' - a, w);
  }

  ghost predicate ConstantQueue(c: Config, q: int) { forall n :: c.queueSize(n) == q }

  /** How one sample may move the estimate: not at all, or to a correction with some gradient. */
  ghost predicate Moves(c: Config, e: real, e': real, q: int) {
    e' == e || exists g :: 0.5 <= g <= 1.0 && e' == Corrected(c, e, g, q)
  }

  lemma StepMoves(c: Config, s: State, x: Input, q: int)
    requires ConstantQueue(c, q) && s.estimate >= 0.0 && s.longRTT.window >= 0 && x.rtt > 0
    ensures Moves(c, s.estimate, Step(c, s, x).estimate, q)
  {
    var g := Gradient(E.Added(s.longRTT, x.rtt as real).value, x.rtt);
    assert 0.5 <= g <= 1.0;
  }

  /** The estimates after 0, 1, 2, ... samples. */
  ghost function Estimates(c: Config, xs: seq<Input>): (es: seq<real>)
    requires ValidRun(c, xs)
    ensures |es| == |xs| + 1 && es[|xs|] == Run(c, xs).estimate
  {
    (if xs == [] then [] else Estimates(c, xs[..|xs| - 1])) + [Run(c, xs).estimate]
  }

  ghost predicate MovesThrough(c: Config, es: seq<real>, q: int) {
    && |es| > 0 && es[0] == c.initial as real
    && (forall i :: 0 <= i < |es| ==> es[i] >= 0.0)
    && forall i :: 0 < i < |es| ==> Moves(c, es[i - 1], es[i], q)
  }

  lemma {:induction false} RunMoves(c: Config, xs: seq<Input>, q: int)
    requires ValidRun(c, xs) && ConstantQueue(c, q)
    ensures MovesThrough(c, Estimates(c, xs), q)
  {
    if xs != [] {
      var init := xs[..|xs| - 1];
      RunMoves(c, init, q);
      StepMoves(c, Run(c, init), xs[|xs| - 1], q);
    }
  }

  lemma MoveAbove(c: Config, e: real, e': real, q: int, floor: real)
    requires c.Valid() && Moves(c, e, e', q) && e >= 0.0
    requires floor <= e && floor <= 2.0 * q as real && floor <= c.maxLimit as real
    ensures floor <= e'
  {
    if e' != e {
      var g :| 0.5 <= g <= 1.0 && e' == Corrected(c, e, g, q);
      CorrectionFloor(e, g, q as real, c.smoothing);
    }
  }

  lemma {:induction false} MovesStayAbove(c: Config, es: seq<real>, q: int, floor: real, i: nat)
    requires c.Valid() && MovesThrough(c, es, q) && i < |es|
    requires floor <= c.initial as real && floor <= 2.0 * q as real && floor <= c.maxLimit as real
    ensures floor <= es[i]
  {
    if i > 0 {
      MovesStayAbove(c, es, q, floor, i - 1);
      MoveAbove(c, es[i - 1], es[i], q, floor);
    }
  }

  /** Gradient2 never collapses: with queue size q the estimate stays at or above
      min(initial, 2q, maxLimit) in every run. */
  lemma EstimateNeverCollapses(c: Config, xs: seq<Input>, q: int)
    requires ValidRun(c, xs) && ConstantQueue(c, q)
    ensures Run(c, xs).estimate >= MinReal(c.initial as real, MinReal(2.0 * q as real, c.maxLimit as real))
  {
    RunMoves(c, xs, q);
    var floor := MinReal(c.initial as real, MinReal(2.0 * q as real, c.maxLimit as real));
    MovesStayAbove(c, Estimates(c, xs), q, floor, |xs|);
  }

  /** x * f^n. */
  function Shrunk(x: real, f: real, n: nat): real { if n == 0 then x else Shrunk(x, f, n - 1) * f }

  /** x + n * gain. */
  function Grown(x: real, gain: real, n: nat): real { if n == 0 then x else Grown(x, gain, n - 1) + gain }

  lemma {:induction false} GrownIsLinear(x: real, gain: real, n: nat)
    ensures Grown(x, gain, n) == x + n as real * gain
  {
    if n > 0 {
      GrownIsLinear(x, gain, n - 1);
      assert n as real * gain == (n - 1) as real * gain + gain;
    }
  }

  lemma ClampBetween(lo: real, hi: real, e: real, b: real, low: real, high: real)
    requires lo <= e <= hi && low <= e <= high && low <= b <= high
    ensures low <= MaxReal(lo, MinReal(hi, b)) <= high
  {}

  lemma MoveInEnvelope(c: Config, e: real, e': real, q: int, f: real, gain: real)
    requires c.Valid() && Moves(c, e, e', q) && q >= 0 && c.minLimit as real <= e <= c.maxLimit as real
    requires f == 1.0 - c.smoothing / 2.0 && gain == c.smoothing * q as real
    ensures e * f <= e' <= e + gain
  {
    if e' == e {
      StandingStillInEnvelope(e, q as real, c.smoothing, f, gain);
    } else {
      var g :| 0.5 <= g <= 1.0 && e' == Corrected(c, e, g, q);
      CorrectedInEnvelope(c, e, g, q, f, gain);
    }
  }

  lemma {:induction false} MovesStayInside(c: Config, es: seq<real>, q: int, i: nat)
    requires c.Valid() && MovesThrough(c, es, q) && i < |es| && c.minLimit <= c.initial <= c.maxLimit
    ensures c.minLimit as real <= es[i] <= c.maxLimit as real
  {
    if i > 0 {
      MovesStayInside(c, es, q, i - 1);
      assert Moves(c, es[i - 1], es[i], q);
    }
  }

  /** Each value is at least `f` times the one before it and at most `gain` more. */
  ghost predicate Drifts(es: seq<real>, f: real, gain: real) {
    forall i :: 0 < i < |es| ==> es[i - 1] * f <= es[i] <= es[i - 1] + gain
  }

  lemma MovesDrift(c: Config, es: seq<real>, q: int, f: real, gain: real)
    requires c.Valid() && MovesThrough(c, es, q) && q >= 0 && c.minLimit <= c.initial <= c.maxLimit
    requires f == 1.0 - c.smoothing / 2.0 && gain == c.smoothing * q as real
    ensures Drifts(es, f, gain)
  {
    forall i | 0 < i < |es| ensures es[i - 1] * f <= es[i] <= es[i - 1] + gain {
      MovesStayInside(c, es, q, i - 1);
      MoveInEnvelope(c, es[i - 1], es[i], q, f, gain);
    }
  }

  lemma {:induction false} DriftEnvelope(es: seq<real>, f: real, gain: real, i: nat)
    requires Drifts(es, f, gain) && f >= 0.0 && i < |es|
    ensures Shrunk(es[0], f, i) <= es[i] <= Grown(es[0], gain, i)
  {
    if i > 0 {
      DriftEnvelope(es, f, gain, i - 1);
      ProductMonotone(Shrunk(es[0], f, i - 1), es[i - 1], f);
    }
  }

  /** Started inside its limits, the estimate stays inside them, and after n samples lies between
      initial * (1 - s/2)^n and initial + n * s * q. */
  lemma EstimateStaysInEnvelope(c: Config, xs: seq<Input>, q: int)
    requires ValidRun(c, xs) && ConstantQueue(c, q) && q >= 0
    requires c.minLimit <= c.initial <= c.maxLimit
    ensures c.minLimit as real <= Run(c, xs).estimate <= c.maxLimit as real
    ensures Shrunk(c.initial as real, 1.0 - c.smoothing / 2.0, |xs|) <= Run(c, xs).estimate
            <= Grown(c.initial as real, c.smoothing * q as real, |xs|)
  {
    RunMoves(c, xs, q);
    var f, gain := 1.0 - c.smoothing / 2.0, c.smoothing * q as real;
    MovesDrift(c, Estimates(c, xs), q, f, gain);
    MovesStayInside(c, Estimates(c, xs), q, |xs|);
    DriftEnvelope(Estimates(c, xs), f, gain, |xs|);
  }

  // ---------------------------------------------------------------- the object

  class Gradient2Limit {
    const config: Config
    var estimatedLimit: real
    const longRTT: E.ExponentialAverageMeasurement

    function View(): State reads this, longRTT { State(estimatedLimit, longRTT.View()) }

    ghost predicate Valid() reads this, longRTT {
      config.Valid() && estimatedLimit >= 1.0 && longRTT.window == config.longWindow
    }

    constructor (config: Config)
      requires config.Valid()
      ensures Valid() && fresh(longRTT) && this.config == config && View() == Start(config)
    {
      this.config := config;
      estimatedLimit := config.initial as real;
      longRTT := new E.ExponentialAverageMeasurement(config.longWindow, WARMUP);
    }

    method OnSample(rtt: int, inFlight: int) returns (estimate: int)
      requires Valid() && rtt > 0
      modifies this, longRTT
      ensures Valid() && View() == Step(config, old(View()), Input(rtt, inFlight)) && estimate >= 1
    {
      var queueSize := config.queueSize(estimatedLimit.Floor);
      var shortRTT := rtt as real;
      var long := longRTT.Add(rtt as real);
      if long / shortRTT > 2.0 {
        longRTT.Update(value => value * 0.9);
      }
      if inFlight as real < estimatedLimit / 2.0 {
        return estimatedLimit.Floor;
      }
      var gradient := MaxReal(0.5, MinReal(1.0, long / shortRTT));
      Correct(gradient, queueSize);
      estimate := estimatedLimit.Floor;
    }

    /** The arithmetic at the end of OnSample. */
    method Correct(gradient: real, queueSize: int)
      requires config.Valid()
      modifies this`estimatedLimit
      ensures estimatedLimit == Corrected(config, old(estimatedLimit), gradient, queueSize)
    {
      var newLimit := estimatedLimit * gradient + queueSize as real;
      newLimit := Smooth(estimatedLimit, newLimit, config.smoothing);
      estimatedLimit := MaxReal(config.minLimit as real, MinReal(config.maxLimit as real, newLimit));
    }
  }
}

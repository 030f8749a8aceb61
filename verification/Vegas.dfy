/** VegasLimit (limit/vegas.go).  float64 is modelled by real and round trips are positive; the
    jitter drawn at each probe is an input.  The whole of OnSample runs under one mutex. */
module Vegas {
  import opened Basics
  import opened LimitFunctions
  import opened Reals
  import Minimum

  /** The estimate never leaves this range, so the functions are only asked about it. */
  type Estimate = x: real | x >= 1.0 witness 1.0

  datatype Config = Config(
    initial: int, maxLimit: int, smoothing: real, probeMultiplier: int,
    alpha: nat -> int, beta: nat -> int, threshold: nat -> int,
    increase: Estimate -> real, decrease: Estimate -> real)
  {
    predicate Valid() {
      initial >= 1 && maxLimit >= 0 && 0.0 <= smoothing <= 1.0 && probeMultiplier >= 1
    }

    /** The highest estimate any run can reach. */
    function Top(): int { Max(initial, Max(maxLimit, 1)) }
  }

  /** The replacements NewVegasLimitWithRegistry makes always give a valid configuration. */
  function Normalised(c: Config): (n: Config)
    ensures n.Valid()
    ensures c.Valid() ==> n == c
  {
    c.(initial := if c.initial < 1 then 20 else c.initial,
       maxLimit := if c.maxLimit < 0 then 1000 else c.maxLimit,
       smoothing := if c.smoothing < 0.0 || c.smoothing > 1.0 then 1.0 else c.smoothing,
       probeMultiplier := if c.probeMultiplier <= 0 then 30 else c.probeMultiplier)
  }

  /** Each argument that is in range is taken, and each that is not is replaced by its default. */
  lemma ArgumentsAndDefaults(c: Config)
    ensures var n := Normalised(c);
            && (if c.initial >= 1 then n.initial == c.initial else n.initial == 20)
            && (if c.maxLimit >= 0 then n.maxLimit == c.maxLimit else n.maxLimit == 1000)
            && (if 0.0 <= c.smoothing <= 1.0 then n.smoothing == c.smoothing else n.smoothing == 1.0)
            && (if c.probeMultiplier >= 1 then n.probeMultiplier == c.probeMultiplier else n.probeMultiplier == 30)
  {}

  datatype Input = Input(rtt: int, inFlight: int, didDrop: bool, jitter: real) {
    predicate Valid() { rtt > 0 && 0.5 <= jitter < 1.0 }
  }

  datatype State = State(estimate: real, rttNoLoad: real, probeCount: int, jitter: real)

  /** shouldProbe. */
  predicate ShouldProbe(jitter: real, multiplier: int, estimate: real, count: int) {
    ProbeGap(jitter, multiplier, estimate) <= count
  }

  function ProbeGap(jitter: real, multiplier: int, estimate: real): int {
    (jitter * multiplier as real * estimate).Floor
  }

  /** The next sample is a probe: probeCount is incremented before the test. */
  predicate Probes(c: Config, s: State) {
    ShouldProbe(s.jitter, c.probeMultiplier, s.estimate, s.probeCount + 1)
  }

  function QueueSize(estimate: real, rttNoLoad: real, rtt: int): int
    requires rtt > 0
  {
    Ceil(estimate * (1.0 - rttNoLoad / rtt as real))
  }

  /** Where the estimate should go before it is clamped and smoothed, if anywhere. */
  function Target(c: Config, estimate: Estimate, queueSize: int, inFlight: int, didDrop: bool): Option<real> {
    var n: nat := estimate.Floor;
    if didDrop then Some(c.decrease(estimate))
    else if inFlight as real * 2.0 < estimate then None
    else if queueSize < c.threshold(n) then Some(estimate + c.beta(n) as real)
    else if queueSize < c.alpha(n) then Some(c.increase(estimate))
    else if queueSize > c.beta(n) then Some(c.decrease(estimate))
    else None
  }

  function Clamped(c: Config, t: real): real { MaxReal(1.0, MinReal(c.maxLimit as real, t)) }

  function Moved(c: Config, estimate: Estimate, target: Option<real>): real {
    match target
    case None => estimate
    case Some(t) => Blend(estimate, Clamped(c, t), c.smoothing)
  }

  function NextEstimate(c: Config, s: State, x: Input): real
    requires s.estimate >= 1.0 && x.Valid()
  {
    Moved(c, s.estimate, Target(c, s.estimate, QueueSize(s.estimate, s.rttNoLoad, x.rtt), x.inFlight, x.didDrop))
  }

  function Step(c: Config, s: State, x: Input): State
    requires s.estimate >= 1.0 && x.Valid()
  {
    if Probes(c, s) then State(s.estimate, x.rtt as real, 0, x.jitter)
    else if s.rttNoLoad == 0.0 || x.rtt as real < s.rttNoLoad then
      s.(rttNoLoad := Minimum.Added(s.rttNoLoad, x.rtt as real), probeCount := s.probeCount + 1)
    else s.(estimate := NextEstimate(c, s, x), probeCount := s.probeCount + 1)
  }

  // ---------------------------------------------------------------- one step

  predicate Inv(c: Config, s: State) {
    && 1.0 <= s.estimate <= c.Top() as real
    && 0.5 <= s.jitter < 1.0 && s.rttNoLoad >= 0.0
    && 0 <= s.probeCount < c.probeMultiplier * c.Top()
  }

  lemma ProbeProductBound(jitter: real, m: real, estimate: real, top: real)
    requires 0.5 <= jitter < 1.0 && m >= 1.0 && 1.0 <= estimate <= top
    ensures jitter * m * estimate <= m * top
  {
    var me := m * estimate;
    ProductNonNegative(m, estimate);
    ProductMonotone(estimate, top, m);
    ScaledDown(jitter, me);
    assert jitter * m * estimate == jitter * me;
  }

  lemma ProbeIsDueBy(jitter: real, m: int, estimate: real, top: int, count: int)
    requires 0.5 <= jitter < 1.0 && m >= 1 && 1.0 <= estimate <= top as real
    ensures count >= m * top ==> ShouldProbe(jitter, m, estimate, count)
  {
    ProbeProductBound(jitter, m as real, estimate, top as real);
    CastProduct(m, top);
    FloorAtMost(jitter * m as real * estimate, m * top);
  }

  /** A sample that does not probe leaves the count below its bound. */
  lemma CountStaysBelow(c: Config, s: State)
    requires c.Valid() && Inv(c, s)
    ensures c.probeMultiplier * c.Top() >= 1
    ensures !Probes(c, s) ==> s.probeCount + 1 < c.probeMultiplier * c.Top()
  {
    ProbeIsDueBy(s.jitter, c.probeMultiplier, s.estimate, c.Top(), s.probeCount + 1);
    IntProductPositive(c.probeMultiplier, c.Top());
  }

  lemma NextEstimateInBounds(c: Config, s: State, x: Input)
    requires c.Valid() && 1.0 <= s.estimate <= c.Top() as real && x.Valid()
    ensures 1.0 <= NextEstimate(c, s, x) <= c.Top() as real
  {
    match Target(c, s.estimate, QueueSize(s.estimate, s.rttNoLoad, x.rtt), x.inFlight, x.didDrop)
    case None =>
    case Some(t) => BlendBetween(s.estimate, Clamped(c, t), c.smoothing, 1.0, c.Top() as real);
  }

  lemma StepKeepsInv(c: Config, s: State, x: Input)
    requires c.Valid() && Inv(c, s) && x.Valid()
    ensures Inv(c, Step(c, s, x))
  {
    CountStaysBelow(c, s);
    NextEstimateInBounds(c, s, x);
  }

  // ---------------------------------------------------------------- whole runs

  function Start(c: Config, jitter: real): State { State(c.initial as real, 0.0, 0, jitter) }

  ghost predicate ValidRun(c: Config, jitter: real, xs: seq<Input>) {
    c.Valid() && 0.5 <= jitter < 1.0 && forall i :: 0 <= i < |xs| ==> xs[i].Valid()
  }

  /** The state after the samples `xs`, which satisfies the bounds. */
  ghost function Run(c: Config, jitter: real, xs: seq<Input>): (s: State)
    requires ValidRun(c, jitter, xs)
    ensures Inv(c, s)
  {
    if xs == [] then
      IntProductPositive(c.probeMultiplier, c.Top());
      Start(c, jitter)
    else
      var s := Run(c, jitter, xs[..|xs| - 1]);
      StepKeepsInv(c, s, xs[|xs| - 1]);
      Step(c, s, xs[|xs| - 1])
  }

  lemma QueueSizeInRange(estimate: real, rttNoLoad: real, rtt: int)
    requires estimate >= 0.0 && 0.0 <= rttNoLoad <= rtt as real && rtt > 0
    ensures 0 <= QueueSize(estimate, rttNoLoad, rtt) <= Ceil(estimate)
  {
    var left := 1.0 - rttNoLoad / rtt as real;
    RatioBetween(rttNoLoad, rtt as real);
    ScaledDown(left, estimate);
    assert estimate * left == left * estimate;
    CeilMonotone(0.0, estimate * left);
    CeilMonotone(estimate * left, estimate);
  }

  /** The queue size is the least integer that covers what of the estimate the round trip in excess of the
      baseline accounts for. */
  lemma QueueSizeIsLeast(estimate: real, rttNoLoad: real, rtt: int, k: int)
    requires rtt > 0
    ensures k >= QueueSize(estimate, rttNoLoad, rtt) <==> QueuesAtMost(estimate, rttNoLoad, rtt, k)
  {
    var r := rtt as real;
    var ratio := rttNoLoad / r;
    var x := estimate * (1.0 - ratio);
    ExcessShare(estimate, rttNoLoad, r, ratio, x);
    ScaledComparison(x, k as real, r);
    CeilAtMost(x, k);
  }

  lemma ExcessShare(estimate: real, rttNoLoad: real, r: real, ratio: real, x: real)
    requires r > 0.0 && ratio == rttNoLoad / r && x == estimate * (1.0 - ratio)
    ensures x * r == estimate * (r - rttNoLoad)
  {
    var left := 1.0 - ratio;
    assert ratio * r == rttNoLoad;
    assert left * r == r - rttNoLoad;
    assert estimate * left * r == estimate * (left * r);
  }

  /** Of `estimate` calls, at most `k` are queueing. */
  predicate QueuesAtMost(estimate: real, rttNoLoad: real, rtt: int, k: int) {
    estimate * (rtt as real - rttNoLoad) <= k as real * rtt as real
  }

  /** Vegas stays in bounds and well defined for any samples, any functions, any smoothing and any
      jitter: the estimate is in [1, max(initial, maxLimit, 1)], and whenever the queue size is
      computed it is an integer in [0, ceil(estimate)]. */
  lemma EstimateStaysInBounds(c: Config, jitter: real, xs: seq<Input>, x: Input)
    requires ValidRun(c, jitter, xs) && x.Valid()
    ensures var s := Run(c, jitter, xs);
            && 1.0 <= s.estimate <= c.Top() as real
            && (s.rttNoLoad != 0.0 && x.rtt as real >= s.rttNoLoad ==>
                  0 <= QueueSize(s.estimate, s.rttNoLoad, x.rtt) <= Ceil(s.estimate))
  {
    var s := Run(c, jitter, xs);
    if s.rttNoLoad != 0.0 && x.rtt as real >= s.rttNoLoad {
      QueueSizeInRange(s.estimate, s.rttNoLoad, x.rtt);
    }
  }

  /** Whether sample number `i` is a probe. */
  ghost predicate ProbedAt(c: Config, jitter: real, xs: seq<Input>, i: nat)
    requires ValidRun(c, jitter, xs) && i < |xs|
  {
    Probes(c, Run(c, jitter, xs[..i]))
  }

  /** The position of the last probe among `xs`, or 0 when there is none. */
  ghost function LastProbe(c: Config, jitter: real, xs: seq<Input>): (k: nat)
    requires ValidRun(c, jitter, xs)
    ensures k <= |xs| && (xs != [] ==> k < |xs|)
  {
    if xs == [] then 0
    else if ProbedAt(c, jitter, xs, |xs| - 1) then |xs| - 1
    else LastProbe(c, jitter, xs[..|xs| - 1])
  }

  function RTTs(xs: seq<Input>): seq<real> { seq(|xs|, i requires 0 <= i < |xs| => xs[i].rtt as real) }

  /** The baseline is the true minimum: rttNoLoad is the smallest round trip since the last probe,
      the probe's own included. */
  lemma {:induction false} BaselineIsMinimumSinceProbe(c: Config, jitter: real, xs: seq<Input>)
    requires ValidRun(c, jitter, xs)
    ensures Minimum.IsMinimum(Run(c, jitter, xs).rttNoLoad, RTTs(xs[LastProbe(c, jitter, xs)..]))
  {
    if xs != [] {
      var init, x := xs[..|xs| - 1], xs[|xs| - 1];
      BaselineIsMinimumSinceProbe(c, jitter, init);
      var s, k := Run(c, jitter, init), LastProbe(c, jitter, xs);
      if ProbedAt(c, jitter, xs, |xs| - 1) {
        assert RTTs(xs[k..]) == [x.rtt as real];
      } else {
        assert RTTs(xs[k..]) == RTTs(init[k..]) + [x.rtt as real];
        Minimum.AddedIsMinimum(s.rttNoLoad, RTTs(init[k..]), x.rtt as real);
      }
    }
  }

  /** How many samples have come since the last probe, and the jitter drawn then. */
  ghost function SinceProbe(c: Config, jitter: real, xs: seq<Input>): nat
    requires ValidRun(c, jitter, xs)
  {
    if xs == [] || ProbedAt(c, jitter, xs, |xs| - 1) then 0 else SinceProbe(c, jitter, xs[..|xs| - 1]) + 1
  }

  ghost function DrawnJitter(c: Config, jitter: real, xs: seq<Input>): real
    requires ValidRun(c, jitter, xs)
  {
    if xs == [] then jitter
    else if ProbedAt(c, jitter, xs, |xs| - 1) then xs[|xs| - 1].jitter
    else DrawnJitter(c, jitter, xs[..|xs| - 1])
  }

  lemma {:induction false} CountIsSinceProbe(c: Config, jitter: real, xs: seq<Input>)
    requires ValidRun(c, jitter, xs)
    ensures Run(c, jitter, xs).probeCount == SinceProbe(c, jitter, xs)
    ensures Run(c, jitter, xs).jitter == DrawnJitter(c, jitter, xs)
  {
    if xs != [] {
      CountIsSinceProbe(c, jitter, xs[..|xs| - 1]);
    }
  }

  /** The rule for probes over a run: a sample is one if and only if, counting it, there have been as many
      since the last probe as the jitter drawn then asks for. */
  lemma {:induction false} ProbeRule(c: Config, jitter: real, xs: seq<Input>, k: nat)
    requires ValidRun(c, jitter, xs) && k < |xs|
    ensures ProbedAt(c, jitter, xs, k) <==>
              ProbeGap(DrawnJitter(c, jitter, xs[..k]), c.probeMultiplier, Run(c, jitter, xs[..k]).estimate)
              <= SinceProbe(c, jitter, xs[..k]) + 1
  {
    CountIsSinceProbe(c, jitter, xs[..k]);
  }

  /** `n` samples are at least probeMultiplier * estimate, or not even about half as many. */
  predicate Overdue(n: int, m: int, estimate: real) { n as real >= m as real * estimate }
  predicate TooEarly(n: int, m: int, estimate: real) { (n + 1) as real <= 0.5 * (m as real * estimate) }

  lemma ProbeProductHalf(jitter: real, m: real, estimate: real)
    requires 0.5 <= jitter && m >= 1.0 && estimate >= 1.0
    ensures jitter * m * estimate >= 0.5 * (m * estimate)
  {
    var me := m * estimate;
    ProductNonNegative(m, estimate);
    ProductMonotone(0.5, jitter, me);
    assert jitter * m * estimate == jitter * me;
  }

  lemma GapBounds(jitter: real, m: int, estimate: real, n: int)
    requires 0.5 <= jitter < 1.0 && m >= 1 && estimate >= 1.0
    ensures Overdue(n, m, estimate) ==> ProbeGap(jitter, m, estimate) <= n
    ensures ProbeGap(jitter, m, estimate) <= n ==> !TooEarly(n, m, estimate)
  {
    ProbeProductBound(jitter, m as real, estimate, estimate);
    ProbeProductHalf(jitter, m as real, estimate);
    FloorBetween(jitter * m as real * estimate, m as real * estimate, n);
  }

  lemma FloorBetween(x: real, y: real, n: int)
    requires 0.5 * y <= x <= y
    ensures n as real >= y ==> x.Floor <= n
    ensures x.Floor <= n ==> (n + 1) as real > 0.5 * y
  {}

  /** When a sample is a probe, counting from the last one and whatever was drawn then: for sure from
      probeMultiplier * estimate samples on, and never before about half as many. */
  lemma {:induction false} ProbeTiming(c: Config, jitter: real, xs: seq<Input>, k: nat)
    requires ValidRun(c, jitter, xs) && k < |xs|
    ensures var n, estimate := SinceProbe(c, jitter, xs[..k]) + 1, Run(c, jitter, xs[..k]).estimate;
            && (Overdue(n, c.probeMultiplier, estimate) ==> ProbedAt(c, jitter, xs, k))
            && (ProbedAt(c, jitter, xs, k) ==> !TooEarly(n, c.probeMultiplier, estimate))
  {
    CountIsSinceProbe(c, jitter, xs[..k]);
    StateTiming(c, Run(c, jitter, xs[..k]));
  }

  lemma StateTiming(c: Config, s: State)
    requires c.Valid() && Inv(c, s)
    ensures Overdue(s.probeCount + 1, c.probeMultiplier, s.estimate) ==> Probes(c, s)
    ensures Probes(c, s) ==> !TooEarly(s.probeCount + 1, c.probeMultiplier, s.estimate)
  {
    GapBounds(s.jitter, c.probeMultiplier, s.estimate, s.probeCount + 1);
  }

  lemma {:induction false} SinceProbeAtMost(c: Config, jitter: real, xs: seq<Input>, i: nat)
    requires ValidRun(c, jitter, xs) && i < |xs| && ProbedAt(c, jitter, xs, i)
    ensures SinceProbe(c, jitter, xs) <= |xs| - 1 - i
  {
    if i < |xs| - 1 {
      assert xs[..|xs| - 1][..i] == xs[..i];
      SinceProbeAtMost(c, jitter, xs[..|xs| - 1], i);
    }
  }

  /** Two probes are at least about half of probeMultiplier times the estimate apart. */
  lemma {:induction false} ProbesAreSpaced(c: Config, jitter: real, xs: seq<Input>, i: nat, k: nat)
    requires ValidRun(c, jitter, xs) && i < k < |xs|
    requires ProbedAt(c, jitter, xs, i) && ProbedAt(c, jitter, xs, k)
    ensures !TooEarly(k - i, c.probeMultiplier, Run(c, jitter, xs[..k]).estimate)
  {
    ProbeTiming(c, jitter, xs, k);
    assert xs[..k][..i] == xs[..i];
    SinceProbeAtMost(c, jitter, xs[..k], i);
    var n, estimate := SinceProbe(c, jitter, xs[..k]) + 1, Run(c, jitter, xs[..k]).estimate;
    if TooEarly(k - i, c.probeMultiplier, estimate) {
      LaterIsNotEarlier(n, k - i, c.probeMultiplier, estimate);
    }
  }

  lemma LaterIsNotEarlier(n: int, n': int, m: int, estimate: real)
    requires n <= n' && TooEarly(n', m, estimate)
    ensures TooEarly(n, m, estimate)
  {}

  lemma {:induction false} CountGrowsBetweenProbes(c: Config, jitter: real, xs: seq<Input>, i: nat)
    requires ValidRun(c, jitter, xs) && i <= |xs|
    requires forall k :: i <= k < |xs| ==> !ProbedAt(c, jitter, xs, k)
    ensures Run(c, jitter, xs).probeCount >= |xs| - i
  {
    if i < |xs| {
      var init := xs[..|xs| - 1];
      forall k | i <= k < |init| ensures !ProbedAt(c, jitter, init, k) {
        assert init[..k] == xs[..k];
        assert !ProbedAt(c, jitter, xs, k);
      }
      CountGrowsBetweenProbes(c, jitter, init, i);
      assert !ProbedAt(c, jitter, xs, |xs| - 1);
    }
  }

  /** The baseline is never too old: among any probeMultiplier * max(initial, maxLimit, 1) consecutive
      samples of a run, at least one is a probe, whatever the jitter. */
  lemma ProbesAreFrequent(c: Config, jitter: real, xs: seq<Input>, i: nat) returns (k: nat)
    requires ValidRun(c, jitter, xs) && i + c.probeMultiplier * c.Top() <= |xs|
    ensures i <= k < i + c.probeMultiplier * c.Top() && k < |xs| && ProbedAt(c, jitter, xs, k)
  {
    var m := c.probeMultiplier * c.Top();
    var part := xs[..i + m];
    if forall k :: i <= k < |part| ==> !ProbedAt(c, jitter, part, k) {
      CountGrowsBetweenProbes(c, jitter, part, i);
      assert false;
    }
    k :| i <= k < |part| && ProbedAt(c, jitter, part, k);
    assert part[..k] == xs[..k];
  }

  // ---------------------------------------------------------------- the default functions

  /** The functions a nil argument is replaced by, over the log10 table. */
  function WithDefaults(c: Config, table: seq<int>, log10: real -> real): Config {
    c.(alpha := (n: nat) => 3 * Log10Root(table, 0, n),
       beta := (n: nat) => 6 * Log10Root(table, 0, n),
       threshold := (n: nat) => Log10Root(table, 0, n),
       increase := (x: Estimate) => x + Log10RootFloat(table, log10, 0.0, x),
       decrease := (x: Estimate) => x - Log10RootFloat(table, log10, 0.0, x))
  }

  /** With the default functions the estimate moves the way the algorithm describes: a drop never
      raises it; otherwise it does not fall (below maxLimit) while the queue is under alpha, does not
      rise when the queue is over beta, and stands still in between or when far from the limit. */
  lemma DefaultsMoveTheRightWay(c0: Config, table: seq<int>, log10: real -> real, s: State, x: Input)
    requires c0.Valid() && IsLog10Table(table) && IsLog10(log10) && x.Valid()
    requires Inv(c0, s)
    ensures var c := WithDefaults(c0, table, log10);
            var n: nat := s.estimate.Floor;
            var q := QueueSize(s.estimate, s.rttNoLoad, x.rtt);
            var e' := NextEstimate(c, s, x);
            && (x.didDrop || q > c.beta(n) ==> e' <= s.estimate)
            && (!x.didDrop && q < c.alpha(n) && s.estimate <= c.maxLimit as real ==> e' >= s.estimate)
            && (!x.didDrop && (c.alpha(n) <= q <= c.beta(n) || x.inFlight as real * 2.0 < s.estimate)
                ==> e' == s.estimate)
            && (x.didDrop ==> Step(c, s, x).estimate <= s.estimate)
  {
    var c := WithDefaults(c0, table, log10);
    var n: nat := s.estimate.Floor;
    var q := QueueSize(s.estimate, s.rttNoLoad, x.rtt);
    Log10RootIsUniform(table, 0, n);
    Log10RootFloatIsPositive(table, log10, s.estimate);
    match Target(c, s.estimate, q, x.inFlight, x.didDrop)
    case None =>
    case Some(t) => SmoothingKeepsDirection(c, s.estimate, t);
  }

  /** The estimate goes a fraction `smoothing` of the way to `t`, or to the nearest of 1 and maxLimit when
      that is out of bounds. */
  predicate MovesTowards(c: Config, estimate: real, estimate': real, t: real) {
    var goal := if c.maxLimit < 1 || t < 1.0 then 1.0
                else if t > c.maxLimit as real then c.maxLimit as real
                else t;
    estimate' - estimate == c.smoothing * (goal - estimate)
  }

  lemma MovedTowards(c: Config, estimate: Estimate, t: real)
    requires c.Valid()
    ensures MovesTowards(c, estimate, Moved(c, estimate, Some(t)), t)
  {}

  /** What a sample does, told by its round trip: a probe makes it the baseline and keeps the estimate, a
      shorter one than the baseline (or a first one) becomes the baseline and keeps the estimate, and
      any other keeps the baseline. */
  lemma SampleOutcome(c: Config, s: State, x: Input)
    requires c.Valid() && Inv(c, s) && x.Valid()
    ensures var s', rtt := Step(c, s, x), x.rtt as real;
            && (Probes(c, s) ==> s' == State(s.estimate, rtt, 0, x.jitter))
            && (!Probes(c, s) ==> s'.jitter == s.jitter && s'.probeCount == s.probeCount + 1)
            && (!Probes(c, s) && (s.rttNoLoad == 0.0 || rtt < s.rttNoLoad) ==>
                  s'.estimate == s.estimate && s'.rttNoLoad == rtt)
            && (!Probes(c, s) && 0.0 < s.rttNoLoad <= rtt ==>
                  s'.estimate == NextEstimate(c, s, x) && s'.rttNoLoad == s.rttNoLoad)
  {}

  /** The whole rule with the default functions, in terms of round trips.  With l the integer logarithm of
      the estimate (at least 1): far from the limit it stands still; with fewer than l calls queueing it
      goes for 6 * l more, with fewer than 3 * l for a logarithm more, with more than 6 * l (or a drop)
      for a logarithm less, and in between it stands still. */
  lemma DefaultsByRoundTrip(c0: Config, table: seq<int>, log10: real -> real, s: State, x: Input)
    requires c0.Valid() && IsLog10Table(table) && IsLog10(log10) && x.Valid() && Inv(c0, s)
    ensures var c, e, l := WithDefaults(c0, table, log10), s.estimate, Max(1, ILog10(s.estimate.Floor));
            var e', step := NextEstimate(c, s, x), Log10RootFloat(table, log10, 0.0, e);
            if x.didDrop then MovesTowards(c, e, e', e - step)
            else if 2.0 * x.inFlight as real < e then e' == e
            else if QueuesAtMost(e, s.rttNoLoad, x.rtt, l - 1) then MovesTowards(c, e, e', e + (6 * l) as real)
            else if QueuesAtMost(e, s.rttNoLoad, x.rtt, 3 * l - 1) then MovesTowards(c, e, e', e + step)
            else if !QueuesAtMost(e, s.rttNoLoad, x.rtt, 6 * l) then MovesTowards(c, e, e', e - step)
            else e' == e
  {
    var c, e, l := WithDefaults(c0, table, log10), s.estimate, Max(1, ILog10(s.estimate.Floor));
    Log10RootIsUniform(table, 0, s.estimate.Floor);
    QueueSizeIsLeast(e, s.rttNoLoad, x.rtt, l - 1);
    QueueSizeIsLeast(e, s.rttNoLoad, x.rtt, 3 * l - 1);
    QueueSizeIsLeast(e, s.rttNoLoad, x.rtt, 6 * l);
    var q := QueueSize(e, s.rttNoLoad, x.rtt);
    match Target(c, e, q, x.inFlight, x.didDrop)
    case None =>
    case Some(t) => MovedTowards(c, e, t);
  }

  /** In particular, a sample at the baseline, near the limit and not dropped, means no queueing and the
      largest step up. */
  lemma NoQueueingGrows(c0: Config, table: seq<int>, log10: real -> real, s: State, x: Input)
    requires c0.Valid() && IsLog10Table(table) && IsLog10(log10) && x.Valid() && Inv(c0, s)
    requires !x.didDrop && x.rtt as real == s.rttNoLoad && 2.0 * x.inFlight as real >= s.estimate
    ensures var c := WithDefaults(c0, table, log10);
            && QueueSize(s.estimate, s.rttNoLoad, x.rtt) == 0
            && MovesTowards(c, s.estimate, NextEstimate(c, s, x),
                            s.estimate + (6 * Max(1, ILog10(s.estimate.Floor))) as real)
  {
    NothingQueues(s.estimate, x.rtt, Max(1, ILog10(s.estimate.Floor)) - 1);
    DefaultsByRoundTrip(c0, table, log10, s, x);
  }

  lemma NothingQueues(estimate: real, rtt: int, k: int)
    requires rtt > 0 && k >= 0 && estimate >= 1.0
    ensures QueueSize(estimate, rtt as real, rtt) == 0 && QueuesAtMost(estimate, rtt as real, rtt, k)
  {
    QueueSizeInRange(estimate, rtt as real, rtt);
    QueueSizeIsLeast(estimate, rtt as real, rtt, 0);
    QueueSizeIsLeast(estimate, rtt as real, rtt, k);
  }

  /** "Treat any drop as needing to reduce the limit": with the default functions a dropped sample lowers
      the estimate if and only if it neither probes nor sets a new baseline, some of the change gets
      through the smoothing, and the estimate is not at its floor. */
  lemma DropLowersIff(c0: Config, table: seq<int>, log10: real -> real, s: State, x: Input)
    requires c0.Valid() && IsLog10Table(table) && IsLog10(log10) && x.Valid() && Inv(c0, s)
    requires x.didDrop
    ensures var c := WithDefaults(c0, table, log10);
            Step(c, s, x).estimate < s.estimate
            <==> !Probes(c, s) && s.rttNoLoad != 0.0 && x.rtt as real >= s.rttNoLoad
                 && c.smoothing > 0.0 && s.estimate > 1.0
  {
    var c := WithDefaults(c0, table, log10);
    Log10RootFloatIsPositive(table, log10, s.estimate);
    ReducedIff(c, s.estimate, c.decrease(s.estimate));
    DropMoves(c, s, x);
  }

  /** A dropped sample that reaches the update goes for the decrease function, whatever the queue. */
  lemma DropMoves(c: Config, s: State, x: Input)
    requires s.estimate >= 1.0 && x.Valid() && x.didDrop
    ensures Step(c, s, x).estimate ==
            if Probes(c, s) || s.rttNoLoad == 0.0 || x.rtt as real < s.rttNoLoad then s.estimate
            else Moved(c, s.estimate, Some(c.decrease(s.estimate)))
  {}

  lemma ReducedIff(c: Config, estimate: Estimate, t: real)
    requires 0.0 <= c.smoothing <= 1.0 && t < estimate
    ensures Moved(c, estimate, Some(t)) < estimate <==> c.smoothing > 0.0 && estimate > 1.0
  {
    BlendLowersIff(estimate, Clamped(c, t), c.smoothing);
  }

  lemma SmoothingKeepsDirection(c: Config, estimate: real, t: real)
    requires 0.0 <= c.smoothing <= 1.0 && estimate >= 1.0
    ensures t <= estimate ==> Blend(estimate, Clamped(c, t), c.smoothing) <= estimate
    ensures t >= estimate && estimate <= c.maxLimit as real ==>
              Blend(estimate, Clamped(c, t), c.smoothing) >= estimate
  {
    var target := Clamped(c, t);
    BlendBetween(estimate, target, c.smoothing, MinReal(estimate, target), MaxReal(estimate, target));
  }

  // ---------------------------------------------------------------- the object

  class VegasLimit {
    const config: Config
    var estimatedLimit: real
    var rttNoLoad: Minimum.MinimumMeasurement
    var probeCount: int
    var probeJitter: real

    function View(): State reads this, rttNoLoad {
      State(estimatedLimit, rttNoLoad.value, probeCount, probeJitter)
    }

    ghost predicate Valid() reads this, rttNoLoad { config.Valid() && Inv(config, View()) }

    constructor (c: Config, jitter: real)
      requires 0.5 <= jitter < 1.0
      ensures Valid() && fresh(rttNoLoad) && config == Normalised(c) && View() == Start(config, jitter)
    {
      config := Normalised(c);
      estimatedLimit := (if c.initial < 1 then 20 else c.initial) as real;
      rttNoLoad := new Minimum.MinimumMeasurement();
      probeCount, probeJitter := 0, jitter;
      new;
      IntProductPositive(config.probeMultiplier, config.Top());
    }

    /** `jitter` is what newProbeJitter would draw.  Always answers a limit of at least 1. */
    method OnSample(rtt: int, inFlight: int, didDrop: bool, jitter: real) returns (estimate: int)
      requires Valid() && rtt > 0 && 0.5 <= jitter < 1.0
      modifies this, rttNoLoad
      ensures View() == Step(config, old(View()), Input(rtt, inFlight, didDrop, jitter))
      ensures Valid() && 1 <= estimate <= config.Top()
    {
      ghost var before, x := View(), Input(rtt, inFlight, didDrop, jitter);
      probeCount := probeCount + 1;
      if ShouldProbe(probeJitter, config.probeMultiplier, estimatedLimit, probeCount) {
        probeJitter, probeCount := jitter, 0;
        rttNoLoad := new Minimum.MinimumMeasurement();
        var _, _ := rttNoLoad.Add(rtt as real);
      } else if rttNoLoad.value == 0.0 || rtt as real < rttNoLoad.value {
        var _, _ := rttNoLoad.Add(rtt as real);
      } else {
        UpdateEstimatedLimit(rtt, inFlight, didDrop);
      }
      StepKeepsInv(config, before, x);
      estimate := estimatedLimit.Floor;
    }

    method UpdateEstimatedLimit(rtt: int, inFlight: int, didDrop: bool)
      requires config.Valid() && estimatedLimit >= 1.0 && rtt > 0
      modifies this`estimatedLimit
      ensures var before := old(estimatedLimit);
              estimatedLimit == Moved(config, before,
                Target(config, before, QueueSize(before, rttNoLoad.value, rtt), inFlight, didDrop))
    {
      var queueSize := QueueSize(estimatedLimit, rttNoLoad.value, rtt);
      var newLimit: real;
      if didDrop {
        newLimit := config.decrease(estimatedLimit);
      } else if inFlight as real * 2.0 < estimatedLimit {
        return;
      } else {
        var alpha := config.alpha(estimatedLimit.Floor);
        var beta := config.beta(estimatedLimit.Floor);
        var threshold := config.threshold(estimatedLimit.Floor);
        if queueSize < threshold {
          newLimit := estimatedLimit + beta as real;
        } else if queueSize < alpha {
          newLimit := config.increase(estimatedLimit);
        } else if queueSize > beta {
          newLimit := config.decrease(estimatedLimit);
        } else {
          return;
        }
      }
      newLimit := MaxReal(1.0, MinReal(config.maxLimit as real, newLimit));
      BlendAsWritten(estimatedLimit, newLimit, config.smoothing);
      estimatedLimit := (1.0 - config.smoothing) * estimatedLimit + config.smoothing * newLimit;
    }
  }
}

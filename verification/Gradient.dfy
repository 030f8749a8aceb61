/** GradientLimit (limit/gradient.go).  float64 is modelled by real and round trips are positive;
    the number drawn at each probe is an input.  The whole of OnSample runs under one mutex. */
module Gradient {
  import opened Basics
  import opened LimitFunctions
  import opened Reals
  import Minimum

  const PROBE_DISABLED := -1

  datatype Config = Config(initial: int, minLimit: int, maxLimit: int, smoothing: real, rttTolerance: real,
                           probeInterval: int, queueSize: nat -> int)
  {
    predicate Valid() {
      && initial >= 1 && minLimit >= 1 && maxLimit >= 1 && 0.0 <= smoothing <= 1.0 && rttTolerance >= 0.0
      && (probeInterval == PROBE_DISABLED || probeInterval >= 1)
    }

    function Bottom(): int { Min(initial, Min(minLimit, maxLimit)) }
  }

  /** The replacements NewGradientLimitWithRegistry makes.  A probe interval below -1 is not replaced
      and makes the constructor panic when it draws a random number. */
  function Normalised(c: Config): (n: Config)
    ensures n.Valid() <==> c.probeInterval >= PROBE_DISABLED
    ensures c.Valid() ==> n == c
  {
    c.(initial := if c.initial <= 0 then 50 else c.initial,
       minLimit := if c.minLimit < 1 then 1 else c.minLimit,
       maxLimit := if c.maxLimit <= 0 then 1000 else c.maxLimit,
       smoothing := if c.smoothing < 0.0 || c.smoothing > 1.0 then 0.2 else c.smoothing,
       rttTolerance := if c.rttTolerance < 0.0 then 2.0 else c.rttTolerance,
       probeInterval := if c.probeInterval == 0 then 1000 else c.probeInterval)
  }

  /** Each argument that is in range is taken, and each that is not is replaced by its default. */
  lemma ArgumentsAndDefaults(c: Config)
    ensures var n := Normalised(c);
            && (if c.initial >= 1 then n.initial == c.initial else n.initial == 50)
            && (if c.minLimit >= 1 then n.minLimit == c.minLimit else n.minLimit == 1)
            && (if c.maxLimit >= 1 then n.maxLimit == c.maxLimit else n.maxLimit == 1000)
            && (if 0.0 <= c.smoothing <= 1.0 then n.smoothing == c.smoothing else n.smoothing == 0.2)
            && (if c.rttTolerance >= 0.0 then n.rttTolerance == c.rttTolerance else n.rttTolerance == 2.0)
            && (if c.probeInterval != 0 then n.probeInterval == c.probeInterval else n.probeInterval == 1000)
            && n.queueSize == c.queueSize
  {}

  /** `draw` is what rand.Intn(probeInterval) would answer. */
  datatype Input = Input(rtt: int, inFlight: int, didDrop: bool, draw: int)

  predicate ValidInput(c: Config, x: Input) {
    x.rtt > 0 && (c.probeInterval != PROBE_DISABLED ==> 0 <= x.draw < c.probeInterval)
  }

  datatype State = State(estimate: real, rttNoLoad: real, counter: int)

  function NextProbeCountdown(interval: int, draw: int): int {
    if interval == PROBE_DISABLED then PROBE_DISABLED else interval + draw
  }

  predicate Probes(c: Config, s: State) {
    c.probeInterval != PROBE_DISABLED && s.counter - 1 <= 0
  }

  /** int64(float64) truncates; baselines are never negative. */
  function GradientOf(c: Config, rttNoLoad: real, rtt: int): (g: real)
    requires rtt > 0
    ensures 0.5 <= g <= 1.0
  {
    ClampedRatio(Tolerated(c, rttNoLoad), rtt as real)
  }

  /** The longest round trip that counts as no queueing. */
  function Tolerated(c: Config, rttNoLoad: real): real { c.rttTolerance * rttNoLoad.Floor as real }

  /** The new estimate of a sample that does not probe: halved by a drop, kept when far from the
      limit, else scaled by the gradient plus the queue; a fall is smoothed. */
  function NextEstimate(c: Config, estimate: real, gradient: real, queue: int, inFlight: int, didDrop: bool): real {
    if !didDrop && inFlight as real < estimate / 2.0 then estimate
    else
      Settled(c, estimate, if didDrop then estimate / 2.0 else estimate * gradient + queue as real, queue)
  }

  function Settled(c: Config, estimate: real, target: real, queue: int): real {
    var smoothed := if target < estimate then MaxReal(c.minLimit as real, Blend(estimate, target, c.smoothing))
                    else target;
    MaxReal(queue as real, MinReal(c.maxLimit as real, smoothed))
  }

  function Step(c: Config, s: State, x: Input): State
    requires s.estimate >= 0.0 && x.rtt > 0
  {
    var queue := c.queueSize(s.estimate.Floor);
    if Probes(c, s) then
      State(MaxReal(c.minLimit as real, queue as real), 0.0, NextProbeCountdown(c.probeInterval, x.draw))
    else
      var noLoad := Minimum.Added(s.rttNoLoad, x.rtt as real);
      State(NextEstimate(c, s.estimate, GradientOf(c, noLoad, x.rtt), queue, x.inFlight, x.didDrop),
            noLoad, if c.probeInterval == PROBE_DISABLED then s.counter else s.counter - 1)
  }

  ghost predicate ValidRun(c: Config, draw: int, xs: seq<Input>) {
    && c.Valid() && (c.probeInterval != PROBE_DISABLED ==> 0 <= draw < c.probeInterval)
    && forall i :: 0 <= i < |xs| ==> ValidInput(c, xs[i])
  }

  function Start(c: Config, draw: int): State {
    State(c.initial as real, 0.0, NextProbeCountdown(c.probeInterval, draw))
  }

  // ---------------------------------------------------------------- the lower bound

  /** Whatever the queue function, the estimate cannot fall below its starting point and limits. */
  lemma StepKeepsBottom(c: Config, s: State, x: Input)
    requires c.Valid() && s.estimate >= c.Bottom() as real && x.rtt > 0
    ensures Step(c, s, x).estimate >= c.Bottom() as real
  {}

  ghost function Run(c: Config, draw: int, xs: seq<Input>): (s: State)
    requires ValidRun(c, draw, xs)
    ensures s.estimate >= c.Bottom() as real >= 1.0
  {
    if xs == [] then Start(c, draw)
    else
      var s := Run(c, draw, xs[..|xs| - 1]);
      StepKeepsBottom(c, s, xs[|xs| - 1]);
      Step(c, s, xs[|xs| - 1])
  }

  // ---------------------------------------------------------------- one sample

  /** Straight to a goal that is not lower, a fraction `smoothing` of the way to one that is but not below
      minLimit, and in any case at most maxLimit unless the queue size is more. */
  predicate MovesTowards(c: Config, e: real, e': real, goal: real, queue: int) {
    var moved := if goal >= e then goal else MaxReal(c.minLimit as real, Blend(e, goal, c.smoothing));
    if moved <= c.maxLimit as real then e' == MaxReal(queue as real, moved)
    else e' == Max(queue, c.maxLimit) as real
  }

  /** What a sample does, told by its round trip.  A probe forgets the baseline and sets the estimate to
      minLimit or the queue size, whichever is more.  Any other sample joins the baseline; then a drop
      goes for half the estimate, an estimate more than twice the calls in flight stands still, and
      any other goes for the queue size and what the ratio of the tolerated baseline to the sample
      leaves of it, which is at least half. */
  lemma SampleOutcome(c: Config, s: State, x: Input)
    requires c.Valid() && s.estimate >= 0.0 && s.rttNoLoad >= 0.0 && x.rtt > 0
    ensures var s', queue := Step(c, s, x), c.queueSize(s.estimate.Floor);
            if Probes(c, s) then s'.estimate == Max(c.minLimit, queue) as real && s'.rttNoLoad == 0.0
            else
              && s'.rttNoLoad == Minimum.Added(s.rttNoLoad, x.rtt as real)
              && if x.didDrop then MovesTowards(c, s.estimate, s'.estimate, s.estimate / 2.0, queue)
                 else if 2.0 * x.inFlight as real < s.estimate then s'.estimate == s.estimate
                 else MovesTowards(c, s.estimate, s'.estimate,
                        Scaled(s.estimate, Tolerated(c, s'.rttNoLoad), x.rtt as real) + queue as real, queue)
  {
    var noLoad, queue := Minimum.Added(s.rttNoLoad, x.rtt as real), c.queueSize(s.estimate.Floor);
    ScaledRule(c, s.estimate, Tolerated(c, noLoad), x.rtt, queue, x.inFlight, x.didDrop);
  }

  /** A baseline is a round trip, so truncating it loses nothing: rttTolerance times it is tolerated. */
  lemma ToleratedBaseline(c: Config, baseline: int)
    ensures Tolerated(c, baseline as real) == c.rttTolerance * baseline as real
  {}

  /** Near the limit and without a drop or probe: a round trip that is tolerated is no queueing and lets
      the estimate grow by the queue size; one at least twice as long takes half of it away. */
  lemma ToleranceDecides(c: Config, s: State, x: Input)
    requires c.Valid() && s.estimate >= 0.0 && s.rttNoLoad >= 0.0 && x.rtt > 0
    requires !Probes(c, s) && !x.didDrop && 2.0 * x.inFlight as real >= s.estimate
    ensures var e', queue, rtt := Step(c, s, x).estimate, c.queueSize(s.estimate.Floor), x.rtt as real;
            var base := Tolerated(c, Step(c, s, x).rttNoLoad);
            && (rtt <= base ==> MovesTowards(c, s.estimate, e', s.estimate + queue as real, queue))
            && (base < rtt && rtt >= 2.0 * base ==>
                  MovesTowards(c, s.estimate, e', s.estimate / 2.0 + queue as real, queue))
  {
    var base := Tolerated(c, Minimum.Added(s.rttNoLoad, x.rtt as real));
    ToleranceRule(c, s.estimate, base, x.rtt, c.queueSize(s.estimate.Floor), x.inFlight);
  }

  lemma ToleranceRule(c: Config, e: real, base: real, rtt: int, queue: int, inFlight: int)
    requires c.Valid() && e >= 0.0 && rtt > 0 && 2.0 * inFlight as real >= e
    ensures var e', short := NextEstimate(c, e, ClampedRatio(base, rtt as real), queue, inFlight, false), rtt as real;
            && (short <= base ==> MovesTowards(c, e, e', e + queue as real, queue))
            && (base < short && short >= 2.0 * base ==> MovesTowards(c, e, e', e / 2.0 + queue as real, queue))
  {
    ScaledRule(c, e, base, rtt, queue, inFlight, false);
  }

  lemma ScaledRule(c: Config, e: real, base: real, rtt: int, queue: int, inFlight: int, didDrop: bool)
    requires c.Valid() && e >= 0.0 && rtt > 0
    ensures var e' := NextEstimate(c, e, ClampedRatio(base, rtt as real), queue, inFlight, didDrop);
            if didDrop then MovesTowards(c, e, e', e / 2.0, queue)
            else if 2.0 * inFlight as real < e then e' == e
            else MovesTowards(c, e, e', Scaled(e, base, rtt as real) + queue as real, queue)
  {
    ScaledByRatio(e, base, rtt as real);
    EstimateRule(c, e, ClampedRatio(base, rtt as real), Scaled(e, base, rtt as real), queue, inFlight, didDrop);
  }

  lemma EstimateRule(
    c: Config, e: real, gradient: real, left: real, queue: int, inFlight: int, didDrop: bool)
    requires c.Valid() && e >= 0.0 && left == e * gradient
    ensures var e' := NextEstimate(c, e, gradient, queue, inFlight, didDrop);
            if didDrop then MovesTowards(c, e, e', e / 2.0, queue)
            else if 2.0 * inFlight as real < e then e' == e
            else MovesTowards(c, e, e', left + queue as real, queue)
  {
    Settles(c, e, if didDrop then e / 2.0 else left + queue as real, queue);
  }

  lemma Settles(c: Config, e: real, goal: real, queue: int)
    ensures MovesTowards(c, e, Settled(c, e, goal, queue), goal, queue)
  {
    var moved := if goal >= e then goal else MaxReal(c.minLimit as real, Blend(e, goal, c.smoothing));
    assert Settled(c, e, goal, queue) == MaxReal(queue as real, MinReal(c.maxLimit as real, moved));
  }

  // ---------------------------------------------------------------- direction

  /** "Reduce the limit aggressively if there was a drop": a dropped sample does not raise the estimate
      if and only if the estimate is at least the queue size and not below both limits. */
  lemma DropDoesNotRaiseIff(c: Config, estimate: real, gradient: real, queue: int, inFlight: int)
    requires c.Valid() && estimate > 0.0
    ensures NextEstimate(c, estimate, gradient, queue, inFlight, true) <= estimate
            <==> queue as real <= estimate && (c.minLimit as real <= estimate || c.maxLimit as real <= estimate)
  {
    BlendBetween(estimate, estimate / 2.0, c.smoothing, estimate / 2.0, estimate);
  }

  /** It lowers the estimate if and only if the estimate is above the queue size, and above minLimit
      with some smoothing or above maxLimit. */
  lemma DropLowersIff(c: Config, estimate: real, gradient: real, queue: int, inFlight: int)
    requires c.Valid() && estimate > 0.0
    ensures NextEstimate(c, estimate, gradient, queue, inFlight, true) < estimate
            <==> queue as real < estimate
                 && ((c.smoothing > 0.0 && c.minLimit as real < estimate) || c.maxLimit as real < estimate)
  {
    var half := estimate / 2.0;
    BlendBetween(estimate, half, c.smoothing, half, estimate);
    assert Blend(estimate, half, c.smoothing) == estimate - c.smoothing * half;
    if c.smoothing > 0.0 {
      ProductPositive(c.smoothing, half);
    }
  }

  // ---------------------------------------------------------------- the baseline

  /** How many of the samples came up to and including the last probe. */
  ghost function ThroughProbe(c: Config, draw: int, xs: seq<Input>): (k: nat)
    requires ValidRun(c, draw, xs)
    ensures k <= |xs|
  {
    if xs == [] then 0
    else if Probes(c, Run(c, draw, xs[..|xs| - 1])) then |xs|
    else ThroughProbe(c, draw, xs[..|xs| - 1])
  }

  function RTTs(xs: seq<Input>): seq<real> { seq(|xs|, i requires 0 <= i < |xs| => xs[i].rtt as real) }

  /** In every run the baseline is the smallest round trip since the last probe, which does not count
      itself, and 0 when there is none. */
  lemma {:induction false} BaselineIsMinimumSinceProbe(c: Config, draw: int, xs: seq<Input>)
    requires ValidRun(c, draw, xs)
    ensures Minimum.IsMinimum(Run(c, draw, xs).rttNoLoad, RTTs(xs[ThroughProbe(c, draw, xs)..]))
  {
    if xs != [] {
      var init, x := xs[..|xs| - 1], xs[|xs| - 1];
      BaselineIsMinimumSinceProbe(c, draw, init);
      var s, k := Run(c, draw, init), ThroughProbe(c, draw, xs);
      if !Probes(c, s) {
        assert RTTs(xs[k..]) == RTTs(init[k..]) + [x.rtt as real];
        Minimum.AddedIsMinimum(s.rttNoLoad, RTTs(init[k..]), x.rtt as real);
      }
    }
  }

  // ---------------------------------------------------------------- the upper bound

  /** The queue function is SqrtRootFunction(baseline) over a table built by initSqrtFunc. */
  ghost predicate SqrtQueue(c: Config, table: seq<int>, baseline: int) {
    IsSqrtTable(table) && forall n :: c.queueSize(n) == SqrtRoot(table, baseline, n)
  }

  function Top(c: Config, baseline: int): int {
    Max(Max(c.initial, baseline), Max(c.minLimit, c.maxLimit))
  }

  lemma QueueWithinTop(c: Config, table: seq<int>, baseline: int, estimate: real)
    requires c.Valid() && SqrtQueue(c, table, baseline) && 0.0 <= estimate <= Top(c, baseline) as real
    ensures c.queueSize(estimate.Floor) <= Top(c, baseline)
  {
    var n: nat := estimate.Floor;
    SqrtRootIsUniform(table, baseline, n);
    ISqrtBounds(n);
  }

  lemma StepKeepsTop(c: Config, s: State, x: Input, top: int)
    requires s.estimate >= 0.0 && x.rtt > 0
    requires s.estimate <= top as real && c.minLimit <= top && c.maxLimit <= top
    requires c.queueSize(s.estimate.Floor) <= top
    ensures Step(c, s, x).estimate <= top as real
  {}

  /** With the square-root queue function of baseline b, the estimate stays in
      [min(initial, minLimit, maxLimit), max(initial, minLimit, maxLimit, b)] in every run. */
  lemma {:induction false} EstimateStaysInBounds(c: Config, draw: int, xs: seq<Input>, table: seq<int>, baseline: int)
    requires ValidRun(c, draw, xs) && SqrtQueue(c, table, baseline)
    ensures c.Bottom() as real <= Run(c, draw, xs).estimate <= Top(c, baseline) as real
  {
    if xs != [] {
      var init := xs[..|xs| - 1];
      EstimateStaysInBounds(c, draw, init, table, baseline);
      var s := Run(c, draw, init);
      QueueWithinTop(c, table, baseline, s.estimate);
      StepKeepsTop(c, s, xs[|xs| - 1], Top(c, baseline));
    }
  }

  // ---------------------------------------------------------------- drops over whole runs

  /** After the samples `xs`, the dropped sample `x` raises the estimate. */
  ghost predicate DropRaises(c: Config, draw: int, xs: seq<Input>, x: Input) {
    && ValidRun(c, draw, xs) && ValidInput(c, x) && x.didDrop
    && Step(c, Run(c, draw, xs), x).estimate > Run(c, draw, xs).estimate
  }

  /** The condition on the arguments under which no drop can raise the estimate.  A probe lifts it to
      minLimit, so with probing the estimate must start there and stay there. */
  predicate DropsAreSafe(c: Config, baseline: int) {
    && baseline <= c.initial
    && if c.probeInterval == PROBE_DISABLED then Min(c.minLimit, c.maxLimit) <= c.initial
       else c.minLimit <= c.initial && StaysAtMinimum(c, baseline)
  }

  /** Every sample probes, or nothing pulls the estimate below minLimit between probes. */
  predicate StaysAtMinimum(c: Config, baseline: int) {
    c.probeInterval == 1 || c.minLimit <= c.maxLimit || c.minLimit <= baseline
  }

  lemma QueueBounds(c: Config, table: seq<int>, baseline: int, n: nat)
    requires SqrtQueue(c, table, baseline) && n >= 1
    ensures c.queueSize(n) == Max(baseline, ISqrt(n)) >= 1 && ISqrt(n) <= n
    ensures n >= 2 ==> ISqrt(n) < n
  {
    SqrtRootIsUniform(table, baseline, n);
    ISqrtBounds(n);
    if n >= 2 {
      ISqrtIsSmaller(n);
    }
  }

  /** Every estimate after the first sample that moves it is at least the queue size, hence the baseline. */
  lemma {:induction false} EstimateStaysAboveBaseline(
    c: Config, draw: int, xs: seq<Input>, table: seq<int>, baseline: int)
    requires ValidRun(c, draw, xs) && SqrtQueue(c, table, baseline) && c.initial >= baseline
    ensures Run(c, draw, xs).estimate >= baseline as real
  {
    if xs != [] {
      EstimateStaysAboveBaseline(c, draw, xs[..|xs| - 1], table, baseline);
      SqrtRootIsUniform(table, baseline, Run(c, draw, xs[..|xs| - 1]).estimate.Floor);
    }
  }

  lemma {:induction false} IntervalOneAlwaysProbes(c: Config, draw: int, xs: seq<Input>)
    requires ValidRun(c, draw, xs) && c.probeInterval == 1
    ensures Probes(c, Run(c, draw, xs))
  {
    if xs != [] {
      IntervalOneAlwaysProbes(c, draw, xs[..|xs| - 1]);
    }
  }

  lemma {:induction false} EstimateStaysAboveMinimum(
    c: Config, draw: int, xs: seq<Input>, table: seq<int>, baseline: int)
    requires ValidRun(c, draw, xs) && SqrtQueue(c, table, baseline)
    requires c.minLimit <= c.initial && StaysAtMinimum(c, baseline)
    ensures Run(c, draw, xs).estimate >= c.minLimit as real
  {
    if xs != [] {
      var init := xs[..|xs| - 1];
      EstimateStaysAboveMinimum(c, draw, init, table, baseline);
      SqrtRootIsUniform(table, baseline, Run(c, draw, init).estimate.Floor);
      if c.probeInterval == 1 {
        IntervalOneAlwaysProbes(c, draw, init);
      }
    }
  }

  lemma SafeDrop(c: Config, draw: int, xs: seq<Input>, x: Input, table: seq<int>, baseline: int)
    requires c.Valid() && SqrtQueue(c, table, baseline) && DropsAreSafe(c, baseline)
    requires ValidRun(c, draw, xs) && ValidInput(c, x) && x.didDrop
    ensures Step(c, Run(c, draw, xs), x).estimate <= Run(c, draw, xs).estimate
  {
    var s := Run(c, draw, xs);
    var n: nat := s.estimate.Floor;
    EstimateStaysAboveBaseline(c, draw, xs, table, baseline);
    QueueBounds(c, table, baseline, n);
    if c.probeInterval != PROBE_DISABLED {
      EstimateStaysAboveMinimum(c, draw, xs, table, baseline);
    }
    var noLoad := Minimum.Added(s.rttNoLoad, x.rtt as real);
    DropDoesNotRaiseIff(c, s.estimate, GradientOf(c, noLoad, x.rtt), c.queueSize(n), x.inFlight);
  }

  // A dropped sample, and one that leaves the estimate alone unless it probes.
  const DROPPED := Input(1, 0, true, 0)
  const IDLE := Input(1, 0, false, 0)

  lemma RunExtended(c: Config, draw: int, xs: seq<Input>, x: Input)
    requires ValidRun(c, draw, xs) && ValidInput(c, x)
    ensures ValidRun(c, draw, xs + [x]) && Run(c, draw, xs + [x]) == Step(c, Run(c, draw, xs), x)
  {
    assert (xs + [x])[..|xs|] == xs;
  }

  /** Idle samples lead to a probe at the same estimate. */
  lemma {:induction false} IdleToProbe(c: Config, draw: int, xs: seq<Input>) returns (ys: seq<Input>)
    requires ValidRun(c, draw, xs) && c.probeInterval != PROBE_DISABLED
    ensures ValidRun(c, draw, ys) && Probes(c, Run(c, draw, ys))
    ensures Run(c, draw, ys).estimate == Run(c, draw, xs).estimate
    decreases Run(c, draw, xs).counter
  {
    ys := xs;
    if !Probes(c, Run(c, draw, xs)) {
      RunExtended(c, draw, xs, IDLE);
      ys := IdleToProbe(c, draw, xs + [IDLE]);
    }
  }

  /** A dropped sample at an estimate of at least minLimit, where that is above maxLimit and the baseline:
      the estimate comes down to the queue size or one of the limits. */
  lemma SinkingStep(c: Config, s: State, table: seq<int>, baseline: int)
    requires c.Valid() && SqrtQueue(c, table, baseline)
    requires c.minLimit > c.maxLimit && c.minLimit > baseline && s.estimate >= c.minLimit as real
    ensures var root, e' := ISqrt(s.estimate.Floor), Step(c, s, DROPPED).estimate;
            && root < s.estimate.Floor
            && (root >= c.minLimit ==> e' == root as real)
            && (root < c.minLimit ==> if Probes(c, s) then e' == c.minLimit as real else e' < c.minLimit as real)
  {
    QueueBounds(c, table, baseline, s.estimate.Floor);
  }

  /** Drops bring the estimate below a minLimit that is above maxLimit and the baseline, whatever probes
      come in between. */
  lemma {:induction false} SinkBelowMinimum(
    c: Config, draw: int, xs: seq<Input>, table: seq<int>, baseline: int) returns (ys: seq<Input>)
    requires ValidRun(c, draw, xs) && SqrtQueue(c, table, baseline) && c.probeInterval >= 2
    requires c.minLimit > c.maxLimit && c.minLimit > baseline
    ensures ValidRun(c, draw, ys) && Run(c, draw, ys).estimate < c.minLimit as real
    decreases Run(c, draw, xs).estimate.Floor, if Probes(c, Run(c, draw, xs)) then 1 else 0
  {
    ys := xs;
    if Run(c, draw, xs).estimate >= c.minLimit as real {
      SinkingStep(c, Run(c, draw, xs), table, baseline);
      RunExtended(c, draw, xs, DROPPED);
      ys := SinkBelowMinimum(c, draw, xs + [DROPPED], table, baseline);
    }
  }

  /** At a probe, a drop lifts an estimate that is below minLimit. */
  lemma ProbeRaises(c: Config, draw: int, xs: seq<Input>) returns (ys: seq<Input>)
    requires ValidRun(c, draw, xs) && c.probeInterval != PROBE_DISABLED
    requires Run(c, draw, xs).estimate < c.minLimit as real
    ensures DropRaises(c, draw, ys, DROPPED)
  {
    ys := IdleToProbe(c, draw, xs);
  }

  /** A limiter that starts below its baseline, or below both of its limits, raises its estimate at a
      first sample that was dropped. */
  lemma FirstDropRaises(c: Config, table: seq<int>, baseline: int, x: Input)
    requires c.Valid() && SqrtQueue(c, table, baseline)
    requires baseline > c.initial || Min(c.minLimit, c.maxLimit) > c.initial
    requires ValidInput(c, x) && x.didDrop
    ensures DropRaises(c, 0, [], x)
  {
    SqrtRootIsUniform(table, baseline, c.initial);
    var noLoad := Minimum.Added(0.0, x.rtt as real);
    DropDoesNotRaiseIff(c, c.initial as real, GradientOf(c, noLoad, x.rtt), c.queueSize(c.initial), x.inFlight);
  }

  lemma UnsafeDrop(c: Config, table: seq<int>, baseline: int) returns (xs: seq<Input>)
    requires c.Valid() && SqrtQueue(c, table, baseline) && !DropsAreSafe(c, baseline)
    ensures DropRaises(c, 0, xs, DROPPED)
  {
    xs := [];
    if baseline > c.initial || Min(c.minLimit, c.maxLimit) > c.initial {
      FirstDropRaises(c, table, baseline, DROPPED);
    } else {
      if c.minLimit <= c.initial {
        xs := SinkBelowMinimum(c, 0, [], table, baseline);
      }
      xs := ProbeRaises(c, 0, xs);
    }
  }

  /** No dropped sample of any run raises the estimate, whether it probes or not, if and only if the
      arguments satisfy DropsAreSafe. */
  lemma DropsNeverRaiseIff(c: Config, table: seq<int>, baseline: int)
    requires c.Valid() && SqrtQueue(c, table, baseline)
    ensures (forall draw, xs, x :: !DropRaises(c, draw, xs, x)) <==> DropsAreSafe(c, baseline)
  {
    if DropsAreSafe(c, baseline) {
      forall draw, xs, x ensures !DropRaises(c, draw, xs, x) {
        if ValidRun(c, draw, xs) && ValidInput(c, x) && x.didDrop {
          SafeDrop(c, draw, xs, x, table, baseline);
        }
      }
    } else {
      var xs := UnsafeDrop(c, table, baseline);
    }
  }

  /** A drop that raises the estimate although it does not probe. */
  ghost predicate PlainDropRaises(c: Config, draw: int, xs: seq<Input>, x: Input) {
    DropRaises(c, draw, xs, x) && !Probes(c, Run(c, draw, xs))
  }

  lemma SafePlainDrop(c: Config, draw: int, xs: seq<Input>, x: Input, table: seq<int>, baseline: int)
    requires ValidRun(c, draw, xs) && SqrtQueue(c, table, baseline) && ValidInput(c, x) && x.didDrop
    requires baseline <= c.initial && Min(c.minLimit, c.maxLimit) <= c.initial && !Probes(c, Run(c, draw, xs))
    ensures Step(c, Run(c, draw, xs), x).estimate <= Run(c, draw, xs).estimate
  {
    var s := Run(c, draw, xs);
    EstimateStaysAboveBaseline(c, draw, xs, table, baseline);
    QueueBounds(c, table, baseline, s.estimate.Floor);
    var noLoad := Minimum.Added(s.rttNoLoad, x.rtt as real);
    DropDoesNotRaiseIff(c, s.estimate, GradientOf(c, noLoad, x.rtt), c.queueSize(s.estimate.Floor), x.inFlight);
  }

  /** Among the samples that do not probe, none that was dropped raises the estimate in any run, if and
      only if the limiter starts at or above its baseline and at least one of its limits, or there are
      no such samples because every one probes. */
  lemma PlainDropsNeverRaiseIff(c: Config, table: seq<int>, baseline: int)
    requires c.Valid() && SqrtQueue(c, table, baseline)
    ensures (forall draw, xs, x :: !PlainDropRaises(c, draw, xs, x))
            <==> c.probeInterval == 1 || (baseline <= c.initial && Min(c.minLimit, c.maxLimit) <= c.initial)
  {
    if c.probeInterval == 1 || (baseline <= c.initial && Min(c.minLimit, c.maxLimit) <= c.initial) {
      forall draw, xs, x ensures !PlainDropRaises(c, draw, xs, x) {
        if ValidRun(c, draw, xs) && ValidInput(c, x) && x.didDrop && !Probes(c, Run(c, draw, xs)) {
          if c.probeInterval == 1 {
            IntervalOneAlwaysProbes(c, draw, xs);
          } else {
            SafePlainDrop(c, draw, xs, x, table, baseline);
          }
        }
      }
    } else {
      FirstDropRaises(c, table, baseline, DROPPED);
      assert PlainDropRaises(c, 0, [], DROPPED);
    }
  }

  /** A probe can do the same: with a probe at every sample, an initial limit of 1 and a minLimit of 20, a
      first sample that was dropped raises the estimate to at least 20. */
  lemma ProbedDropCanRaise(c: Config, x: Input)
    requires c.Valid() && c.probeInterval == 1 && c.initial == 1 && c.minLimit == 20
    requires ValidInput(c, x) && x.didDrop
    ensures DropRaises(c, 0, [], x) && Step(c, Run(c, 0, []), x).estimate >= 20.0
  {}

  /** With the default queue function, SqrtRootFunction(4), and an initial limit of 1, a first sample
      that was dropped raises the estimate to at least 4. */
  lemma DropCanRaise(c: Config, table: seq<int>, x: Input)
    requires c.Valid() && SqrtQueue(c, table, 4) && c.initial == 1
    requires ValidInput(c, x) && x.didDrop
    ensures DropRaises(c, 0, [], x) && Step(c, Run(c, 0, []), x).estimate >= 4.0
  {
    FirstDropRaises(c, table, 4, x);
    SqrtRootIsUniform(table, 4, 1);
  }

  // ---------------------------------------------------------------- probes

  /** How many of the samples were probes. */
  ghost function ProbeCount(c: Config, draw: int, xs: seq<Input>): nat
    requires ValidRun(c, draw, xs)
  {
    if xs == [] then 0
    else ProbeCount(c, draw, xs[..|xs| - 1]) + (if Probes(c, Run(c, draw, xs[..|xs| - 1])) then 1 else 0)
  }

  /** The countdown drawn last. */
  ghost function Countdown(c: Config, draw: int, xs: seq<Input>): int
    requires ValidRun(c, draw, xs)
  {
    if xs == [] then NextProbeCountdown(c.probeInterval, draw)
    else if Probes(c, Run(c, draw, xs[..|xs| - 1])) then NextProbeCountdown(c.probeInterval, xs[|xs| - 1].draw)
    else Countdown(c, draw, xs[..|xs| - 1])
  }

  /** With P probes behind it, a run has used up P countdowns and part of the current one. */
  lemma {:induction false} CountdownsAddUp(c: Config, draw: int, xs: seq<Input>)
    requires ValidRun(c, draw, xs) && c.probeInterval >= 1
    ensures var i, p, k := c.probeInterval, ProbeCount(c, draw, xs), Countdown(c, draw, xs);
            var counter := Run(c, draw, xs).counter;
            && i <= k <= 2 * i - 1 && 1 <= counter <= k
            && p * i <= |xs| + counter - k <= p * (2 * i - 1)
  {
    if xs != [] {
      CountdownsAddUp(c, draw, xs[..|xs| - 1]);
      if Probes(c, Run(c, draw, xs[..|xs| - 1])) {
        var i, p := c.probeInterval, ProbeCount(c, draw, xs[..|xs| - 1]);
        OneMore(p, i);
        OneMore(p, 2 * i - 1);
      }
    }
  }

  lemma OneMore(p: int, k: int)
    ensures (p + 1) * k == p * k + k
  {}

  /** Probe rate: with interval i, the number P of probes among N samples satisfies
      P * i <= N < (P + 1) * (2i - 1), whatever is drawn; with probing disabled there are none. */
  lemma ProbeRate(c: Config, draw: int, xs: seq<Input>)
    requires ValidRun(c, draw, xs)
    ensures var p, i := ProbeCount(c, draw, xs), c.probeInterval;
            if i == PROBE_DISABLED then p == 0 else p * i <= |xs| < (p + 1) * (2 * i - 1)
  {
    if c.probeInterval == PROBE_DISABLED {
      NoProbesWhenDisabled(c, draw, xs);
    } else {
      CountdownsAddUp(c, draw, xs);
      OneMore(ProbeCount(c, draw, xs), 2 * c.probeInterval - 1);
    }
  }

  lemma {:induction false} NoProbesWhenDisabled(c: Config, draw: int, xs: seq<Input>)
    requires ValidRun(c, draw, xs) && c.probeInterval == PROBE_DISABLED
    ensures ProbeCount(c, draw, xs) == 0
  {
    if xs != [] {
      NoProbesWhenDisabled(c, draw, xs[..|xs| - 1]);
    }
  }

  // ---------------------------------------------------------------- the object

  class GradientLimit {
    const config: Config
    var estimatedLimit: real
    var resetRTTCounter: int
    const rttNoLoadMeasurement: Minimum.MinimumMeasurement

    function View(): State reads this, rttNoLoadMeasurement {
      State(estimatedLimit, rttNoLoadMeasurement.value, resetRTTCounter)
    }

    ghost predicate Valid() reads this, rttNoLoadMeasurement {
      config.Valid() && estimatedLimit >= config.Bottom() as real
    }

    constructor (config: Config, draw: int)
      requires config.Valid()
      ensures Valid() && fresh(rttNoLoadMeasurement) && this.config == config && View() == Start(config, draw)
    {
      this.config := config;
      estimatedLimit := config.initial as real;
      resetRTTCounter := NextProbeCountdown(config.probeInterval, draw);
      rttNoLoadMeasurement := new Minimum.MinimumMeasurement();
    }

    method OnSample(rtt: int, inFlight: int, didDrop: bool, draw: int) returns (estimate: int)
      requires Valid() && rtt > 0
      modifies this, rttNoLoadMeasurement
      ensures Valid() && View() == Step(config, old(View()), Input(rtt, inFlight, didDrop, draw)) && estimate >= 1
    {
      ghost var before := View();
      var queueSize := config.queueSize(estimatedLimit.Floor);
      var probing := false;
      if config.probeInterval != PROBE_DISABLED {
        resetRTTCounter := resetRTTCounter - 1;
        probing := resetRTTCounter <= 0;
      }
      if probing {
        resetRTTCounter := NextProbeCountdown(config.probeInterval, draw);
        estimatedLimit := MaxReal(config.minLimit as real, queueSize as real);
        rttNoLoadMeasurement.Reset();
      } else {
        var noLoad, _ := rttNoLoadMeasurement.Add(rtt as real);
        var gradient := GradientOf(config, noLoad, rtt);
        UpdateEstimate(gradient, queueSize, inFlight, didDrop);
      }
      StepKeepsBottom(config, before, Input(rtt, inFlight, didDrop, draw));
      estimate := estimatedLimit.Floor;
    }

    /** The arithmetic at the end of OnSample. */
    method UpdateEstimate(gradient: real, queueSize: int, inFlight: int, didDrop: bool)
      requires config.Valid()
      modifies this`estimatedLimit
      ensures estimatedLimit == NextEstimate(config, old(estimatedLimit), gradient, queueSize, inFlight, didDrop)
    {
      var newLimit: real;
      if didDrop {
        newLimit := estimatedLimit / 2.0;
      } else if inFlight as real < estimatedLimit / 2.0 {
        return;
      } else {
        newLimit := estimatedLimit * gradient + queueSize as real;
      }
      if newLimit < estimatedLimit {
        newLimit := Smooth(estimatedLimit, newLimit, config.smoothing);
        newLimit := MaxReal(config.minLimit as real, newLimit);
      }
      estimatedLimit := MaxReal(queueSize as real, MinReal(config.maxLimit as real, newLimit));
    }
  }
}

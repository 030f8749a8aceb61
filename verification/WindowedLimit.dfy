/** WindowedLimit (limit/windowed.go): collects samples into a window and hands its summary to the
    delegate limit.  The whole of OnSample runs under one mutex. */
module WindowedLimit {
  import opened Basics
  import opened SampleWindow

  /** What NewWindowedLimit accepts: both bounds at least 100 ms, in any order. */
  datatype Config = Config(minWindowTime: int, maxWindowTime: int, windowSize: int, minRTTThreshold: int) {
    predicate Valid() { minWindowTime >= 100_000_000 && maxWindowTime >= 100_000_000 && windowSize >= 10 }
  }

  datatype Input = Input(startTime: int, rtt: int, inFlight: int, didDrop: bool)

  /** One call of delegate.OnSample, with the end time of the sample that caused it and the samples
      of the window it closed. */
  datatype Call = Call(startTime: int, rtt: int, inFlight: int, didDrop: bool, endTime: int, samples: seq<Sample>)

  /** `open` and `calls` record the history: the samples in the open window and every call made. */
  datatype State = State(sample: Window, nextUpdateTime: int, open: seq<Sample>, calls: seq<Call>)

  const START := State(EMPTY, 0, [], [])

  function Int32(x: int): int { (x + 0x8000_0000) % 0x1_0000_0000 - 0x8000_0000 }

  /** The name in the code is isWindowReady; it looks at the sample, not at the window. */
  predicate Closes(c: Config, s: State, x: Input) {
    && x.startTime + x.rtt > s.nextUpdateTime
    && x.rtt < MAX_INT64 && Int32(x.inFlight) > c.windowSize
  }

  predicate Counts(c: Config, x: Input) { x.rtt >= c.minRTTThreshold }

  function SampleOf(x: Input): Sample { Sample(x.rtt, x.inFlight, x.didDrop) }

  function Step(c: Config, s: State, x: Input): State {
    if !Counts(c, x) then s else
      var open := s.open + [SampleOf(x)];
      var w := Add(s.sample, SampleOf(x));
      if !Closes(c, s, x) then s.(sample := w, open := open)
      else
        var endTime := x.startTime + x.rtt;
        State(EMPTY, endTime + WindowLength(w.minRTT, c.minWindowTime, c.maxWindowTime), [],
              s.calls + [Call(x.startTime, AverageRTT(w), w.maxInFlight, x.didDrop, endTime, open)])
  }

  function Run(c: Config, xs: seq<Input>): State {
    if xs == [] then START else Step(c, Run(c, xs[..|xs| - 1]), xs[|xs| - 1])
  }

  /** The samples that count, in order. */
  function Counted(c: Config, xs: seq<Input>): seq<Sample> {
    if xs == [] then [] else
      Counted(c, xs[..|xs| - 1]) + (if Counts(c, xs[|xs| - 1]) then [SampleOf(xs[|xs| - 1])] else [])
  }

  function Concat(calls: seq<Call>): seq<Sample> {
    if calls == [] then [] else Concat(calls[..|calls| - 1]) + calls[|calls| - 1].samples
  }

  // ---------------------------------------------------------------- whole runs

  /** The windows and the open one are the samples that count. */
  ghost predicate StreamInv(c: Config, xs: seq<Input>, s: State) {
    Concat(s.calls) + s.open == Counted(c, xs) && s.sample == Fold(s.open)
  }

  ghost predicate CallInv(c: Config, s: State) {
    && AllCount(c, s.open)
    && forall k :: 0 <= k < |s.calls| ==> Summary(s.calls[k]) && AllCount(c, s.calls[k].samples)
  }

  ghost predicate SpacingInv(c: Config, s: State) {
    var gap := Min(c.minWindowTime, c.maxWindowTime);
    && (forall k :: 0 <= k < |s.calls| - 1 ==> s.calls[k + 1].endTime > s.calls[k].endTime + gap)
    && (s.calls != [] ==> s.nextUpdateTime >= s.calls[|s.calls| - 1].endTime + gap)
  }

  ghost predicate AllCount(c: Config, ss: seq<Sample>) {
    forall i :: 0 <= i < |ss| ==> ss[i].rtt >= c.minRTTThreshold
  }

  /** What a call tells the delegate about the window it closes. */
  ghost predicate Summary(k: Call) {
    && k.samples != []
    && k.rtt == AverageRTT(Fold(k.samples)) && k.inFlight == Fold(k.samples).maxInFlight
    && k.didDrop == k.samples[|k.samples| - 1].dropped
    && k.endTime == k.startTime + k.samples[|k.samples| - 1].rtt
  }

  ghost predicate Inv(c: Config, xs: seq<Input>, s: State) {
    StreamInv(c, xs, s) && CallInv(c, s) && SpacingInv(c, s)
  }

  lemma StepKeepsStream(c: Config, xs: seq<Input>, s: State, x: Input)
    requires StreamInv(c, xs, s)
    ensures StreamInv(c, xs + [x], Step(c, s, x))
  {
    var s' := Step(c, s, x);
    assert (xs + [x])[..|xs|] == xs;
    if Counts(c, x) {
      var open := s.open + [SampleOf(x)];
      assert open[..|s.open|] == s.open;
      assert Counted(c, xs + [x]) == Concat(s.calls) + open;
      if Closes(c, s, x) {
        assert s'.calls[..|s.calls|] == s.calls;
        assert Concat(s'.calls) + [] == Concat(s.calls) + open;
      }
    } else {
      assert Counted(c, xs + [x]) == Counted(c, xs);
    }
  }

  lemma StepKeepsCalls(c: Config, s: State, x: Input)
    requires CallInv(c, s) && s.sample == Fold(s.open)
    ensures CallInv(c, Step(c, s, x))
  {
    if Counts(c, x) {
      var open, s' := s.open + [SampleOf(x)], Step(c, s, x);
      assert AllCount(c, open);
      if Closes(c, s, x) {
        ClosingCallSummarises(c, s, x);
        assert s'.calls[..|s.calls|] == s.calls;
      }
    }
  }

  lemma ClosingCallSummarises(c: Config, s: State, x: Input)
    requires Counts(c, x) && Closes(c, s, x) && s.sample == Fold(s.open)
    ensures var s' := Step(c, s, x);
            && s'.open == [] && |s'.calls| == |s.calls| + 1
            && s'.calls[|s.calls|].samples == s.open + [SampleOf(x)] && Summary(s'.calls[|s.calls|])
  {
    var open := s.open + [SampleOf(x)];
    assert open[..|s.open|] == s.open;
    assert Fold(open) == Add(s.sample, SampleOf(x));
  }

  lemma StepKeepsSpacing(c: Config, s: State, x: Input)
    requires SpacingInv(c, s)
    ensures SpacingInv(c, Step(c, s, x))
  {
    var s' := Step(c, s, x);
    assert forall k :: 0 <= k < |s.calls| ==> s'.calls[k] == s.calls[k];
  }

  lemma StepKeepsInv(c: Config, xs: seq<Input>, s: State, x: Input)
    requires Inv(c, xs, s)
    ensures Inv(c, xs + [x], Step(c, s, x))
  {
    StepKeepsStream(c, xs, s, x);
    StepKeepsCalls(c, s, x);
    StepKeepsSpacing(c, s, x);
  }

  lemma {:induction false} RunKeepsInv(c: Config, xs: seq<Input>)
    ensures Inv(c, xs, Run(c, xs))
  {
    if xs != [] {
      var init := xs[..|xs| - 1];
      RunKeepsInv(c, init);
      StepKeepsInv(c, init, Run(c, init), xs[|xs| - 1]);
      assert init + [xs[|xs| - 1]] == xs;
    }
  }

  /** Windows partition the stream: after any inputs, the delegated windows followed by the open one
      are exactly the samples at or above the threshold, each once and in order; and consecutive
      delegated end times are more than min(minWindowTime, maxWindowTime) apart. */
  lemma WindowsPartitionTheStream(c: Config, xs: seq<Input>)
    ensures var s := Run(c, xs);
            && Concat(s.calls) + s.open == Counted(c, xs)
            && forall k :: 0 <= k < |s.calls| - 1 ==>
                 s.calls[k + 1].endTime > s.calls[k].endTime + Min(c.minWindowTime, c.maxWindowTime)
  {
    RunKeepsInv(c, xs);
  }

  lemma {:induction false} SumIsNonNegative(xs: seq<int>)
    requires forall i :: 0 <= i < |xs| ==> xs[i] >= 0
    ensures SumOf(xs) >= 0
  {
    if xs != [] {
      SumIsNonNegative(xs[..|xs| - 1]);
    }
  }

  lemma {:induction false} RTTsOfCounted(ss: seq<Sample>)
    requires forall i :: 0 <= i < |ss| ==> ss[i].rtt >= 0
    ensures forall i :: 0 <= i < |RTTs(ss)| ==> RTTs(ss)[i] >= 0
  {
    if ss != [] {
      RTTsOfCounted(ss[..|ss| - 1]);
    }
  }

  lemma AverageOfCounted(ss: seq<Sample>)
    requires RTTs(ss) != [] && forall i :: 0 <= i < |ss| ==> ss[i].rtt >= 0
    ensures var a := TruncDiv(SumOf(RTTs(ss)), |RTTs(ss)|);
            a * |RTTs(ss)| <= SumOf(RTTs(ss)) < (a + 1) * |RTTs(ss)|
  {
    RTTsOfCounted(ss);
    SumIsNonNegative(RTTs(ss));
  }

  /** Each delegated call carries the floor average of its window's round trips that were not dropped
      (0 when all were) and the largest in-flight count of all its samples. */
  lemma CallsSummariseTheirWindow(c: Config, xs: seq<Input>, k: nat)
    requires k < |Run(c, xs).calls|
    ensures var call := Run(c, xs).calls[k]; var rtts := RTTs(call.samples);
            && (rtts == [] ==> call.rtt == 0)
            && (rtts != [] ==> call.rtt == TruncDiv(SumOf(rtts), |rtts|))
            && (rtts != [] && c.minRTTThreshold >= 0 ==>
                  call.rtt * |rtts| <= SumOf(rtts) < (call.rtt + 1) * |rtts|)
            && (forall i :: 0 <= i < |call.samples| ==> call.samples[i].inFlight <= call.inFlight)
            && (call.inFlight == 0 || exists i :: 0 <= i < |call.samples| && call.samples[i].inFlight == call.inFlight)
  {
    RunKeepsInv(c, xs);
    var call := Run(c, xs).calls[k];
    var samples := call.samples;
    assert Summary(call) && AllCount(c, samples);
    FoldCounts(samples);
    FoldExtremes(samples);
    if RTTs(samples) != [] && c.minRTTThreshold >= 0 {
      AverageOfCounted(samples);
    }
  }

  /** When a sample closes the window: exactly when it counts, completes after the time the last delegated
      window set, and has more than windowSize calls in flight. */
  lemma DelegatesIff(c: Config, xs: seq<Input>, x: Input)
    requires 0 <= x.inFlight < 0x8000_0000 && x.rtt < MAX_INT64
    ensures var s, s' := Run(c, xs), Run(c, xs + [x]);
            if x.rtt >= c.minRTTThreshold && x.startTime + x.rtt > s.nextUpdateTime && x.inFlight > c.windowSize
            then |s'.calls| == |s.calls| + 1 && s'.open == []
            else s'.calls == s.calls && s'.nextUpdateTime == s.nextUpdateTime
  {
    assert (xs + [x])[..|xs|] == xs;
  }

  /** A delegated call is told the start of the sample that closed its window, and the next window lasts
      twice the smallest round trip of this one, kept between the two bounds. */
  lemma NextWindowFollowsTheLast(c: Config, xs: seq<Input>, x: Input, m: int)
    requires Counts(c, x) && Closes(c, Run(c, xs), x)
    requires forall i :: 0 <= i < |xs| ==> xs[i].rtt <= MAX_INT64
    requires IsMin(m, RTTs(Run(c, xs).open + [SampleOf(x)])) && 0 < 2 * m <= MAX_INT64
    ensures var s, s' := Run(c, xs), Run(c, xs + [x]); var call := s'.calls[|s.calls|];
            && call.startTime == x.startTime && call.endTime == x.startTime + x.rtt
            && call.samples == s.open + [SampleOf(x)]
            && s'.nextUpdateTime == call.endTime + Min(Max(2 * m, c.minWindowTime), c.maxWindowTime)
  {
    assert (xs + [x])[..|xs|] == xs;
    RunKeepsInv(c, xs);
    OpenWithinRange(c, xs);
    ClosingStep(c, Run(c, xs), x, m);
  }

  lemma ClosingStep(c: Config, s: State, x: Input, m: int)
    requires Counts(c, x) && Closes(c, s, x) && s.sample == Fold(s.open)
    requires forall i :: 0 <= i < |s.open| ==> s.open[i].rtt <= MAX_INT64
    requires IsMin(m, RTTs(s.open + [SampleOf(x)])) && 0 < 2 * m <= MAX_INT64
    ensures var s' := Step(c, s, x);
            && |s'.calls| == |s.calls| + 1
            && var call := s'.calls[|s.calls|];
               && call.startTime == x.startTime && call.endTime == x.startTime + x.rtt
               && call.samples == s.open + [SampleOf(x)]
               && s'.nextUpdateTime == call.endTime + Min(Max(2 * m, c.minWindowTime), c.maxWindowTime)
  {
    var ss := s.open + [SampleOf(x)];
    assert ss[..|s.open|] == s.open;
    LengthFollowsMinimum(ss, m, c.minWindowTime, c.maxWindowTime);
  }

  lemma {:induction false} OpenWithinRange(c: Config, xs: seq<Input>)
    requires forall i :: 0 <= i < |xs| ==> xs[i].rtt <= MAX_INT64
    ensures forall i :: 0 <= i < |Run(c, xs).open| ==> Run(c, xs).open[i].rtt <= MAX_INT64
  {
    if xs != [] {
      OpenWithinRange(c, xs[..|xs| - 1]);
    }
  }

  ghost predicate HasDrop(ss: seq<Sample>) {
    exists i :: 0 <= i < |ss| && ss[i].dropped
  }

  /** The drop flag a delegate receives is that of the last sample alone.  When a sample closes a
      window, the flag says whether the window had a drop if and only if that sample was dropped or
      the open window had no drop so far, both of which are known before the call. */
  lemma DropReportedIff(c: Config, xs: seq<Input>, x: Input)
    requires Counts(c, x) && Closes(c, Run(c, xs), x)
    ensures var s, calls := Run(c, xs), Run(c, xs + [x]).calls;
            && |calls| == |s.calls| + 1
            && (calls[|s.calls|].didDrop == HasDrop(calls[|s.calls|].samples)
                <==> x.didDrop || !s.sample.didDrop)
  {
    var s := Run(c, xs);
    assert (xs + [x])[..|xs|] == xs;
    RunKeepsInv(c, xs);
    FoldExtremes(s.open);
    var ss := s.open + [SampleOf(x)];
    assert ss[|s.open|].dropped == x.didDrop;
    if i :| 0 <= i < |s.open| && s.open[i].dropped {
      assert ss[i].dropped;
    }
  }

  /** A drop that the delegate never hears of. */
  lemma DropCanBeLost(c: Config) returns (xs: seq<Input>)
    requires c.Valid() && !NeverDelegates(c)
    ensures var s := Run(c, xs); |s.calls| == 1 && !s.calls[0].didDrop && HasDrop(s.calls[0].samples)
  {
    var rtt := Max(c.minRTTThreshold, 1);
    var dropped, last := Input(0, rtt, 0, true), Input(0, rtt, c.windowSize + 1, false);
    xs := [dropped, last];
    assert xs[..1] == [dropped] && [dropped][..0] == [];
    assert Run(c, []) == START;
    assert Run(c, [dropped]) == Step(c, START, dropped);
    assert Run(c, xs).calls[0].samples[0].dropped;
  }

  /** A window of a single sample is delegated, whatever windowSize is. */
  lemma SmallWindow(c: Config) returns (x: Input)
    requires c.Valid() && !NeverDelegates(c)
    ensures var s := Run(c, [x]);
            |s.calls| == 1 && |s.calls[0].samples| == 1 < c.windowSize
  {
    x := Input(0, Max(c.minRTTThreshold, 1), c.windowSize + 1, false);
    assert [x][..0] == [];
    assert Run(c, []) == START;
  }

  /** Configurations for which no sample can close a window. */
  predicate NeverDelegates(c: Config) {
    c.windowSize >= 0x7FFF_FFFF || c.minRTTThreshold >= MAX_INT64
  }

  lemma {:induction false} NothingDelegated(c: Config, xs: seq<Input>)
    requires NeverDelegates(c)
    ensures Run(c, xs).calls == []
  {
    if xs != [] {
      NothingDelegated(c, xs[..|xs| - 1]);
    }
  }

  ghost predicate WindowsAreFull(c: Config, s: State) {
    forall k :: 0 <= k < |s.calls| ==> |s.calls[k].samples| >= c.windowSize
  }

  /** windowSize is documented as the smallest sampling window, but is compared with the in-flight
      count.  Every delegated window of every run has at least windowSize samples if and only if the
      configuration never delegates a window at all. */
  lemma WindowSizeCountsSamplesIff(c: Config)
    requires c.Valid()
    ensures (forall xs :: WindowsAreFull(c, Run(c, xs))) <==> NeverDelegates(c)
  {
    if NeverDelegates(c) {
      forall xs ensures WindowsAreFull(c, Run(c, xs)) {
        NothingDelegated(c, xs);
      }
    } else {
      var x := SmallWindow(c);
      assert !WindowsAreFull(c, Run(c, [x]));
    }
  }

  // ---------------------------------------------------------------- the object

  class WindowedLimit {
    const config: Config
    var sample: Window
    var nextUpdateTime: int
    ghost var open: seq<Sample>
    ghost var calls: seq<Call>

    ghost function View(): State reads this { State(sample, nextUpdateTime, open, calls) }

    constructor (config: Config)
      requires config.Valid()
      ensures this.config == config && View() == START
    {
      this.config, sample, nextUpdateTime := config, EMPTY, 0;
      open, calls := [], [];
    }

    /** Answers whether the delegate was called, and with what. */
    method OnSample(startTime: int, rtt: int, inFlight: int, didDrop: bool)
      returns (delegated: bool, averageRTT: int, maxInFlight: int)
      modifies this
      ensures View() == Step(config, old(View()), Input(startTime, rtt, inFlight, didDrop))
      ensures delegated <==> |calls| == old(|calls|) + 1
      ensures delegated ==> calls[|calls| - 1].rtt == averageRTT && calls[|calls| - 1].inFlight == maxInFlight
    {
      delegated, averageRTT, maxInFlight := false, 0, 0;
      var endTime := startTime + rtt;
      if rtt < config.minRTTThreshold {
        return;
      }
      if didDrop {
        sample := AddDroppedSample(sample, inFlight);
      } else {
        sample := AddSample(sample, rtt, inFlight);
      }
      open := open + [Sample(rtt, inFlight, didDrop)];
      if endTime > nextUpdateTime && rtt < MAX_INT64 && Int32(inFlight) > config.windowSize {
        var current := sample;
        sample := EMPTY;
        nextUpdateTime := endTime + Min(Max(Wrap64(current.minRTT * 2), config.minWindowTime), config.maxWindowTime);
        delegated, averageRTT, maxInFlight := true, AverageRTT(current), current.maxInFlight;
        calls := calls + [Call(startTime, averageRTT, maxInFlight, didDrop, endTime, open)];
        open := [];
      }
    }
  }
}

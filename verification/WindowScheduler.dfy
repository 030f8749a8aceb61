/** How DefaultLimiter schedules limit updates (limiter/default.go:36-108, 225-262): each completion
    adds a sample in one lock region and tries an update in another, after a test made without
    the lock.  Modelled as a transition system in which other completions may run between the two
    regions, with clock readings as arbitrary inputs. */
module WindowScheduler {
  import opened Basics
  import opened SampleWindow
  import opened TokenCounter
  import CountingStrategies

  /** What NewDefaultLimiter accepts. */
  datatype Config = Config(minWindowTime: int, maxWindowTime: int, windowSize: int, minRTTThreshold: int) {
    predicate Valid() { 0 < minWindowTime <= maxWindowTime && windowSize >= 10 }
  }

  /** A DefaultListener: when it was acquired, and nextUpdateTime and the in-flight count seen then. */
  datatype Listener = Listener(startTime: int, snapshot: int, maxInFlight: int)

  datatype Phase =
    | Idle
    | Out(l: Listener)          // a listener is out
    // its sample is added, giving `current`, which has seen the samples from..to of the log
    | Sampled(endTime: int, snapshot: int, current: Window, from: nat, to: nat)

  /** What limit.OnSample is told. */
  datatype LimitSample = LimitSample(rtt: int, inFlight: int, didDrop: bool)

  /** One call of limit.OnSample, with the completion time and the samples from..to behind it. */
  datatype Update = Update(endTime: int, call: LimitSample, window: Window, from: nat, to: nat)

  datatype State = State(
    pc: map<nat, Phase>,
    sample: Window,             // the open window
    nextUpdateTime: int,
    log: seq<Sample>,           // every sample ever added
    start: nat,                 // the open window has seen log[start..]
    updates: seq<Update>)       // every call of limit.OnSample, in order

  datatype Event =
    | Acquire(g: nat, now: int, inFlight: int)
    | Ignore(g: nat)            // OnIgnore, or OnSuccess with a short round trip
    | Succeed(g: nat, now: int) // OnSuccess up to the end of updateAndGetSample
    | Drop(g: nat, now: int)    // OnDropped, likewise
    | TryUpdate(g: nat)         // updateLimit

  function PhaseOf(s: State, g: nat): Phase { if g in s.pc then s.pc[g] else Idle }

  predicate IsWindowReady(c: Config, w: Window) {
    w.minRTT < MAX_INT64 && w.sampleCount > c.windowSize
  }

  predicate Enabled(c: Config, s: State, e: Event) {
    var p := PhaseOf(s, e.g);
    match e
    case Acquire(_, _, _) => p.Idle?
    case Ignore(_) => p.Out?
    case Succeed(_, now) => p.Out? && now - p.l.startTime >= c.minRTTThreshold
    case Drop(_, _) => p.Out?
    case TryUpdate(_) => p.Sampled?
  }

  /** The lock region of updateAndGetSample. */
  function AddToWindow(s: State, g: nat, now: int, x: Sample): State
    requires PhaseOf(s, g).Out?
  {
    var w := Add(s.sample, x);
    s.(sample := w, log := s.log + [x],
       pc := s.pc[g := Sampled(now, s.pc[g].l.snapshot, w, s.start, |s.log| + 1)])
  }

  /** The fields of the limiter that updateLimit works on. */
  datatype Schedule = Schedule(sample: Window, nextUpdateTime: int)

  /** updateLimit, with or without the test made before taking the lock: the new fields, and what
      limit.OnSample is told if it is called. */
  function Attempt(c: Config, d: Schedule, snapshot: int, endTime: int, current: Window, doubleChecked: bool)
    : (Schedule, Option<LimitSample>)
  {
    if (doubleChecked && endTime <= snapshot) || endTime <= d.nextUpdateTime || !IsWindowReady(c, current)
    then (d, None)
    else (Schedule(EMPTY, endTime + WindowLength(current.minRTT, c.minWindowTime, c.maxWindowTime)),
          Some(LimitSample(current.minRTT, current.maxInFlight, current.didDrop)))
  }

  function RunUpdate(c: Config, s: State, g: nat, doubleChecked: bool): State
    requires PhaseOf(s, g).Sampled?
  {
    var p := s.pc[g];
    var (d, call) :=
      Attempt(c, Schedule(s.sample, s.nextUpdateTime), p.snapshot, p.endTime, p.current, doubleChecked);
    var s' := s.(pc := s.pc[g := Idle], sample := d.sample, nextUpdateTime := d.nextUpdateTime);
    if call.None? then s'
    else s'.(start := |s.log|,
             updates := s.updates + [Update(p.endTime, call.value, p.current, p.from, p.to)])
  }

  function Apply(c: Config, s: State, e: Event, doubleChecked: bool): State
    requires Enabled(c, s, e)
  {
    match e
    case Acquire(g, now, inFlight) => s.(pc := s.pc[g := Out(Listener(now, s.nextUpdateTime, inFlight))])
    case Ignore(g) => s.(pc := s.pc[g := Idle])
    case Succeed(g, now) =>
      AddToWindow(s, g, now, Sample(now - s.pc[g].l.startTime, s.pc[g].l.maxInFlight, false))
    case Drop(g, now) => AddToWindow(s, g, now, Sample(0, s.pc[g].l.maxInFlight, true))
    case TryUpdate(g) => RunUpdate(c, s, g, doubleChecked)
  }

  predicate Init(s: State) {
    s == State(map[], EMPTY, 0, [], 0, [])
  }

  // ---------------------------------------------------------------- invariants

  /** A listener's snapshot is an old value of a clock that only moves forward. */
  ghost predicate SnapshotInv(s: State) {
    forall g :: g in s.pc ==>
      match s.pc[g]
      case Idle => true
      case Out(l) => l.snapshot <= s.nextUpdateTime
      case Sampled(_, snapshot, _, _, _) => snapshot <= s.nextUpdateTime
  }

  predicate Saw(log: seq<Sample>, w: Window, from: nat, to: nat) {
    from <= to <= |log| && w == Fold(log[from..to])
  }

  /** Every window in play is the fold of a contiguous piece of the sample log. */
  ghost predicate WindowInv(s: State) {
    && Saw(s.log, s.sample, s.start, |s.log|)
    && (forall g :: g in s.pc && s.pc[g].Sampled? ==> Saw(s.log, s.pc[g].current, s.pc[g].from, s.pc[g].to))
    && (forall i :: 0 <= i < |s.updates| ==>
          Saw(s.log, s.updates[i].window, s.updates[i].from, s.updates[i].to))
  }

  /** An update is made on a ready window and passes on what that window says. */
  predicate ReadyUpdate(c: Config, u: Update) {
    && IsWindowReady(c, u.window)
    && u.call == LimitSample(u.window.minRTT, u.window.maxInFlight, u.window.didDrop)
  }

  ghost predicate UpdateInv(c: Config, s: State) {
    && (forall i :: 0 <= i < |s.updates| ==> ReadyUpdate(c, s.updates[i]) && s.updates[i].to <= s.start)
    && (forall i :: 0 <= i < |s.updates| - 1 ==>
          s.updates[i + 1].endTime > s.updates[i].endTime + c.minWindowTime)
    && (s.updates != [] ==> s.nextUpdateTime >= s.updates[|s.updates| - 1].endTime + c.minWindowTime)
  }

  /** The pieces of the log that listeners still carry or that have fed an update. */
  ghost function Spans(s: State): set<(nat, nat)> {
    (set g | g in s.pc && s.pc[g].Sampled? :: (s.pc[g].from, s.pc[g].to))
    + (set i | 0 <= i < |s.updates| :: (s.updates[i].from, s.updates[i].to))
  }

  /** A piece is not empty, and belongs to the open window or ends before it. */
  predicate SpanFits(a: (nat, nat), start: nat, end: nat) {
    a.0 < a.1 <= end && a.0 <= start && (a.0 < start ==> a.1 <= start)
  }

  /** Pieces of different windows do not overlap. */
  ghost predicate SpanInv(s: State) {
    && (forall a :: a in Spans(s) ==> SpanFits(a, s.start, |s.log|))
    && (forall a, b :: a in Spans(s) && b in Spans(s) && a.0 < b.0 ==> a.1 <= b.0)
  }

  ghost predicate Inv(c: Config, s: State) {
    SnapshotInv(s) && WindowInv(s) && UpdateInv(c, s) && SpanInv(s)
  }

  lemma SawMore(log: seq<Sample>, x: Sample, w: Window, from: nat, to: nat)
    requires Saw(log, w, from, to)
    ensures Saw(log + [x], w, from, to)
  {
    assert (log + [x])[from..to] == log[from..to];
  }

  lemma AddKeepsWindows(s: State, g: nat, now: int, x: Sample)
    requires WindowInv(s) && PhaseOf(s, g).Out?
    ensures WindowInv(AddToWindow(s, g, now, x))
  {
    var s' := AddToWindow(s, g, now, x);
    assert s'.log[s.start..][..|s.log| - s.start] == s.log[s.start..];
    assert s.log[s.start..|s.log|] == s.log[s.start..] && s'.log[s.start..|s'.log|] == s'.log[s.start..];
    forall h | h in s.pc && s.pc[h].Sampled? ensures Saw(s'.log, s.pc[h].current, s.pc[h].from, s.pc[h].to) {
      SawMore(s.log, x, s.pc[h].current, s.pc[h].from, s.pc[h].to);
    }
    forall i | 0 <= i < |s.updates|
      ensures Saw(s'.log, s.updates[i].window, s.updates[i].from, s.updates[i].to)
    {
      SawMore(s.log, x, s.updates[i].window, s.updates[i].from, s.updates[i].to);
    }
  }

  lemma StepKeepsWindows(c: Config, s: State, e: Event, doubleChecked: bool)
    requires WindowInv(s) && Enabled(c, s, e)
    ensures WindowInv(Apply(c, s, e, doubleChecked))
  {
    match e
    case Succeed(g, now) =>
      AddKeepsWindows(s, g, now, Sample(now - s.pc[g].l.startTime, s.pc[g].l.maxInFlight, false));
    case Drop(g, now) => AddKeepsWindows(s, g, now, Sample(0, s.pc[g].l.maxInFlight, true));
    case TryUpdate(g) => assert s.log[|s.log|..|s.log|] == [];
    case _ =>
  }

  lemma StepKeepsSnapshots(c: Config, s: State, e: Event, doubleChecked: bool)
    requires c.Valid() && SnapshotInv(s) && Enabled(c, s, e)
    ensures SnapshotInv(Apply(c, s, e, doubleChecked))
    ensures Apply(c, s, e, doubleChecked).nextUpdateTime >= s.nextUpdateTime
  {}

  lemma StepKeepsUpdates(c: Config, s: State, e: Event, doubleChecked: bool)
    requires c.Valid() && WindowInv(s) && UpdateInv(c, s) && Enabled(c, s, e)
    ensures UpdateInv(c, Apply(c, s, e, doubleChecked))
  {
    if e.TryUpdate? {
      UpdateKeepsUpdates(c, s, e.g, doubleChecked);
    }
  }

  lemma UpdateKeepsUpdates(c: Config, s: State, g: nat, doubleChecked: bool)
    requires c.Valid() && UpdateInv(c, s) && PhaseOf(s, g).Sampled? && s.pc[g].to <= |s.log| && s.start <= |s.log|
    ensures UpdateInv(c, RunUpdate(c, s, g, doubleChecked))
  {
    var s' := RunUpdate(c, s, g, doubleChecked);
    var n := |s.updates|;
    assert forall i :: 0 <= i < n ==> s'.updates[i] == s.updates[i];
    if |s'.updates| > n && n > 0 {
      assert s'.updates[n].endTime > s'.updates[n - 1].endTime + c.minWindowTime;
    }
  }

  /** A step makes at most one new piece, the open window with the sample it adds. */
  lemma StepSpans(c: Config, s: State, e: Event, doubleChecked: bool)
    requires Enabled(c, s, e)
    ensures var s' := Apply(c, s, e, doubleChecked);
            if |s'.log| > |s.log| then s'.start == s.start && Spans(s') <= Spans(s) + {(s.start, |s.log| + 1)}
            else Spans(s') <= Spans(s)
  {
    var s' := Apply(c, s, e, doubleChecked);
    forall a | a in Spans(s') && a !in Spans(s)
      ensures |s'.log| > |s.log| && a == (s.start, |s.log| + 1)
    {
      SpanOrigin(s, s', e.g, a);
    }
  }

  lemma SpanOrigin(s: State, s': State, g: nat, a: (nat, nat))
    requires g in s'.pc && s'.pc == s.pc[g := s'.pc[g]] && a in Spans(s')
    requires s'.updates == s.updates
             || (PhaseOf(s, g).Sampled? && |s'.updates| > 0 && s'.updates[..|s'.updates| - 1] == s.updates
                 && (s'.updates[|s'.updates| - 1].from, s'.updates[|s'.updates| - 1].to) == (s.pc[g].from, s.pc[g].to))
    ensures a in Spans(s) || (s'.pc[g].Sampled? && a == (s'.pc[g].from, s'.pc[g].to))
  {
    if i :| 0 <= i < |s'.updates| && a == (s'.updates[i].from, s'.updates[i].to) {
      if i < |s.updates| {
        assert s'.updates[i] == s.updates[i];
      }
    }
  }

  lemma StepKeepsSpans(c: Config, s: State, e: Event, doubleChecked: bool)
    requires SpanInv(s) && s.start <= |s.log| && Enabled(c, s, e)
    ensures SpanInv(Apply(c, s, e, doubleChecked))
  {
    StepSpans(c, s, e, doubleChecked);
  }

  // ---------------------------------------------------------------- runs

  ghost predicate IsRun(c: Config, ss: seq<State>, es: seq<Event>, doubleChecked: bool) {
    && |ss| == |es| + 1
    && Init(ss[0])
    && forall i :: 0 <= i < |es| ==>
         Enabled(c, ss[i], es[i]) && ss[i + 1] == Apply(c, ss[i], es[i], doubleChecked)
  }

  lemma {:induction false} RunKeepsInv(c: Config, ss: seq<State>, es: seq<Event>, doubleChecked: bool, i: nat)
    requires c.Valid() && IsRun(c, ss, es, doubleChecked) && i < |ss|
    ensures Inv(c, ss[i])
  {
    if i > 0 {
      RunKeepsInv(c, ss, es, doubleChecked, i - 1);
      StepKeepsWindows(c, ss[i - 1], es[i - 1], doubleChecked);
      StepKeepsSnapshots(c, ss[i - 1], es[i - 1], doubleChecked);
      StepKeepsUpdates(c, ss[i - 1], es[i - 1], doubleChecked);
      StepKeepsSpans(c, ss[i - 1], es[i - 1], doubleChecked);
    }
  }

  /** The test without the lock never suppresses an update that the locked test would accept: the
      double-checked limiter and one that always takes the lock have exactly the same runs. */
  lemma DoubleCheckRefinesLockedCheck(c: Config, ss: seq<State>, es: seq<Event>)
    requires c.Valid()
    ensures IsRun(c, ss, es, true) <==> IsRun(c, ss, es, false)
  {
    if IsRun(c, ss, es, true) || IsRun(c, ss, es, false) {
      var checked := IsRun(c, ss, es, true);
      forall i | 0 <= i < |es|
        ensures Apply(c, ss[i], es[i], true) == Apply(c, ss[i], es[i], false)
      {
        RunKeepsInv(c, ss, es, checked, i);
      }
    }
  }

  /** nextUpdateTime never moves back and moves forward at every update, by more than minWindowTime
      past the completion that caused it. */
  lemma NextUpdateTimeIsMonotone(c: Config, ss: seq<State>, es: seq<Event>, i: nat)
    requires c.Valid() && IsRun(c, ss, es, true) && i < |es|
    ensures ss[i].nextUpdateTime <= ss[i + 1].nextUpdateTime
    ensures |ss[i + 1].updates| > |ss[i].updates| ==>
              ss[i].nextUpdateTime + c.minWindowTime < ss[i + 1].nextUpdateTime
  {
    RunKeepsInv(c, ss, es, true, i);
    StepKeepsSnapshots(c, ss[i], es[i], true);
  }

  /** In every run, whatever the clocks say and whoever runs between the two lock regions: consecutive
      limit updates complete more than minWindowTime apart, and each is fed the fold of a contiguous
      piece of the sample stream with more than windowSize round trips in it. */
  lemma UpdatesAreSpacedAndFull(c: Config, ss: seq<State>, es: seq<Event>, i: nat, k: nat)
    requires c.Valid() && IsRun(c, ss, es, true) && i < |ss| && k < |ss[i].updates|
    ensures var u := ss[i].updates[k]; var seen := ss[i].log;
            && u.from < u.to <= |seen| && u.window == Fold(seen[u.from..u.to])
            && |RTTs(seen[u.from..u.to])| > c.windowSize
            && (k > 0 ==> u.endTime > ss[i].updates[k - 1].endTime + c.minWindowTime)
  {
    RunKeepsInv(c, ss, es, true, i);
    var u := ss[i].updates[k];
    assert Saw(ss[i].log, u.window, u.from, u.to) && ReadyUpdate(c, u);
    assert (u.from, u.to) in Spans(ss[i]);
    FoldCounts(ss[i].log[u.from..u.to]);
    if k > 0 {
      assert ss[i].updates[k - 1 + 1].endTime > ss[i].updates[k - 1].endTime + c.minWindowTime;
    }
  }

  /** What limit.OnSample is told in every update of every run: the largest in-flight count of the
      update's samples, whether any of them was dropped, and a round trip that is the smallest of
      those not dropped if and only if none of them is 0 or some are negative. */
  lemma UpdatesReportTheirSamples(c: Config, ss: seq<State>, es: seq<Event>, i: nat, k: nat)
    requires c.Valid() && IsRun(c, ss, es, true) && i < |ss| && k < |ss[i].updates|
    requires forall n :: 0 <= n < |ss[i].log| ==> ss[i].log[n].rtt <= MAX_INT64
    ensures var u := ss[i].updates[k];
            u.from < u.to <= |ss[i].log| && Reports(u.call, ss[i].log[u.from..u.to])
  {
    UpdatesAreSpacedAndFull(c, ss, es, i, k);
    RunKeepsInv(c, ss, es, true, i);
    var u := ss[i].updates[k];
    var used := ss[i].log[u.from..u.to];
    assert ReadyUpdate(c, u);
    assert forall n :: 0 <= n < |used| ==> used[n] == ss[i].log[u.from + n];
    FoldExtremes(used);
    CandidateIsMinimumIff(used);
  }

  ghost predicate Reports(call: LimitSample, used: seq<Sample>) {
    && (forall n :: 0 <= n < |used| ==> used[n].inFlight <= call.inFlight)
    && (call.inFlight == 0 || exists n :: 0 <= n < |used| && used[n].inFlight == call.inFlight)
    && (call.didDrop <==> exists n :: 0 <= n < |used| && used[n].dropped)
    && (IsMin(call.rtt, RTTs(used)) <==> 0 !in RTTs(used) || exists x :: x in RTTs(used) && x < 0)
  }

  /** When the next update may come: the window is twice the smallest round trip of the samples that fed
      the update, kept between minWindowTime and maxWindowTime, and begins at its completion time. */
  lemma NextUpdateFollowsTheWindow(c: Config, ss: seq<State>, es: seq<Event>, i: nat, m: int)
    requires c.Valid() && IsRun(c, ss, es, true) && i < |es| && |ss[i + 1].updates| > |ss[i].updates|
    requires forall n :: 0 <= n < |ss[i].log| ==> ss[i].log[n].rtt <= MAX_INT64
    requires var u := ss[i + 1].updates[|ss[i].updates|];
             u.from <= u.to <= |ss[i].log| && IsMin(m, RTTs(ss[i].log[u.from..u.to]))
    requires 0 < 2 * m <= MAX_INT64
    ensures var u := ss[i + 1].updates[|ss[i].updates|];
            ss[i + 1].nextUpdateTime == u.endTime + Min(Max(2 * m, c.minWindowTime), c.maxWindowTime)
  {
    RunKeepsInv(c, ss, es, true, i);
    var u := ss[i + 1].updates[|ss[i].updates|];
    var used := ss[i].log[u.from..u.to];
    assert forall n :: 0 <= n < |used| ==> used[n] == ss[i].log[u.from + n];
    assert Saw(ss[i].log, u.window, u.from, u.to);
    LengthFollowsMinimum(used, m, c.minWindowTime, c.maxWindowTime);
  }

  /** An update is made if and only if it is due and its samples have more than windowSize round trips,
      whenever round trips are positive. */
  lemma UpdateHappensIff(c: Config, ss: seq<State>, es: seq<Event>, i: nat)
    requires c.Valid() && IsRun(c, ss, es, true) && i < |es| && es[i].TryUpdate?
    requires forall n :: 0 <= n < |ss[i].log| && !ss[i].log[n].dropped ==> 0 < ss[i].log[n].rtt < MAX_INT64
    ensures var p := ss[i].pc[es[i].g];
            && p.from <= p.to <= |ss[i].log|
            && (|ss[i + 1].updates| > |ss[i].updates| <==>
                  p.endTime > ss[i].nextUpdateTime && |RTTs(ss[i].log[p.from..p.to])| > c.windowSize)
  {
    RunKeepsInv(c, ss, es, true, i);
    var p := ss[i].pc[es[i].g];
    assert Saw(ss[i].log, p.current, p.from, p.to);
    var used := ss[i].log[p.from..p.to];
    assert forall n :: 0 <= n < |used| ==> used[n] == ss[i].log[p.from + n];
    FoldCounts(used);
    PositiveCandidate(used);
    UpdateStep(c, ss[i], es[i].g);
  }

  lemma UpdateStep(c: Config, s: State, g: nat)
    requires SnapshotInv(s) && PhaseOf(s, g).Sampled?
    ensures |RunUpdate(c, s, g, true).updates| > |s.updates|
            <==> s.pc[g].endTime > s.nextUpdateTime && IsWindowReady(c, s.pc[g].current)
  {}

  // ---------------------------------------------------------------- what listeners measure

  /** The latest step of `g` among `es`. */
  function LatestOf(es: seq<Event>, g: nat): (k: Option<nat>)
    ensures k.Some? ==> k.value < |es| && es[k.value].g == g
  {
    if es == [] then None
    else if es[|es| - 1].g == g then Some(|es| - 1)
    else LatestOf(es[..|es| - 1], g)
  }

  lemma ListenerStep(c: Config, s: State, e: Event, g: nat)
    requires Enabled(c, s, e)
    ensures var p, p' := PhaseOf(s, g), PhaseOf(Apply(c, s, e, true), g);
            && (e.g != g ==> p' == p)
            && (e.g == g && p'.Out? ==> e.Acquire? && p'.l == Listener(e.now, s.nextUpdateTime, e.inFlight))
            && (e.g == g && p'.Sampled? ==> (e.Succeed? || e.Drop?) && p'.endTime == e.now)
  {}

  /** A listener that is out remembers the clock, nextUpdateTime and the in-flight count of its acquire; one
      whose sample is added remembers the clock of its completion. */
  lemma {:induction false} ListenersRemember(c: Config, ss: seq<State>, es: seq<Event>, i: nat, g: nat)
    requires IsRun(c, ss, es, true) && i < |ss|
    ensures var p, k := PhaseOf(ss[i], g), LatestOf(es[..i], g);
            && (p.Out? ==> && k.Some? && es[k.value].Acquire?
                           && p.l == Listener(es[k.value].now, ss[k.value].nextUpdateTime, es[k.value].inFlight))
            && (p.Sampled? ==> && k.Some? && (es[k.value].Succeed? || es[k.value].Drop?)
                               && p.endTime == es[k.value].now)
  {
    if i > 0 {
      ListenersRemember(c, ss, es, i - 1, g);
      assert es[..i][..i - 1] == es[..i - 1];
      ListenerStep(c, ss[i - 1], es[i - 1], g);
    }
  }

  /** Nothing else stands in the way: anybody without a listener can acquire one, a listener can be completed
      at any time as a drop or ignored, as a success exactly when its round trip reaches the threshold,
      and a completion that has added its sample can go on to its update. */
  lemma CompletionsAreFree(c: Config, ss: seq<State>, es: seq<Event>, i: nat, g: nat, now: int, inFlight: int)
    requires IsRun(c, ss, es, true) && i < |ss|
    ensures var p, k := PhaseOf(ss[i], g), LatestOf(es[..i], g);
            && (p.Idle? ==> Enabled(c, ss[i], Acquire(g, now, inFlight)))
            && (p.Out? ==> && Enabled(c, ss[i], Drop(g, now)) && Enabled(c, ss[i], Ignore(g)) && k.Some?
                           && es[k.value].Acquire?
                           && (Enabled(c, ss[i], Succeed(g, now)) <==> now - es[k.value].now >= c.minRTTThreshold))
            && (p.Sampled? ==> Enabled(c, ss[i], TryUpdate(g)))
  {
    ListenersRemember(c, ss, es, i, g);
  }

  /** Every completion adds the sample it measured and nothing else: the time since the listener's own
      acquire and the in-flight count of that moment, or a drop. */
  lemma SamplesAreMeasurements(c: Config, ss: seq<State>, es: seq<Event>, i: nat)
    requires IsRun(c, ss, es, true) && i < |es|
    ensures !es[i].Succeed? && !es[i].Drop? ==> ss[i + 1].log == ss[i].log
    ensures es[i].Succeed? || es[i].Drop? ==>
              var k := LatestOf(es[..i], es[i].g);
              && k.Some? && es[k.value].Acquire?
              && var rtt := if es[i].Succeed? then es[i].now - es[k.value].now else 0;
                 ss[i + 1].log == ss[i].log + [Sample(rtt, es[k.value].inFlight, es[i].Drop?)]
  {
    ListenersRemember(c, ss, es, i, es[i].g);
  }

  // ---------------------------------------------------------------- samples used twice

  predicate InSpan(n: nat, from: nat, to: nat) { from <= n < to }

  /** Some sample is in both pieces of the log. */
  ghost predicate Share(from1: nat, to1: nat, from2: nat, to2: nat) {
    exists n :: InSpan(n, from1, to1) && InSpan(n, from2, to2)
  }

  lemma ShareIff(s: State, a: (nat, nat), b: (nat, nat))
    requires SpanInv(s) && a in Spans(s) && b in Spans(s)
    ensures Share(a.0, a.1, b.0, b.1) <==> a.0 == b.0
  {
    if a.0 == b.0 {
      assert InSpan(a.0, a.0, a.1) && InSpan(a.0, b.0, b.1);
    }
  }

  /** When a listener tries an update, the window it carries has a sample in common with that of an
      earlier update if and only if that update was made from the very window the listener's own
      sample went into. */
  lemma ReusesSamplesIff(c: Config, ss: seq<State>, es: seq<Event>, i: nat, k: nat)
    requires c.Valid() && IsRun(c, ss, es, true) && i < |es| && es[i].TryUpdate? && k < |ss[i].updates|
    ensures var p, u := ss[i].pc[es[i].g], ss[i].updates[k];
            Share(u.from, u.to, p.from, p.to) <==> u.from == p.from
  {
    RunKeepsInv(c, ss, es, true, i);
    var p, u := ss[i].pc[es[i].g], ss[i].updates[k];
    assert (u.from, u.to) in Spans(ss[i]) && (p.from, p.to) in Spans(ss[i]);
    ShareIff(ss[i], (u.from, u.to), (p.from, p.to));
  }

  /** Two updates of a run have fed on a common sample if and only if both were made from the same
      window. */
  lemma UpdatesShareSamplesIff(c: Config, ss: seq<State>, es: seq<Event>, i: nat, j: nat, k: nat)
    requires c.Valid() && IsRun(c, ss, es, true) && i < |ss| && j < k < |ss[i].updates|
    ensures var u, v := ss[i].updates[j], ss[i].updates[k];
            Share(u.from, u.to, v.from, v.to) <==> u.from == v.from
  {
    RunKeepsInv(c, ss, es, true, i);
    var u, v := ss[i].updates[j], ss[i].updates[k];
    assert (u.from, u.to) in Spans(ss[i]) && (v.from, v.to) in Spans(ss[i]);
    ShareIff(ss[i], (u.from, u.to), (v.from, v.to));
  }

  /** In particular, an update made on the window that is still open uses no sample an earlier
      update has used. */
  lemma FreshUpdateUsesNewSamples(c: Config, ss: seq<State>, es: seq<Event>, i: nat, k: nat)
    requires c.Valid() && IsRun(c, ss, es, true) && i < |es| && es[i].TryUpdate? && k < |ss[i].updates|
    requires ss[i].pc[es[i].g].from == ss[i].start
    ensures var p, u := ss[i].pc[es[i].g], ss[i].updates[k]; !Share(u.from, u.to, p.from, p.to)
  {
    RunKeepsInv(c, ss, es, true, i);
    var u := ss[i].updates[k];
    assert (u.from, u.to) in Spans(ss[i]);
    ReusesSamplesIff(c, ss, es, i, k);
  }

  // ---------------------------------------------------------------- samples used by no update

  /** The sample `n` has left the open window, and neither an update nor a listener has it. */
  ghost predicate Lost(s: State, n: nat) {
    n < s.start && forall a :: a in Spans(s) ==> !InSpan(n, a.0, a.1)
  }

  /** What a successful update does to the window that was open until then: it is closed, and one of its
      samples feeds the update if and only if the update was made from it, before that sample came.
      A stale update uses none of them. */
  lemma UpdateClosesTheWindow(c: Config, ss: seq<State>, es: seq<Event>, i: nat, n: nat)
    requires c.Valid() && IsRun(c, ss, es, true) && i < |es| && |ss[i + 1].updates| > |ss[i].updates|
    requires ss[i].start <= n < |ss[i].log|
    ensures es[i].TryUpdate? && n < ss[i + 1].start == |ss[i].log|
    ensures var p, u := ss[i].pc[es[i].g], ss[i + 1].updates[|ss[i].updates|];
            && (u.from, u.to) == (p.from, p.to)
            && (InSpan(n, u.from, u.to) <==> p.from == ss[i].start && n < p.to)
  {
    RunKeepsInv(c, ss, es, true, i);
    var p := ss[i].pc[es[i].g];
    assert (p.from, p.to) in Spans(ss[i]);
  }

  lemma StepKeepsLost(c: Config, s: State, e: Event, n: nat)
    requires Enabled(c, s, e) && s.start <= |s.log| && Lost(s, n)
    ensures Lost(Apply(c, s, e, true), n)
  {
    StepSpans(c, s, e, true);
  }

  lemma {:induction false} LostStaysLost(c: Config, ss: seq<State>, es: seq<Event>, i: nat, j: nat, n: nat)
    requires c.Valid() && IsRun(c, ss, es, true) && i <= j < |ss| && Lost(ss[i], n)
    ensures Lost(ss[j], n)
    decreases j
  {
    if i < j {
      LostStaysLost(c, ss, es, i, j - 1, n);
      RunKeepsInv(c, ss, es, true, j - 1);
      StepKeepsLost(c, ss[j - 1], es[j - 1], n);
    }
  }

  /** A sample that has left the open window feeds an update of the rest of the run only if an update or
      a listener has it already: a lost one feeds no update, ever. */
  lemma LostSamplesFeedNoUpdate(
    c: Config, ss: seq<State>, es: seq<Event>, i: nat, j: nat, n: nat, k: nat)
    requires c.Valid() && IsRun(c, ss, es, true) && i <= j < |ss| && Lost(ss[i], n) && k < |ss[j].updates|
    ensures !InSpan(n, ss[j].updates[k].from, ss[j].updates[k].to)
  {
    LostStaysLost(c, ss, es, i, j, n);
    assert (ss[j].updates[k].from, ss[j].updates[k].to) in Spans(ss[j]);
  }

  // ---------------------------------------------------------------- stale updates

  lemma Extend(c: Config, ss: seq<State>, es: seq<Event>, e: Event)
    returns (ss': seq<State>, es': seq<Event>)
    requires IsRun(c, ss, es, true) && Enabled(c, ss[|ss| - 1], e)
    ensures IsRun(c, ss', es', true) && ss' == ss + [Apply(c, ss[|ss| - 1], e, true)]
  {
    ss', es' := ss + [Apply(c, ss[|ss| - 1], e, true)], es + [e];
  }

  /** `k` listeners have added a sample of round trip `rtt` each and not yet tried to update. */
  ghost predicate Collected(s: State, k: nat, rtt: int) {
    && s.nextUpdateTime == 0 && s.start == 0 && s.updates == [] && |s.log| == k
    && s.sample == Window(if k == 0 then MAX_INT64 else rtt, if k == 0 then 0 else 1, k, k * rtt, false)
    && (forall g :: g in s.pc ==> g < k)
    && (k > 0 ==> k - 1 in s.pc && s.pc[k - 1] == Sampled(rtt, 0, s.sample, 0, k))
  }

  lemma {:induction false} Collect(c: Config, k: nat, rtt: int) returns (ss: seq<State>, es: seq<Event>)
    requires c.minRTTThreshold <= rtt && 0 < rtt < MAX_INT64
    ensures IsRun(c, ss, es, true) && Collected(ss[|ss| - 1], k, rtt)
  {
    if k == 0 {
      ss, es := [State(map[], EMPTY, 0, [], 0, [])], [];
    } else {
      var ss1, es1 := Collect(c, k - 1, rtt);
      var ss2, es2 := Extend(c, ss1, es1, Acquire(k - 1, 0, 1));
      ss, es := Extend(c, ss2, es2, Succeed(k - 1, rtt));
      assert (k - 1) * rtt + rtt == k * rtt;
    }
  }

  /** An update made on a window that has been reset meanwhile is still carried out.  For every
      configuration there is a run in which two consecutive updates are both fed the first
      windowSize + 1 samples, so windows do not partition the samples here. */
  lemma StaleUpdateReusesSamples(c: Config) returns (ss: seq<State>, es: seq<Event>)
    requires c.Valid() && c.minRTTThreshold < MAX_INT64
    ensures IsRun(c, ss, es, true)
    ensures var u := ss[|ss| - 1].updates;
            && |u| == 2 && u[0].from == 0 == u[1].from
            && u[0].to == c.windowSize + 1 && u[1].to == c.windowSize + 2
  {
    var rtt, n := Max(c.minRTTThreshold, 1), c.windowSize + 1;
    var late := rtt + WindowLength(rtt, c.minWindowTime, c.maxWindowTime) + 1;
    var ss1, es1 := Collect(c, n, rtt);
    var ss2, es2 := Extend(c, ss1, es1, Acquire(n, late - rtt, 1));
    var ss3, es3 := Extend(c, ss2, es2, Succeed(n, late));
    var ss4, es4 := Extend(c, ss3, es3, TryUpdate(n - 1));
    assert |ss4[|ss4| - 1].updates| == 1;
    ss, es := Extend(c, ss4, es4, TryUpdate(n));
  }

  /** No window has a candidate. */
  ghost predicate NoCandidates(s: State) {
    && s.sample.minRTT >= MAX_INT64 && s.updates == []
    && forall g :: g in s.pc && s.pc[g].Sampled? ==> s.pc[g].current.minRTT >= MAX_INT64
  }

  lemma {:induction false} ThresholdForbidsUpdates(c: Config, ss: seq<State>, es: seq<Event>, i: nat)
    requires IsRun(c, ss, es, true) && i < |ss| && c.minRTTThreshold >= MAX_INT64
    ensures NoCandidates(ss[i])
  {
    if i > 0 {
      ThresholdForbidsUpdates(c, ss, es, i - 1);
      StepKeepsNoCandidates(c, ss[i - 1], es[i - 1]);
    }
  }

  lemma StepKeepsNoCandidates(c: Config, s: State, e: Event)
    requires NoCandidates(s) && Enabled(c, s, e) && c.minRTTThreshold >= MAX_INT64
    ensures NoCandidates(Apply(c, s, e, true))
  {}

  /** Two updates of this state have a sample in common. */
  ghost predicate SharedSamples(s: State) {
    exists j, k :: 0 <= j < k < |s.updates|
                   && Share(s.updates[j].from, s.updates[j].to, s.updates[k].from, s.updates[k].to)
  }

  /** Samples are fed to two updates in some run, if and only if the threshold lets any update happen. */
  lemma SharingIsPossibleIff(c: Config)
    requires c.Valid()
    ensures (exists ss, es, i :: IsRun(c, ss, es, true) && 0 <= i < |ss| && SharedSamples(ss[i]))
            <==> c.minRTTThreshold < MAX_INT64
  {
    if c.minRTTThreshold < MAX_INT64 {
      var ss, es := StaleUpdateReusesSamples(c);
      var u := ss[|ss| - 1].updates;
      assert InSpan(0, u[0].from, u[0].to) && InSpan(0, u[1].from, u[1].to);
      assert SharedSamples(ss[|ss| - 1]);
    } else {
      forall ss, es, i | IsRun(c, ss, es, true) && 0 <= i < |ss|
        ensures !SharedSamples(ss[i])
      {
        ThresholdForbidsUpdates(c, ss, es, i);
      }
    }
  }

  /** Samples are lost, too: for every configuration that can update there is a run in which the sample
      after the first windowSize + 1 has been discarded with its window. */
  lemma SampleCanBeLost(c: Config) returns (ss: seq<State>, es: seq<Event>)
    requires c.Valid() && c.minRTTThreshold < MAX_INT64
    ensures IsRun(c, ss, es, true) && Lost(ss[|ss| - 1], c.windowSize + 1)
  {
    var rtt, n := Max(c.minRTTThreshold, 1), c.windowSize + 1;
    var ss1, es1, ss2, es2 := OneMoreSample(c, n, rtt);
    var s1 := ss1[|ss1| - 1];
    var ss3, es3 := Extend(c, ss2, es2, TryUpdate(n - 1));
    assert ss3[|ss3| - 1].nextUpdateTime > rtt && ss3[|ss3| - 1].start == n + 1;
    ss, es := Extend(c, ss3, es3, TryUpdate(n));
    RunKeepsInv(c, ss1, es1, true, |ss1| - 1);
    forall a | a in Spans(ss[|ss| - 1]) ensures !InSpan(n, a.0, a.1) {
      LaterSpan(s1, ss[|ss| - 1], n, a);
      assert SpanFits(a, s1.start, |s1.log|);
    }
  }

  /** `n` listeners have collected their samples, and then one more has. */
  lemma OneMoreSample(c: Config, n: nat, rtt: int)
    returns (ss1: seq<State>, es1: seq<Event>, ss: seq<State>, es: seq<Event>)
    requires c.minRTTThreshold <= rtt && 0 < rtt < MAX_INT64
    ensures IsRun(c, ss1, es1, true) && Collected(ss1[|ss1| - 1], n, rtt) && IsRun(c, ss, es, true)
    ensures var s1, s := ss1[|ss1| - 1], ss[|ss| - 1];
            && |s.log| == n + 1 && s.start == 0 && s.updates == [] && s.nextUpdateTime == 0
            && n in s.pc && s.pc[n].Sampled? && s.pc[n].endTime == rtt && s.pc == s1.pc[n := s.pc[n]]
  {
    ss1, es1 := Collect(c, n, rtt);
    var ss2, es2 := Extend(c, ss1, es1, Acquire(n, 0, 1));
    ss, es := Extend(c, ss2, es2, Succeed(n, rtt));
  }

  /** Only listeners that were there before still carry a window, and the one update used theirs. */
  lemma LaterSpan(s1: State, s: State, n: nat, a: (nat, nat))
    requires n > 0 && n - 1 in s1.pc && s1.pc[n - 1].Sampled? && s1.updates == []
    requires forall g :: g in s.pc && s.pc[g].Sampled? ==> g in s1.pc && s.pc[g] == s1.pc[g]
    requires |s.updates| == 1 && (s.updates[0].from, s.updates[0].to) == (s1.pc[n - 1].from, s1.pc[n - 1].to)
    requires a in Spans(s)
    ensures a in Spans(s1)
  {}

  // ---------------------------------------------------------------- the object

  /** DefaultLimiter over PreciseStrategy.  limit.EstimatedLimit() is an input wherever it is asked.
      Acquire, UpdateAndGetSample and UpdateLimit are the lock regions that the transition system
      interleaves, and make the same steps: of the counter, of the window and of the schedule. */
  class DefaultLimiter {
    const config: Config
    const strategy: CountingStrategies.PreciseStrategy
    var inFlight: int
    var sample: Window
    var nextUpdateTime: int

    function View(): Schedule reads this { Schedule(sample, nextUpdateTime) }

    constructor (config: Config, strategy: CountingStrategies.PreciseStrategy, estimate: int)
      requires config.Valid() && strategy.Valid()
      modifies strategy
      ensures this.config == config && this.strategy == strategy && inFlight == 0 && View() == Schedule(EMPTY, 0)
      ensures strategy.Valid() && strategy.View() == Relimited(old(strategy.View()), estimate)
      ensures strategy.tokens == old(strategy.tokens)
    {
      this.config, this.strategy := config, strategy;
      inFlight, sample, nextUpdateTime := 0, EMPTY, 0;
      new;
      strategy.SetLimit(estimate);
    }

    /** `now` is the clock's reading. */
    method Acquire(now: int) returns (listener: Option<Listener>)
      requires strategy.Valid()
      modifies this`inFlight, strategy
      ensures strategy.Valid() && strategy.View() == Tried(old(strategy.View()))
      ensures listener.Some? <==> Grants(old(strategy.View()))
      ensures listener.Some? ==> inFlight == old(inFlight) + 1 && strategy.tokens == old(strategy.tokens) + 1
                                 && listener.value == Listener(now, nextUpdateTime, inFlight)
      ensures listener.None? ==> inFlight == old(inFlight) && strategy.tokens == old(strategy.tokens)
    {
      var ok, _ := strategy.TryAcquire();
      if !ok {
        return None;
      }
      inFlight := inFlight + 1;
      return Some(Listener(now, nextUpdateTime, inFlight));
    }

    /** OnIgnore, and the beginning of the other completions. */
    method OnIgnore(l: Listener)
      requires strategy.Valid() && strategy.tokens > 0
      modifies this`inFlight, strategy
      ensures strategy.Valid() && strategy.View() == Released(old(strategy.View()))
      ensures inFlight == old(inFlight) - 1 && strategy.tokens == old(strategy.tokens) - 1
    {
      inFlight := inFlight - 1;
      strategy.Release();
    }

    /** A round trip below the threshold is ignored; any other is added to the window and followed by
        an attempt to update.  `estimate` is what limit.EstimatedLimit() would answer. */
    method OnSuccess(l: Listener, endTime: int, estimate: int) returns (call: Option<LimitSample>)
      requires strategy.Valid() && strategy.tokens > 0
      modifies this, strategy
      ensures strategy.Valid() && inFlight == old(inFlight) - 1 && strategy.tokens == old(strategy.tokens) - 1
      ensures var rtt := endTime - l.startTime; var added := Add(old(sample), Sample(rtt, l.maxInFlight, false));
              (View(), call) ==
              if rtt < config.minRTTThreshold then (old(View()), None)
              else Attempt(config, old(View()).(sample := added), l.snapshot, endTime, added, true)
      ensures var released := Released(old(strategy.View()));
              strategy.View() == if call.Some? then Relimited(released, estimate) else released
    {
      OnIgnore(l);
      var rtt := endTime - l.startTime;
      if rtt < config.minRTTThreshold {
        return None;
      }
      var _, current := UpdateAndGetSample(Sample(rtt, l.maxInFlight, false));
      call := UpdateLimit(l.snapshot, endTime, current, estimate);
    }

    method OnDropped(l: Listener, endTime: int, estimate: int) returns (call: Option<LimitSample>)
      requires strategy.Valid() && strategy.tokens > 0
      modifies this, strategy
      ensures strategy.Valid() && inFlight == old(inFlight) - 1 && strategy.tokens == old(strategy.tokens) - 1
      ensures var added := Add(old(sample), Sample(0, l.maxInFlight, true));
              (View(), call) == Attempt(config, old(View()).(sample := added), l.snapshot, endTime, added, true)
      ensures var released := Released(old(strategy.View()));
              strategy.View() == if call.Some? then Relimited(released, estimate) else released
    {
      OnIgnore(l);
      var _, current := UpdateAndGetSample(Sample(0, l.maxInFlight, true));
      call := UpdateLimit(l.snapshot, endTime, current, estimate);
    }

    method UpdateAndGetSample(x: Sample) returns (before: Window, after: Window)
      modifies this`sample
      ensures before == old(sample) && after == sample == Add(old(sample), x)
    {
      before := sample;
      if x.dropped {
        after := AddDroppedSample(before, x.inFlight);
      } else {
        after := AddSample(before, x.rtt, x.inFlight);
      }
      sample := after;
    }

    /** `snapshot` is nextUpdateTime as it was when the listener was acquired.  Answers what
        limit.OnSample was told; after it the strategy has the new estimate for its limit. */
    method UpdateLimit(snapshot: int, endTime: int, current: Window, estimate: int)
      returns (call: Option<LimitSample>)
      requires strategy.Valid()
      modifies this`sample, this`nextUpdateTime, strategy
      ensures (View(), call) == Attempt(config, old(View()), snapshot, endTime, current, true)
      ensures call.Some? && 0 <= 2 * current.minRTT <= MAX_INT64 ==>
                nextUpdateTime ==
                endTime + Min(Max(2 * current.minRTT, config.minWindowTime), config.maxWindowTime)
      ensures strategy.View() ==
              if call.Some? then Relimited(old(strategy.View()), estimate) else old(strategy.View())
      ensures strategy.Valid() && strategy.tokens == old(strategy.tokens)
    {
      call := None;
      if endTime > snapshot {
        if endTime > nextUpdateTime {
          if IsWindowReady(config, current) {
            sample := EMPTY;
            var minWindowTime := Wrap64(current.minRTT * 2);
            if config.minWindowTime > minWindowTime {
              minWindowTime := config.minWindowTime;
            }
            var minVal := config.maxWindowTime;
            if minWindowTime < minVal {
              minVal := minWindowTime;
            }
            nextUpdateTime := endTime + minVal;
            call := Some(LimitSample(current.minRTT, current.maxInFlight, current.didDrop));
            strategy.SetLimit(estimate);
          }
        }
      }
    }
  }
}

/** ImmutableSampleWindow (measurements/immutable_sample_window.go) and the window length shared
    by DefaultLimiter and WindowedLimit.  Durations are int64 nanoseconds. */
module SampleWindow {
  import opened Basics

  const MAX_INT64 := 0x7FFF_FFFF_FFFF_FFFF

  datatype Window = Window(minRTT: int, maxInFlight: int, sampleCount: int, sum: int, didDrop: bool)

  /** NewImmutableSampleWindow: a minimum of 0 means that there is none. */
  function NewWindow(minRTT: int, sum: int, maxInFlight: int, sampleCount: int, didDrop: bool): Window {
    Window(if minRTT == 0 then MAX_INT64 else minRTT, maxInFlight, sampleCount, sum, didDrop)
  }

  const EMPTY := NewWindow(0, 0, 0, 0, false)

  function AddSample(w: Window, rtt: int, inFlight: int): Window {
    NewWindow(Min(rtt, w.minRTT), w.sum + rtt, Max(inFlight, w.maxInFlight), w.sampleCount + 1, w.didDrop)
  }

  function AddDroppedSample(w: Window, inFlight: int): Window {
    NewWindow(w.minRTT, w.sum, Max(inFlight, w.maxInFlight), w.sampleCount, true)
  }

  /** Go's integer division truncates toward zero. */
  function TruncDiv(a: int, b: int): int
    requires b > 0
  {
    if a >= 0 then a / b else -(-a / b)
  }

  function AverageRTT(w: Window): int {
    if w.sampleCount <= 0 then 0 else TruncDiv(w.sum, w.sampleCount)
  }

  datatype Sample = Sample(rtt: int, inFlight: int, dropped: bool)

  function Add(w: Window, s: Sample): Window {
    if s.dropped then AddDroppedSample(w, s.inFlight) else AddSample(w, s.rtt, s.inFlight)
  }

  /** The window that has seen exactly the samples `ss`, in order. */
  function Fold(ss: seq<Sample>): Window {
    if ss == [] then EMPTY else Add(Fold(ss[..|ss| - 1]), ss[|ss| - 1])
  }

  /** The round trips that count: those of samples that were not dropped. */
  function RTTs(ss: seq<Sample>): seq<int> {
    if ss == [] then [] else
      RTTs(ss[..|ss| - 1]) + (if ss[|ss| - 1].dropped then [] else [ss[|ss| - 1].rtt])
  }

  function SumOf(xs: seq<int>): int {
    if xs == [] then 0 else SumOf(xs[..|xs| - 1]) + xs[|xs| - 1]
  }

  predicate IsMin(m: int, xs: seq<int>) { m in xs && forall x :: x in xs ==> m <= x }

  /** A window counts and sums the round trips of the samples that were not dropped. */
  lemma {:induction false} FoldCounts(ss: seq<Sample>)
    ensures Fold(ss).sampleCount == |RTTs(ss)| && Fold(ss).sum == SumOf(RTTs(ss))
  {
    if ss != [] {
      var init := ss[..|ss| - 1];
      FoldCounts(init);
      if ss[|ss| - 1].dropped {
        assert RTTs(ss) == RTTs(init);
      } else {
        assert RTTs(ss)[..|RTTs(ss)| - 1] == RTTs(init);
      }
    }
  }

  /** A window knows the largest in-flight count of all its samples and whether any was dropped. */
  lemma {:induction false} FoldExtremes(ss: seq<Sample>)
    ensures forall i :: 0 <= i < |ss| ==> ss[i].inFlight <= Fold(ss).maxInFlight
    ensures Fold(ss).maxInFlight == 0 || exists i :: 0 <= i < |ss| && ss[i].inFlight == Fold(ss).maxInFlight
    ensures Fold(ss).didDrop <==> exists i :: 0 <= i < |ss| && ss[i].dropped
  {
    if ss != [] {
      var init, last := ss[..|ss| - 1], ss[|ss| - 1];
      FoldExtremes(init);
      assert forall i :: 0 <= i < |init| ==> ss[i] == init[i];
    }
  }

  /** What a window's candidate is: the smallest round trip, unless that is 0, which stands for "none"
      and makes the window forget every round trip so far. */
  lemma {:induction false} FoldCandidate(ss: seq<Sample>)
    requires forall i :: 0 <= i < |ss| ==> ss[i].rtt <= MAX_INT64
    ensures var m, xs := Fold(ss).minRTT, RTTs(ss);
            && m != 0 && m <= MAX_INT64 && (m in xs || m == MAX_INT64)
            && forall x :: x in xs ==> x <= MAX_INT64 && (m <= x || (m > 0 && 0 in xs && x >= 0))
  {
    if ss != [] {
      var init := ss[..|ss| - 1];
      assert forall i :: 0 <= i < |init| ==> ss[i] == init[i];
      FoldCandidate(init);
    }
  }

  /** The candidate is the smallest round trip of the samples that were not dropped, if and only if
      none of them is 0 or some are negative (a clock stepped back). */
  lemma {:induction false} CandidateIsMinimumIff(ss: seq<Sample>)
    requires RTTs(ss) != [] && forall i :: 0 <= i < |ss| ==> ss[i].rtt <= MAX_INT64
    ensures IsMin(Fold(ss).minRTT, RTTs(ss)) <==> 0 !in RTTs(ss) || exists x :: x in RTTs(ss) && x < 0
  {
    FoldCandidate(ss);
    MinimumUnlessZero(Fold(ss).minRTT, RTTs(ss));
  }

  lemma MinimumUnlessZero(m: int, xs: seq<int>)
    requires xs != [] && m != 0 && (m in xs || m == MAX_INT64)
    requires forall x :: x in xs ==> x <= MAX_INT64 && (m <= x || (m > 0 && 0 in xs && x >= 0))
    ensures IsMin(m, xs) <==> 0 !in xs || exists x :: x in xs && x < 0
  {
    var x0 := xs[0];
    assert x0 in xs;
    if x :| x in xs && x < 0 {
      assert m <= x;
    }
  }

  /** Positive round trips always leave a candidate. */
  lemma {:induction false} PositiveCandidate(ss: seq<Sample>)
    requires forall i :: 0 <= i < |ss| && !ss[i].dropped ==> 0 < ss[i].rtt < MAX_INT64
    ensures Fold(ss).minRTT > 0 && (Fold(ss).minRTT < MAX_INT64 <==> RTTs(ss) != [])
  {
    if ss != [] {
      var init := ss[..|ss| - 1];
      assert forall i :: 0 <= i < |init| ==> ss[i] == init[i];
      PositiveCandidate(init);
    }
  }

  /** A round trip of 5 followed by one of 0 leaves no candidate at all. */
  lemma ZeroErasesTheCandidate()
    ensures Fold([Sample(5, 1, false), Sample(0, 1, false)]).minRTT == MAX_INT64
  {
    var ss := [Sample(5, 1, false), Sample(0, 1, false)];
    assert ss[..1] == [ss[0]] && ss[..1][..0] == [];
    assert Fold(ss[..1]) == Add(EMPTY, ss[0]);
  }

  // ---------------------------------------------------------------- window length

  /** Wrap-around of int64. */
  function Wrap64(x: int): int {
    (x + 0x8000_0000_0000_0000) % 0x1_0000_0000_0000_0000 - 0x8000_0000_0000_0000
  }

  /** Twice the candidate round trip, kept between the configured bounds; the doubling wraps when
      there is no candidate. */
  function WindowLength(candidate: int, minTime: int, maxTime: int): (d: int)
    ensures Min(minTime, maxTime) <= d <= maxTime
    ensures minTime <= maxTime && 0 <= 2 * candidate <= MAX_INT64 ==>
              d == if 2 * candidate < minTime then minTime else if 2 * candidate > maxTime then maxTime
                   else 2 * candidate
  {
    Min(Max(Wrap64(2 * candidate), minTime), maxTime)
  }

  /** After samples whose smallest round trip is `m`, the length is 2 * m, kept between the bounds. */
  lemma {:induction false} LengthFollowsMinimum(ss: seq<Sample>, m: int, minTime: int, maxTime: int)
    requires forall i :: 0 <= i < |ss| ==> ss[i].rtt <= MAX_INT64
    requires IsMin(m, RTTs(ss)) && 0 < 2 * m <= MAX_INT64
    ensures WindowLength(Fold(ss).minRTT, minTime, maxTime) == Min(Max(2 * m, minTime), maxTime)
  {
    CandidateIsMinimumIff(ss);
  }
}

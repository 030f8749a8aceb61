/** Wake-ups really arrive: over infinite fair runs of the blocking protocol, the channel a
    waiter sleeps on is eventually closed, so nobody sleeps forever.  limiter/blocking.go
    captures the channel before the attempt for exactly this reason. */
module BlockingLiveness {
  import opened Basics
  import opened Goroutines
  import opened BlockingProtocol

  /** An infinite behaviour: the state at each instant and the step taken then, if any. */
  datatype Trace = Trace(at: nat -> State, ev: nat -> Option<Event>)

  ghost predicate StepAt(c: Config, t: Trace, i: nat) {
    match t.ev(i)
    case None => t.at(i + 1) == t.at(i)
    case Some(e) => Enabled(c, t.at(i), e) && t.at(i + 1) == Apply(c, t.at(i), e)
  }

  ghost predicate IsTrace(c: Config, t: Trace) {
    Init(t.at(0)) && forall i: nat :: StepAt(c, t, i)
  }

  predicate Acts(t: Trace, i: nat, g: nat) {
    t.ev(i).Some? && t.ev(i).value.g == g
  }

  /** Goroutines that cannot be kept waiting: those completing a token or closing a channel,
      callers that own a listener (they must complete it), and waiters whose channel is closed. */
  predicate MustMove(s: State, g: nat) {
    var p := PhaseOf(s, g);
    HasToken(p) || IsPending(p) || p.Swapped? || (p.Failed? && p.ch in s.closed)
  }

  ghost predicate Fair(t: Trace) {
    forall i: nat, g: nat :: MustMove(t.at(i), g) ==> exists j: nat :: j >= i && Acts(t, j, g)
  }

  lemma {:induction false} TraceKeepsInv(c: Config, t: Trace, i: nat)
    requires IsTrace(c, t)
    ensures Inv(c, t.at(i))
  {
    if i == 0 {
      assert Where(t.at(0).pc, HasToken) == {} && Where(t.at(0).pc, IsHolding) == {};
    } else {
      TraceKeepsInv(c, t, i - 1);
      assert StepAt(c, t, i - 1);
      if t.ev(i - 1).Some? {
        StepKeepsInv(c, t.at(i - 1), t.ev(i - 1).value);
      }
    }
  }

  lemma {:induction false} OnlyGrows(c: Config, t: Trace, i: nat, j: nat)
    requires IsTrace(c, t) && i <= j
    ensures t.at(i).cur <= t.at(j).cur && t.at(i).closed <= t.at(j).closed
    decreases j - i
  {
    if i < j {
      OnlyGrows(c, t, i, j - 1);
      assert StepAt(c, t, j - 1);
    }
  }

  /** A goroutine's phase changes only by its own steps. */
  lemma {:induction false} FirstAct(c: Config, t: Trace, i: nat, g: nat, bound: nat) returns (j: nat)
    requires IsTrace(c, t) && i <= bound && Acts(t, bound, g)
    ensures i <= j && Acts(t, j, g) && PhaseOf(t.at(j), g) == PhaseOf(t.at(i), g)
    decreases bound - i
  {
    if Acts(t, i, g) {
      j := i;
    } else {
      assert StepAt(c, t, i);
      j := FirstAct(c, t, i + 1, g, bound);
    }
  }

  lemma NextAct(c: Config, t: Trace, i: nat, g: nat) returns (j: nat)
    requires IsTrace(c, t) && Fair(t) && MustMove(t.at(i), g)
    ensures i <= j && Acts(t, j, g) && PhaseOf(t.at(j), g) == PhaseOf(t.at(i), g)
    ensures Enabled(c, t.at(j), t.ev(j).value) && t.at(j + 1) == Apply(c, t.at(j), t.ev(j).value)
  {
    var bound: nat :| bound >= i && Acts(t, bound, g);
    j := FirstAct(c, t, i, g, bound);
    assert StepAt(c, t, j);
  }

  /** Steps left before a goroutine that owns or has returned a token swaps the channel. */
  function StepsToSwap(p: Phase): nat {
    match p
    case Tallied(_) => 6
    case Holding(_) => 5
    case Uncounted => 4
    case Returned => 3
    case Estimating => 2
    case Updated => 1
    case _ => 0
  }

  /** A token in use is eventually followed by a broadcast. */
  lemma {:induction false} TokenLeadsToSwap(c: Config, t: Trace, i: nat, g: nat) returns (j: nat)
    requires IsTrace(c, t) && Fair(t)
    requires HasToken(PhaseOf(t.at(i), g)) || IsPending(PhaseOf(t.at(i), g))
    ensures i <= j && t.at(j).cur > t.at(i).cur
    decreases StepsToSwap(PhaseOf(t.at(i), g))
  {
    var k := NextAct(c, t, i, g);
    OnlyGrows(c, t, i, k);
    if PhaseOf(t.at(k), g).Updated? {
      j := k + 1;
    } else {
      OnlyGrows(c, t, i, k + 1);
      j := TokenLeadsToSwap(c, t, k + 1, g);
    }
  }

  /** A replaced channel is eventually closed. */
  lemma ReplacedLeadsToClosed(c: Config, t: Trace, i: nat, ch: nat) returns (j: nat)
    requires IsTrace(c, t) && Fair(t) && ch < t.at(i).cur
    ensures i <= j && ch in t.at(j).closed
  {
    TraceKeepsInv(c, t, i);
    if ch in t.at(i).closed {
      j := i;
    } else {
      assert HasCloser(t.at(i), ch);
      var g :| g in t.at(i).pc && t.at(i).pc[g] == Swapped(ch);
      var k := NextAct(c, t, i, g);
      j := k + 1;
    }
  }

  /** In every fair run, whenever a caller has failed its attempt and sleeps, the channel it
      captured is closed at some later instant and the caller leaves the select: no capacity,
      and no raise of the adaptive limit, is ever slept through. */
  lemma EveryWaiterIsWoken(c: Config, t: Trace, i: nat, g: nat) returns (woken: nat, left: nat)
    requires IsTrace(c, t) && Fair(t)
    requires PhaseOf(t.at(i), g).Failed?
    ensures i <= woken && PhaseOf(t.at(i), g).ch in t.at(woken).closed
    ensures i <= left && Acts(t, left, g) && PhaseOf(t.at(left), g) == PhaseOf(t.at(i), g)
  {
    var ch := PhaseOf(t.at(i), g).ch;
    TraceKeepsInv(c, t, i);
    var s, swapped := t.at(i), i;
    if ch == s.cur {
      var h: nat;
      if Pending(s) >= 1 {
        h := WhereWitness(s.pc, IsPending);
      } else {
        h := WhereWitness(s.pc, HasToken);
      }
      swapped := TokenLeadsToSwap(c, t, i, h);
    }
    woken := ReplacedLeadsToClosed(c, t, swapped, ch);
    left := WaiterLeaves(c, t, i, g, woken);
  }

  lemma {:induction false} WaiterLeaves(c: Config, t: Trace, i: nat, g: nat, woken: nat) returns (left: nat)
    requires IsTrace(c, t) && Fair(t) && i <= woken
    requires PhaseOf(t.at(i), g).Failed? && PhaseOf(t.at(i), g).ch in t.at(woken).closed
    ensures i <= left && Acts(t, left, g) && PhaseOf(t.at(left), g) == PhaseOf(t.at(i), g)
    decreases woken - i
  {
    if Acts(t, i, g) {
      left := i;
    } else if i == woken {
      left := NextAct(c, t, i, g);
    } else {
      assert StepAt(c, t, i);
      left := WaiterLeaves(c, t, i + 1, g, woken);
    }
  }

  // ---------------------------------------------------------------- trying again

  /** The steps of an attempt itself; taking DefaultLimiter's mutex is one of them. */
  predicate IsAttempting(p: Phase) {
    p.Polling? || p.Captured? || p.Locked? || p.Loaded? || p.Passed? || p.Tallied?
  }

  ghost predicate FairAttempts(t: Trace) {
    forall i: nat, g: nat :: IsAttempting(PhaseOf(t.at(i), g)) ==> exists j: nat :: j >= i && Acts(t, j, g)
  }

  /** Where the goroutine is in an attempt on the channel `ch`, or about to begin another. */
  predicate IsOn(p: Phase, ch: nat) { p.Polling? || (UsesChannel(p) && p.ch == ch) }

  /** What follows a failed attempt on `ch`: the caller gives up, has a listener, or tries again with a
      channel made after `ch`. */
  ghost predicate Resolves(t: Trace, j: nat, g: nat, ch: nat) {
    var p := PhaseOf(t.at(j), g);
    t.ev(j) == Some(Abandon(g)) || p.Holding? || (p.Captured? && p.ch > ch)
  }

  /** Steps left in an attempt, were no further one to begin. */
  function StepsLeft(p: Phase): nat {
    match p
    case Captured(_) => 7
    case Locked(_) => 6
    case Loaded(_, _) => 5
    case Passed(_) => 4
    case Tallied(_) => 3
    case Failed(_) => 2
    case Polling => 1
    case _ => 0
  }

  /** The next step of a goroutine that is in an attempt on `ch`. */
  lemma StepOfAttempt(c: Config, s: State, e: Event, ch: nat)
    requires Inv(c, s) && Enabled(c, s, e) && IsOn(PhaseOf(s, e.g), ch) && ch <= s.cur
    ensures var p, p' := PhaseOf(s, e.g), PhaseOf(Apply(c, s, e), e.g);
            || e.Abandon? || p'.Holding?
            || (p.Polling? && p' == Captured(s.cur))
            || (IsOn(p', ch) && !p.Polling? && StepsLeft(p') < StepsLeft(p))
  {}

  /** A goroutine in an attempt on a channel that is closed by `woken` takes its next step some time. */
  lemma NextStepOfAttempt(c: Config, t: Trace, i: nat, g: nat, ch: nat, woken: nat) returns (k: nat)
    requires IsTrace(c, t) && Fair(t) && FairAttempts(t)
    requires IsOn(PhaseOf(t.at(i), g), ch) && ch in t.at(woken).closed
    ensures i <= k && Acts(t, k, g) && PhaseOf(t.at(k), g) == PhaseOf(t.at(i), g) && StepAt(c, t, k)
  {
    if PhaseOf(t.at(i), g).Failed? {
      if i > woken {
        OnlyGrows(c, t, woken, i);
      }
      k := WaiterLeaves(c, t, i, g, if i < woken then woken else i);
    } else {
      var bound: nat :| bound >= i && Acts(t, bound, g);
      k := FirstAct(c, t, i, g, bound);
    }
  }

  /** ... and that step resolves the attempt or, once the channel is closed, leaves fewer of them. */
  lemma AttemptAdvances(c: Config, t: Trace, k: nat, g: nat, ch: nat, woken: nat)
    requires IsTrace(c, t) && Acts(t, k, g) && ch in t.at(woken).closed
    requires IsOn(PhaseOf(t.at(k), g), ch) && ch <= t.at(k).cur
    ensures var p, p' := PhaseOf(t.at(k), g), PhaseOf(t.at(k + 1), g);
            || Resolves(t, k, g, ch) || Resolves(t, k + 1, g, ch)
            || (IsOn(p', ch) && (k >= woken ==> StepsLeft(p') < StepsLeft(p)))
  {
    TraceKeepsInv(c, t, k);
    assert StepAt(c, t, k);
    StepOfAttempt(c, t.at(k), t.ev(k).value, ch);
    if k >= woken {
      OnlyGrows(c, t, woken, k);
    }
  }

  lemma {:induction false} AttemptResolves(c: Config, t: Trace, i: nat, g: nat, ch: nat, woken: nat)
    returns (j: nat)
    requires IsTrace(c, t) && Fair(t) && FairAttempts(t)
    requires IsOn(PhaseOf(t.at(i), g), ch) && ch <= t.at(i).cur && ch in t.at(woken).closed
    ensures i <= j && Resolves(t, j, g, ch)
    decreases if i < woken then woken - i else 0, StepsLeft(PhaseOf(t.at(i), g))
  {
    var k := NextStepOfAttempt(c, t, i, g, ch, woken);
    OnlyGrows(c, t, i, k);
    AttemptAdvances(c, t, k, g, ch, woken);
    if Resolves(t, k, g, ch) {
      j := k;
    } else if Resolves(t, k + 1, g, ch) {
      j := k + 1;
    } else {
      OnlyGrows(c, t, k, k + 1);
      j := AttemptResolves(c, t, k + 1, g, ch, woken);
    }
  }

  /** In every fair run, a caller whose attempt has failed does not just stop: some time later it gives up
      because of a cancellation or deadline, has a listener, or attempts again on a channel newer than
      the one it slept on. */
  lemma EveryWaiterTriesAgain(c: Config, t: Trace, i: nat, g: nat) returns (j: nat)
    requires IsTrace(c, t) && Fair(t) && FairAttempts(t)
    requires PhaseOf(t.at(i), g).Failed?
    ensures i <= j && Resolves(t, j, g, PhaseOf(t.at(i), g).ch)
  {
    TraceKeepsInv(c, t, i);
    var woken, _ := EveryWaiterIsWoken(c, t, i, g);
    j := AttemptResolves(c, t, i, g, PhaseOf(t.at(i), g).ch, woken);
  }
}

/** The single-counter strategies: SimpleStrategy (strategy/simple.go), whose TryAcquire checks
    and adds in separate atomic steps, and PreciseStrategy (strategy/precise.go), which does
    both under a mutex. */
module CountingStrategies {
  import opened Basics
  import opened Goroutines
  import opened TokenCounter

  // ---------------------------------------------------------------- SimpleStrategy

  datatype Phase =
    | Idle
    | Entered                   // inside TryAcquire, nothing loaded yet
    | Loaded(seen: int)         // inFlight loaded
    | Passed                    // the loaded value was below the loaded limit
    | Holding                   // owns a token

  /** `callers` bounds how many TryAcquire calls run at once, `cap` every limit ever set. */
  datatype Config = Config(callers: nat, cap: int)

  datatype State = State(pc: map<nat, Phase>, inFlight: int, limit: int)

  datatype Event =
    | Enter(g: nat) | Load(g: nat) | Check(g: nat) | Add(g: nat) | Release(g: nat)
    | SetLimit(g: nat, limit': int)

  function PhaseOf(s: State, g: nat): Phase { if g in s.pc then s.pc[g] else Idle }

  predicate InCall(p: Phase) { p.Entered? || p.Loaded? || p.Passed? }
  predicate IsHolding(p: Phase) { p.Holding? }

  ghost predicate Enabled(c: Config, s: State, e: Event) {
    var p := PhaseOf(s, e.g);
    match e
    case Enter(_) => p.Idle? && |Where(s.pc, InCall)| < c.callers
    case Load(_) => p.Entered?
    case Check(_) => p.Loaded?
    case Add(_) => p.Passed?
    case Release(_) => p.Holding?
    case SetLimit(_, limit') => AtLeastOne(limit') <= c.cap
  }

  function StrategyOf(s: State): Counter { Counter(s.inFlight, s.limit) }
  function With(s: State, k: Counter): State { s.(inFlight := k.inFlight, limit := k.limit) }

  ghost function Apply(c: Config, s: State, e: Event): State
    requires Enabled(c, s, e)
  {
    match e
    case Enter(g) => s.(pc := s.pc[g := Entered])
    case Load(g) => s.(pc := s.pc[g := Loaded(s.inFlight)])
    case Check(g) => s.(pc := s.pc[g := if Full(s.pc[g].seen, s.limit) then Idle else Passed])
    case Add(g) => With(s.(pc := s.pc[g := Holding]), Counted(StrategyOf(s)))
    case Release(g) => With(s.(pc := s.pc[g := Idle]), Released(StrategyOf(s)))
    case SetLimit(_, limit') => With(s, Relimited(StrategyOf(s), limit'))
  }

  ghost predicate Init(c: Config, s: State) {
    s.pc == map[] && s.inFlight == 0 && 1 <= s.limit <= c.cap
  }

  ghost predicate IsRun(c: Config, ss: seq<State>, es: seq<Event>) {
    && |ss| == |es| + 1
    && Init(c, ss[0])
    && forall i :: 0 <= i < |es| ==> Enabled(c, ss[i], es[i]) && ss[i + 1] == Apply(c, ss[i], es[i])
  }

  /** Calls that may still add: they loaded a value below the cap. */
  function MayAdd(cap: int): Phase -> bool { (p: Phase) => p.Passed? || (p.Loaded? && p.seen < cap) }

  /** The potential: tokens counted plus calls that may still count one. */
  ghost predicate Inv(c: Config, s: State) {
    && 1 <= s.limit <= c.cap
    && s.inFlight == |Where(s.pc, IsHolding)|
    && |Where(s.pc, InCall)| <= c.callers
    && (c.callers >= 1 ==> s.inFlight + |Where(s.pc, MayAdd(c.cap))| <= c.cap + c.callers - 1)
    && (c.callers == 0 ==> s.inFlight == 0)
  }

  lemma MayAddAreInCall(pc: map<nat, Phase>, cap: int)
    ensures |Where(pc, MayAdd(cap))| <= |Where(pc, InCall)|
  {
    var a, b := Where(pc, MayAdd(cap)), Where(pc, InCall);
    assert b == a + (b - a);
  }

  lemma StepKeepsInv(c: Config, s: State, e: Event)
    requires Inv(c, s) && Enabled(c, s, e)
    ensures Inv(c, Apply(c, s, e))
  {
    var s' := Apply(c, s, e);
    MayAddAreInCall(s'.pc, c.cap);
    if InCall(PhaseOf(s, e.g)) {
      WhereMember(s.pc, InCall, e.g);
    }
    if IsHolding(PhaseOf(s, e.g)) {
      WhereMember(s.pc, IsHolding, e.g);
    }
    if !e.SetLimit? {
      var v := s'.pc[e.g];
      assert s'.pc == s.pc[e.g := v];
      WhereUpdate(s.pc, e.g, v, InCall);
      WhereUpdate(s.pc, e.g, v, IsHolding);
      WhereUpdate(s.pc, e.g, v, MayAdd(c.cap));
    }
  }

  /** SimpleStrategy's race is bounded: with at most k calls at once and limits up to L, the count
      equals the tokens out and never exceeds L + k - 1, in any interleaving. */
  lemma {:induction false} SimpleOvershootIsBounded(c: Config, ss: seq<State>, es: seq<Event>, i: nat)
    requires IsRun(c, ss, es) && i < |ss| && c.callers >= 1
    ensures Inv(c, ss[i])
    ensures 0 <= ss[i].inFlight == |Where(ss[i].pc, IsHolding)| <= c.cap + c.callers - 1
  {
    if i == 0 {
      assert Where(ss[0].pc, IsHolding) == {} && Where(ss[0].pc, InCall) == {};
      assert Where(ss[0].pc, MayAdd(c.cap)) == {};
    } else {
      SimpleOvershootIsBounded(c, ss, es, i - 1);
      StepKeepsInv(c, ss[i - 1], es[i - 1]);
    }
  }

  /** What the limit has been set to by the steps `es`. */
  function LastLimit(first: int, es: seq<Event>): int {
    if es == [] then first
    else if es[|es| - 1].SetLimit? then AtLeastOne(es[|es| - 1].limit')
    else LastLimit(first, es[..|es| - 1])
  }

  /** Every check in progress meets the limit that was set last, and a call gives up exactly when the
      count it has loaded is not below that limit. */
  lemma {:induction false} ChecksMeetTheLatestLimit(c: Config, ss: seq<State>, es: seq<Event>, i: nat)
    requires IsRun(c, ss, es) && i < |ss|
    ensures ss[i].limit == LastLimit(ss[0].limit, es[..i])
    ensures i < |es| && es[i].Check? ==>
              var seen := ss[i].pc[es[i].g].seen;
              && (PhaseOf(ss[i + 1], es[i].g).Idle? <==> seen >= LastLimit(ss[0].limit, es[..i]))
              && (PhaseOf(ss[i + 1], es[i].g).Passed? <==> seen < LastLimit(ss[0].limit, es[..i]))
  {
    if i > 0 {
      ChecksMeetTheLatestLimit(c, ss, es, i - 1);
      assert es[..i][..i - 1] == es[..i - 1];
    }
  }

  /** Nobody is stuck: a call in progress can go on, a token can be released at any time, and whoever is idle
      can call as long as fewer than `callers` do. */
  lemma NobodyIsStuck(c: Config, ss: seq<State>, es: seq<Event>, i: nat, g: nat)
    requires IsRun(c, ss, es) && i < |ss|
    ensures var s := ss[i];
            match PhaseOf(s, g)
            case Idle => Enabled(c, s, Enter(g)) <==> |Where(s.pc, InCall)| < c.callers
            case Entered => Enabled(c, s, Load(g))
            case Loaded(_) => Enabled(c, s, Check(g))
            case Passed => Enabled(c, s, Add(g))
            case Holding => Enabled(c, s, Release(g))
    ensures forall limit' :: AtLeastOne(limit') <= c.cap ==> Enabled(c, ss[i], SetLimit(g, limit'))
  {}

  // ---------------------------------------------------------------- the bound is reached

  lemma Extend(c: Config, ss: seq<State>, es: seq<Event>, e: Event)
    returns (ss': seq<State>, es': seq<Event>)
    requires IsRun(c, ss, es) && Enabled(c, ss[|ss| - 1], e)
    ensures IsRun(c, ss', es') && ss' == ss + [Apply(c, ss[|ss| - 1], e)]
  {
    ss', es' := ss + [Apply(c, ss[|ss| - 1], e)], es + [e];
  }

  /** Goroutines below `held` own tokens, the next ones up to `top` have loaded `seen`. */
  ghost predicate Shape(s: State, held: nat, top: nat, seen: int) {
    && (forall g: nat :: g in s.pc <==> g < top)
    && forall g :: g in s.pc ==> s.pc[g] == if g < held then Holding else Loaded(seen)
  }

  lemma ShapeCounts(s: State, held: nat, top: nat, seen: int)
    requires Shape(s, held, top, seen) && held <= top
    ensures |Where(s.pc, InCall)| == top - held
    decreases top
  {
    if top == held {
      assert Where(s.pc, InCall) == {};
    } else {
      var before := s.(pc := map g | g in s.pc && g < top - 1 :: s.pc[g]);
      ShapeCounts(before, held, top - 1, seen);
      assert s.pc == before.pc[top - 1 := Loaded(seen)];
      WhereUpdate(before.pc, top - 1, Loaded(seen), InCall);
    }
  }

  /** `held` callers acquire one after the other, then more callers load without going on. */
  lemma {:induction false} FillThenLoad(c: Config, held: nat, top: nat)
    returns (ss: seq<State>, es: seq<Event>)
    requires 1 <= c.callers && held < c.cap && held <= top <= held + c.callers
    ensures IsRun(c, ss, es)
    ensures var s := ss[|ss| - 1]; s.inFlight == held && s.limit == c.cap && Shape(s, held, top, held)
    decreases top
  {
    if top == 0 {
      ss, es := [State(map[], 0, c.cap)], [];
    } else {
      var g := top - 1;
      var below := if top > held then held else g;
      var ss1, es1 := FillThenLoad(c, below, g);
      ShapeCounts(ss1[|ss1| - 1], below, g, below);
      var ss2, es2 := Extend(c, ss1, es1, Enter(g));
      ss, es := Extend(c, ss2, es2, Load(g));
      if top <= held {
        var ss3, es3 := Extend(c, ss, es, Check(g));
        ss, es := Extend(c, ss3, es3, Add(g));
      }
    }
  }

  /** The loaded callers all add although the first of them fills the limit. */
  lemma {:induction false} AllAdd(c: Config, done: nat) returns (ss: seq<State>, es: seq<Event>)
    requires 1 <= c.callers && 1 <= c.cap && done <= c.callers
    ensures IsRun(c, ss, es)
    ensures var s, first := ss[|ss| - 1], c.cap - 1;
            s.inFlight == first + done && s.limit == c.cap && Shape(s, first + done, first + c.callers, first)
  {
    if done == 0 {
      ss, es := FillThenLoad(c, c.cap - 1, c.cap - 1 + c.callers);
    } else {
      var ss1, es1 := AllAdd(c, done - 1);
      var ss2, es2 := Extend(c, ss1, es1, Check(c.cap - 2 + done));
      ss, es := Extend(c, ss2, es2, Add(c.cap - 2 + done));
    }
  }

  /** The bound is tight: for every limit and every number of concurrent callers some interleaving
      really has L + k - 1 tokens out. */
  lemma SimpleOvershootIsReached(c: Config) returns (ss: seq<State>, es: seq<Event>)
    requires 1 <= c.callers && 1 <= c.cap
    ensures IsRun(c, ss, es) && ss[|ss| - 1].inFlight == c.cap + c.callers - 1
  {
    ss, es := AllAdd(c, c.callers);
  }

  // ---------------------------------------------------------------- PreciseStrategy

  /** Each method is one region of the strategy's mutex and takes one step of the counter, the same
      step that the protocol models take; `tokens` counts those not yet released. */
  class PreciseStrategy {
    var inFlight: int
    var limit: int
    ghost var tokens: nat

    function View(): Counter reads this { Counter(inFlight, limit) }

    ghost predicate Valid() reads this { inFlight == tokens && limit >= 1 }

    constructor (limit: int)
      ensures Valid() && tokens == 0 && View() == Relimited(Counter(0, 0), limit)
    {
      this.limit := if limit < 1 then 1 else limit;
      inFlight, tokens := 0, 0;
    }

    /** Grants a token exactly when fewer are out than the limit. */
    method TryAcquire() returns (ok: bool, count: int)
      requires Valid()
      modifies this
      ensures Valid() && View() == Tried(old(View())) && count == inFlight
      ensures ok == Grants(old(View()))
      ensures ok <==> old(tokens) < limit
      ensures tokens == old(tokens) + (if ok then 1 else 0)
      ensures ok ==> tokens <= limit
    {
      if inFlight >= limit {
        return false, inFlight;
      }
      inFlight := inFlight + 1;
      tokens := tokens + 1;
      return true, inFlight;
    }

    /** releaseHandler, called once for each token. */
    method Release()
      requires Valid() && tokens > 0
      modifies this
      ensures Valid() && View() == Released(old(View())) && tokens == old(tokens) - 1
    {
      inFlight := inFlight - 1;
      tokens := tokens - 1;
    }

    method SetLimit(limit: int)
      requires Valid()
      modifies this
      ensures Valid() && View() == Relimited(old(View()), limit) && tokens == old(tokens)
    {
      this.limit := if limit < 1 then 1 else limit;
    }
  }
}

/** The blocking hand-off of BlockingLimiter and DeadlineLimiter (limiter/blocking.go,
    limiter/deadline.go, limiter/delegate_listener.go) over DefaultLimiter
    (limiter/default.go) over SimpleStrategy or PreciseStrategy (strategy/simple.go,
    strategy/precise.go), as a transition system over any number of goroutines.  Each lock
    region, atomic operation and channel operation is one step, except that a lock region
    in which another goroutine can act on the same data is split into its own steps. */
module BlockingProtocol {
  import opened Basics
  import opened Goroutines
  import opened TokenCounter

  /** Which strategy DefaultLimiter enforces, and which wrapper blocks on it. */
  datatype Strategy = Simple | Precise
  datatype Config = Config(strategy: Strategy, deadline: bool)

  /** Where a goroutine stands.  Channels are numbered in the order they are made, and a
      phase that still uses the captured notify channel carries its number. */
  datatype Phase =
    | Idle                      // no call in progress
    | Polling                   // top of the loop in tryAcquire
    | Captured(ch: nat)         // currentNotify has returned
    | Locked(ch: nat)           // inside DefaultLimiter.Acquire, holding its mutex
    | Loaded(ch: nat, seen: int)// SimpleStrategy: inFlight has been loaded
    | Passed(ch: nat)           // SimpleStrategy: the loaded value was below the limit
    | Tallied(ch: nat)          // the strategy has counted the token
    | Failed(ch: nat)           // the attempt failed: blocked in the select
    | Holding(maxInFlight: int) // the caller owns a listener
    | Uncounted                 // completion: DefaultLimiter.inFlight is decremented
    | Returned                  // completion: the token is back in the strategy
    | Estimating                // completion: holding the mutex between OnSample and SetLimit
    | Updated                   // completion: the delegate listener is done, broadcast is next
    | Swapped(stale: nat)       // completion: notify is replaced, closing `stale` is next

  datatype State = State(
    pc: map<nat, Phase>,
    mu: Option<nat>,            // who holds DefaultLimiter.mu
    busy: int,                  // the strategy's inFlight
    inFlight: int,              // DefaultLimiter.inFlight
    limit: int,                 // the strategy's limit
    estimate: int,              // limit.EstimatedLimit()
    cur: nat,                   // the channel in `notify`
    closed: set<nat>)           // channels that have been closed

  datatype Event =
    | Call(g: nat)
    | Abandon(g: nat)           // cancelled, or the deadline has passed
    | Capture(g: nat)
    | Lock(g: nat)
    | Load(g: nat)
    | Check(g: nat)
    | Add(g: nat)
    | TryPrecise(g: nat)
    | Hand(g: nat)
    | Wake(g: nat)              // the captured channel is closed
    | Retry(g: nat)             // the per-attempt timer of BlockingLimiter
    | Complete(g: nat)
    | ReturnToken(g: nat)
    | BeginUpdate(g: nat, estimate': int)
    | EndUpdate(g: nat)
    | SkipUpdate(g: nat)        // OnIgnore, a short RTT, or a window that is not ready
    | Swap(g: nat)
    | Close(g: nat)

  function PhaseOf(s: State, g: nat): Phase { if g in s.pc then s.pc[g] else Idle }

  predicate Enabled(c: Config, s: State, e: Event) {
    var p := PhaseOf(s, e.g);
    match e
    case Call(_) => p.Idle?
    case Abandon(_) => p.Polling? || p.Failed?
    case Capture(_) => p.Polling?
    case Lock(_) => p.Captured? && s.mu.None?
    case Load(_) => p.Locked? && c.strategy.Simple?
    case Check(_) => p.Loaded?
    case Add(_) => p.Passed?
    case TryPrecise(_) => p.Locked? && c.strategy.Precise?
    case Hand(_) => p.Tallied?
    case Wake(_) => p.Failed? && p.ch in s.closed
    case Retry(_) => p.Failed? && !c.deadline
    case Complete(_) => p.Holding?
    case ReturnToken(_) => p.Uncounted?
    case BeginUpdate(_, _) => p.Returned? && s.mu.None?
    case EndUpdate(_) => p.Estimating?
    case SkipUpdate(_) => p.Returned?
    case Swap(_) => p.Updated?
    case Close(_) => p.Swapped?
  }

  function Move(s: State, g: nat, p: Phase): State { s.(pc := s.pc[g := p]) }

  /** The strategy's counter, and the state with another one. */
  function StrategyOf(s: State): Counter { Counter(s.busy, s.limit) }
  function With(s: State, k: Counter): State { s.(busy := k.inFlight, limit := k.limit) }

  function Apply(c: Config, s: State, e: Event): State
    requires Enabled(c, s, e)
  {
    var p := PhaseOf(s, e.g);
    match e
    case Call(g) => Move(s, g, Polling)
    case Abandon(g) => Move(s, g, Idle)
    case Capture(g) => Move(s, g, Captured(s.cur))
    case Lock(g) => Move(s, g, Locked(p.ch)).(mu := Some(g))
    case Load(g) => Move(s, g, Loaded(p.ch, s.busy))
    case Check(g) =>
      if Full(p.seen, s.limit) then Move(s, g, Failed(p.ch)).(mu := None)
      else Move(s, g, Passed(p.ch))
    case Add(g) => With(Move(s, g, Tallied(p.ch)), Counted(StrategyOf(s)))
    case TryPrecise(g) =>
      if Grants(StrategyOf(s)) then With(Move(s, g, Tallied(p.ch)), Tried(StrategyOf(s)))
      else Move(s, g, Failed(p.ch)).(mu := None)
    case Hand(g) => Move(s, g, Holding(s.inFlight + 1)).(mu := None, inFlight := s.inFlight + 1)
    case Wake(g) => Move(s, g, Polling)
    case Retry(g) => Move(s, g, Polling)
    case Complete(g) => Move(s, g, Uncounted).(inFlight := s.inFlight - 1)
    case ReturnToken(g) => With(Move(s, g, Returned), Released(StrategyOf(s)))
    case BeginUpdate(g, estimate') => Move(s, g, Estimating).(mu := Some(g), estimate := estimate')
    case EndUpdate(g) => With(Move(s, g, Updated), Relimited(StrategyOf(s), s.estimate)).(mu := None)
    case SkipUpdate(g) => Move(s, g, Updated)
    case Swap(g) => Move(s, g, Swapped(s.cur)).(cur := s.cur + 1)
    case Close(g) => Move(s, g, Idle).(closed := s.closed + {p.stale})
  }

  /** NewDefaultLimiter has called SetLimit, nobody has acquired, notify is a fresh channel. */
  predicate Init(s: State) {
    && s.pc == map[] && s.mu.None? && s.busy == 0 && s.inFlight == 0
    && s.limit == AtLeastOne(s.estimate) && s.cur == 0 && s.closed == {}
  }

  // ---------------------------------------------------------------- phase predicates

  predicate InMutex(p: Phase) { p.Locked? || p.Loaded? || p.Passed? || p.Tallied? || p.Estimating? }
  predicate HasToken(p: Phase) { p.Tallied? || p.Holding? || p.Uncounted? }
  predicate IsHolding(p: Phase) { p.Holding? }
  /** The token has been returned but notify has not been swapped yet. */
  predicate IsPending(p: Phase) { p.Returned? || p.Estimating? || p.Updated? }
  predicate UsesChannel(p: Phase) {
    p.Captured? || p.Locked? || p.Loaded? || p.Passed? || p.Tallied? || p.Failed?
  }

  ghost function Pending(s: State): nat { |Where(s.pc, IsPending)| }
  ghost function Tokens(s: State): nat { |Where(s.pc, HasToken)| }
  ghost function Holders(s: State): nat { |Where(s.pc, IsHolding)| }

  // ---------------------------------------------------------------- invariants

  /** DefaultLimiter.mu is held by exactly the goroutine inside one of its lock regions. */
  ghost predicate MutexInv(s: State) {
    && (forall g :: g in s.pc ==> (InMutex(s.pc[g]) <==> s.mu == Some(g)))
    && (s.mu.Some? ==> s.mu.value in s.pc)
  }

  /** Both counters count the goroutines that own a token in their own sense. */
  ghost predicate CounterInv(s: State) {
    s.busy == Tokens(s) && s.inFlight == Holders(s)
  }

  ghost predicate LimitInv(s: State) {
    && s.limit >= 1
    && (s.limit == AtLeastOne(s.estimate) || (s.mu.Some? && PhaseOf(s, s.mu.value).Estimating?))
  }

  /** What an attempt in progress knows about the counter. */
  ghost predicate AttemptInv(s: State) {
    forall g :: g in s.pc ==>
      match s.pc[g]
      case Loaded(ch, seen) => seen >= s.busy && (ch == s.cur ==> seen <= s.busy + Pending(s))
      case Passed(_) => s.busy < s.limit
      case Tallied(_) => s.busy <= s.limit
      case _ => true
  }

  /** A waiter that could still miss a wake-up has a reason to wait or a wake-up coming. */
  ghost predicate WaitInv(s: State) {
    forall g :: g in s.pc && s.pc[g].Failed? && s.pc[g].ch == s.cur ==>
      s.busy >= s.limit || Pending(s) >= 1
  }

  /** Nobody has a channel that has not been made. */
  ghost predicate CaptureInv(s: State) {
    forall g :: g in s.pc && UsesChannel(s.pc[g]) ==> s.pc[g].ch <= s.cur
  }

  /** The current channel and those not made yet are open; with OneCloserInv, an open replaced
      channel is about to be closed by at most one goroutine. */
  ghost predicate ChannelInv(s: State) {
    && (forall ch :: ch in s.closed ==> ch < s.cur)
    && (forall g :: g in s.pc && s.pc[g].Swapped? ==> s.pc[g].stale < s.cur && s.pc[g].stale !in s.closed)
  }

  ghost predicate OneCloserInv(s: State) {
    forall g, h | g in s.pc && h in s.pc && s.pc[g].Swapped? && s.pc[g] == s.pc[h] :: g == h
  }

  /** Every replaced channel is closed or has a goroutine about to close it. */
  ghost predicate CloserInv(s: State) {
    forall ch: nat :: ch < s.cur ==> ch in s.closed || HasCloser(s, ch)
  }

  ghost predicate HasCloser(s: State, ch: nat) {
    exists g :: g in s.pc && s.pc[g] == Swapped(ch)
  }

  ghost predicate Inv(c: Config, s: State) {
    && MutexInv(s) && CounterInv(s) && LimitInv(s) && AttemptInv(s) && WaitInv(s)
    && CaptureInv(s) && ChannelInv(s) && OneCloserInv(s) && CloserInv(s)
  }

  // ---------------------------------------------------------------- preservation

  /** How one step moves the three counts. */
  lemma CountsMove(c: Config, s: State, e: Event)
    requires Enabled(c, s, e)
    ensures var s' := Apply(c, s, e); var p, p' := PhaseOf(s, e.g), PhaseOf(s', e.g);
            && Pending(s') == Pending(s) - (if IsPending(p) then 1 else 0) + (if IsPending(p') then 1 else 0)
            && Tokens(s') == Tokens(s) - (if HasToken(p) then 1 else 0) + (if HasToken(p') then 1 else 0)
            && Holders(s') == Holders(s) - (if IsHolding(p) then 1 else 0) + (if IsHolding(p') then 1 else 0)
  {
    var s' := Apply(c, s, e);
    var v := s'.pc[e.g];
    assert s'.pc == s.pc[e.g := v];
    WhereUpdate(s.pc, e.g, v, IsPending);
    WhereUpdate(s.pc, e.g, v, HasToken);
    WhereUpdate(s.pc, e.g, v, IsHolding);
  }

  /** Every step keeps every part of the invariant. */
  lemma StepKeepsMutex(c: Config, s: State, e: Event)
    requires MutexInv(s) && Enabled(c, s, e)
    ensures MutexInv(Apply(c, s, e))
  {}

  lemma StepKeepsLimit(c: Config, s: State, e: Event)
    requires MutexInv(s) && LimitInv(s) && Enabled(c, s, e)
    ensures LimitInv(Apply(c, s, e))
  {}

  lemma StepKeepsCounters(c: Config, s: State, e: Event)
    requires CounterInv(s) && Enabled(c, s, e)
    ensures CounterInv(Apply(c, s, e))
  {
    CountsMove(c, s, e);
  }

  lemma StepKeepsAttempts(c: Config, s: State, e: Event)
    requires MutexInv(s) && AttemptInv(s) && CaptureInv(s) && Enabled(c, s, e)
    ensures AttemptInv(Apply(c, s, e))
  {
    CountsMove(c, s, e);
  }

  lemma StepKeepsWaits(c: Config, s: State, e: Event)
    requires AttemptInv(s) && WaitInv(s) && CaptureInv(s) && Enabled(c, s, e)
    ensures WaitInv(Apply(c, s, e))
  {
    CountsMove(c, s, e);
    if IsPending(PhaseOf(s, e.g)) {
      WhereMember(s.pc, IsPending, e.g);
    }
  }

  lemma StepKeepsCaptures(c: Config, s: State, e: Event)
    requires CaptureInv(s) && Enabled(c, s, e)
    ensures CaptureInv(Apply(c, s, e))
  {}

  lemma StepKeepsChannels(c: Config, s: State, e: Event)
    requires ChannelInv(s) && OneCloserInv(s) && Enabled(c, s, e)
    ensures ChannelInv(Apply(c, s, e))
  {}

  lemma StepKeepsOneCloser(c: Config, s: State, e: Event)
    requires ChannelInv(s) && OneCloserInv(s) && Enabled(c, s, e)
    ensures OneCloserInv(Apply(c, s, e))
  {}

  lemma StepKeepsClosers(c: Config, s: State, e: Event)
    requires CloserInv(s) && Enabled(c, s, e)
    ensures CloserInv(Apply(c, s, e))
  {
    var s' := Apply(c, s, e);
    forall ch: nat | ch < s'.cur && ch !in s'.closed
      ensures HasCloser(s', ch)
    {
      if ch == s.cur {
        assert s'.pc[e.g] == Swapped(ch);
      } else {
        assert HasCloser(s, ch);
        var g :| g in s.pc && s.pc[g] == Swapped(ch);
        assert s'.pc[g] == Swapped(ch);
      }
    }
  }

  lemma StepKeepsInv(c: Config, s: State, e: Event)
    requires Inv(c, s) && Enabled(c, s, e)
    ensures Inv(c, Apply(c, s, e))
  {
    StepKeepsMutex(c, s, e);
    StepKeepsLimit(c, s, e);
    StepKeepsCounters(c, s, e);
    StepKeepsAttempts(c, s, e);
    StepKeepsWaits(c, s, e);
    StepKeepsCaptures(c, s, e);
    StepKeepsChannels(c, s, e);
    StepKeepsOneCloser(c, s, e);
    StepKeepsClosers(c, s, e);
  }

  // ---------------------------------------------------------------- runs

  /** A run: the states visited and the step taken from each of them. */
  ghost predicate IsRun(c: Config, ss: seq<State>, es: seq<Event>) {
    && |ss| == |es| + 1
    && Init(ss[0])
    && forall i :: 0 <= i < |es| ==> Enabled(c, ss[i], es[i]) && ss[i + 1] == Apply(c, ss[i], es[i])
  }

  lemma {:induction false} RunKeepsInv(c: Config, ss: seq<State>, es: seq<Event>, i: nat)
    requires IsRun(c, ss, es) && i < |ss|
    ensures Inv(c, ss[i])
  {
    if i == 0 {
      assert Where(ss[0].pc, HasToken) == {} && Where(ss[0].pc, IsHolding) == {};
    } else {
      RunKeepsInv(c, ss, es, i - 1);
      StepKeepsInv(c, ss[i - 1], es[i - 1]);
    }
  }

  /** No lost wake-up, in every state of every run: a waiter whose captured channel is still
      current sees a full delegate or a completion that has yet to broadcast; a waiter whose
      captured channel has been replaced can already proceed, or exactly one goroutine is
      about to close that channel. */
  lemma NoLostWakeUp(c: Config, ss: seq<State>, es: seq<Event>, i: nat, g: nat)
    requires IsRun(c, ss, es) && i < |ss|
    requires g in ss[i].pc && ss[i].pc[g].Failed?
    ensures var s := ss[i]; var ch := s.pc[g].ch;
            && ch <= s.cur
            && (ch == s.cur ==> s.busy >= s.limit || exists h :: h in s.pc && IsPending(s.pc[h]))
            && (ch < s.cur ==> ch in s.closed || exists h :: h in s.pc && s.pc[h] == Swapped(ch))
            && forall h, k :: h in s.pc && k in s.pc && s.pc[h] == s.pc[k] == Swapped(ch) ==> h == k
  {
    RunKeepsInv(c, ss, es, i);
    var s := ss[i];
    if s.pc[g].ch == s.cur && s.busy < s.limit {
      var h := WhereWitness(s.pc, IsPending);
    }
    if s.pc[g].ch < s.cur && s.pc[g].ch !in s.closed {
      assert HasCloser(s, s.pc[g].ch);
    }
  }

  /** Channels are used safely in every run: the channel in `notify` is open, and no channel
      is closed a second time (which would panic). */
  lemma ChannelsCloseOnce(c: Config, ss: seq<State>, es: seq<Event>, i: nat)
    requires IsRun(c, ss, es) && i < |es|
    ensures ss[i].cur !in ss[i].closed
    ensures es[i].Close? ==> ss[i].pc[es[i].g].stale !in ss[i].closed
    ensures ss[i].closed <= ss[i + 1].closed && ss[i].cur <= ss[i + 1].cur
  {
    RunKeepsInv(c, ss, es, i);
  }

  /** Nobody sleeps on free capacity: when every call is idle, holding or asleep on an open
      channel, and someone sleeps, the delegate's limit is used up by listeners in callers' hands. */
  lemma SleepersMeanFull(c: Config, ss: seq<State>, es: seq<Event>, i: nat, g: nat)
    requires IsRun(c, ss, es) && i < |ss|
    requires var s := ss[i];
             && g in s.pc && s.pc[g].Failed?
             && forall h :: h in s.pc ==>
                  s.pc[h].Idle? || s.pc[h].Holding? || (s.pc[h].Failed? && s.pc[h].ch !in s.closed)
    ensures Holders(ss[i]) == ss[i].busy >= ss[i].limit >= 1
  {
    NoLostWakeUp(c, ss, es, i, g);
    RunKeepsInv(c, ss, es, i);
    assert Where(ss[i].pc, HasToken) == Where(ss[i].pc, IsHolding);
  }

  lemma SubsetSize<T>(a: set<T>, b: set<T>)
    requires a <= b
    ensures |a| <= |b|
  {
    assert b == a + (b - a);
  }

  /** The limiter's counter never exceeds the strategy's, both count real tokens, and they
      agree whenever no acquire or completion is between its two counter updates.  The
      strategy's limit follows the estimate whenever the mutex is free. */
  lemma LayeredCountersAgree(c: Config, ss: seq<State>, es: seq<Event>, i: nat)
    requires IsRun(c, ss, es) && i < |ss|
    ensures 0 <= ss[i].inFlight <= ss[i].busy == Tokens(ss[i])
    ensures ss[i].inFlight == ss[i].busy
            <==> forall g :: g in ss[i].pc ==> !ss[i].pc[g].Tallied? && !ss[i].pc[g].Uncounted?
    ensures ss[i].mu.None? ==> ss[i].limit == AtLeastOne(ss[i].estimate)
  {
    RunKeepsInv(c, ss, es, i);
    var pc := ss[i].pc;
    var holding, tokens := Where(pc, IsHolding), Where(pc, HasToken);
    SubsetSize(holding, tokens);
    if exists g :: g in pc && (pc[g].Tallied? || pc[g].Uncounted?) {
      var g :| g in pc && (pc[g].Tallied? || pc[g].Uncounted?);
      SubsetSize(holding + {g}, tokens);
    } else {
      assert holding == tokens;
    }
  }

  /** DefaultLimiter's mutex removes SimpleStrategy's check-then-add race: with releases running
      concurrently, a counted token never pushes the strategy above the limit enforced at that
      moment, and the in-flight count recorded in the listener is within that limit too. */
  lemma AcquireRespectsLimit(c: Config, ss: seq<State>, es: seq<Event>, i: nat)
    requires IsRun(c, ss, es) && i < |es|
    ensures ss[i + 1].busy > ss[i].busy ==> ss[i + 1].busy <= ss[i].limit == ss[i + 1].limit
    ensures es[i].Hand? ==> ss[i + 1].pc[es[i].g].maxInFlight <= ss[i].limit == ss[i + 1].limit
  {
    RunKeepsInv(c, ss, es, i);
    CountedRespectsLimit(c, ss[i], es[i]);
    if es[i].Hand? {
      CountedIsNotYetInFlight(ss[i], es[i].g);
    }
  }

  lemma CountedRespectsLimit(c: Config, s: State, e: Event)
    requires AttemptInv(s) && Enabled(c, s, e)
    ensures Apply(c, s, e).busy > s.busy ==> Apply(c, s, e).busy <= s.limit == Apply(c, s, e).limit
  {}

  /** The strategy counts a token before the limiter does. */
  lemma CountedIsNotYetInFlight(s: State, g: nat)
    requires CounterInv(s) && AttemptInv(s) && PhaseOf(s, g).Tallied?
    ensures s.inFlight + 1 <= s.busy <= s.limit
  {
    assert g !in Where(s.pc, IsHolding) && g in Where(s.pc, HasToken);
    SubsetSize(Where(s.pc, IsHolding) + {g}, Where(s.pc, HasToken));
  }

  // ---------------------------------------------------------------- calls

  /** A caller inside tryAcquire, without a listener so far. */
  predicate IsTrying(p: Phase) { p.Polling? || UsesChannel(p) }

  /** A call that has not got a listener ends only by cancellation or deadline: waking up, a timer and a
      failed attempt all lead back into the loop. */
  lemma CallEndsOnlyByAbandoning(c: Config, ss: seq<State>, es: seq<Event>, i: nat, g: nat)
    requires IsRun(c, ss, es) && i < |es| && IsTrying(PhaseOf(ss[i], g))
    ensures IsTrying(PhaseOf(ss[i + 1], g)) || PhaseOf(ss[i + 1], g).Holding? || es[i] == Abandon(g)
    ensures PhaseOf(ss[i + 1], g).Idle? ==> es[i] == Abandon(g)
  {}

  /** A caller that has completed its listener and is still at it. */
  predicate IsCompleting(p: Phase) { p.Uncounted? || p.Returned? || p.Estimating? || p.Updated? || p.Swapped? }

  /** The life of a call: it begins with Acquire and with nothing else, a listener is kept until its owner
      completes it, and a completion ends once its channel is closed. */
  lemma LifeOfACall(c: Config, ss: seq<State>, es: seq<Event>, i: nat, g: nat)
    requires IsRun(c, ss, es) && i < |es|
    ensures var p, p' := PhaseOf(ss[i], g), PhaseOf(ss[i + 1], g);
            && (p.Idle? ==> p'.Idle? || (p'.Polling? && es[i] == Call(g)))
            && (p.Holding? ==> p' == p || (p'.Uncounted? && es[i] == Complete(g)))
            && (IsCompleting(p) ==> IsCompleting(p') || (p'.Idle? && es[i] == Close(g)))
  {}

  /** An attempt sleeps on a channel that was open when it was captured, so it is woken only by a
      broadcast that came later. */
  lemma CapturedChannelIsOpen(c: Config, ss: seq<State>, es: seq<Event>, i: nat, g: nat)
    requires IsRun(c, ss, es) && i < |es| && PhaseOf(ss[i], g).Polling? && PhaseOf(ss[i + 1], g).Captured?
    ensures PhaseOf(ss[i + 1], g).ch == ss[i].cur && ss[i].cur !in ss[i].closed
  {
    CaptureStep(c, ss[i], es[i], g);
    ChannelsCloseOnce(c, ss, es, i);
  }

  lemma CaptureStep(c: Config, s: State, e: Event, g: nat)
    requires Enabled(c, s, e) && PhaseOf(s, g).Polling? && PhaseOf(Apply(c, s, e), g).Captured?
    ensures PhaseOf(Apply(c, s, e), g).ch == s.cur
  {}

  /** The in-flight count recorded in a listener is the number of listeners in callers' hands, this one
      included. */
  lemma ListenersCountHolders(c: Config, ss: seq<State>, es: seq<Event>, i: nat)
    requires IsRun(c, ss, es) && i < |es| && es[i].Hand?
    ensures ss[i + 1].pc[es[i].g] == Holding(Holders(ss[i + 1]))
  {
    RunKeepsInv(c, ss, es, i + 1);
  }

  /** Nobody is stuck: in every state a goroutine has a step of its own other than giving up, unless it
      waits for DefaultLimiter's mutex, which another one holds, or sleeps on an open channel without
      a timer; whoever polls or sleeps can give up, and a completion can move the estimate anywhere. */
  lemma NobodyIsStuck(c: Config, ss: seq<State>, es: seq<Event>, i: nat, g: nat)
    requires IsRun(c, ss, es) && i < |ss|
    ensures var s := ss[i]; var p := PhaseOf(s, g);
            && ((exists e: Event :: e.g == g && !e.Abandon? && Enabled(c, s, e))
                || (p.Captured? && s.mu.Some? && s.mu.value != g)
                || (p.Failed? && c.deadline && p.ch !in s.closed))
            && (p.Polling? || p.Failed? ==> Enabled(c, s, Abandon(g)))
            && (p.Returned? && s.mu.None? ==> forall estimate' :: Enabled(c, s, BeginUpdate(g, estimate')))
  {
    RunKeepsInv(c, ss, es, i);
    var s := ss[i];
    var e := match PhaseOf(s, g)
      case Idle => Call(g)
      case Polling => Capture(g)
      case Captured(_) => Lock(g)
      case Locked(_) => if c.strategy.Simple? then Load(g) else TryPrecise(g)
      case Loaded(_, _) => Check(g)
      case Passed(_) => Add(g)
      case Tallied(_) => Hand(g)
      case Failed(ch) => if ch in s.closed then Wake(g) else Retry(g)
      case Holding(_) => Complete(g)
      case Uncounted => ReturnToken(g)
      case Returned => SkipUpdate(g)
      case Estimating => EndUpdate(g)
      case Updated => Swap(g)
      case Swapped(_) => Close(g);
    assert e.g == g && !e.Abandon?;
  }

  // ---------------------------------------------------------------- the limit

  /** What limit.EstimatedLimit() has come to after the steps `es`. */
  function LastEstimate(first: int, es: seq<Event>): int {
    if es == [] then first
    else if es[|es| - 1].BeginUpdate? then es[|es| - 1].estimate'
    else LastEstimate(first, es[..|es| - 1])
  }

  /** The limit enforced follows the algorithm: whenever the mutex is free it is the latest estimate, or
      1 if that is less. */
  lemma {:induction false} LimitFollowsEstimate(c: Config, ss: seq<State>, es: seq<Event>, i: nat)
    requires IsRun(c, ss, es) && i < |ss|
    ensures ss[i].estimate == LastEstimate(ss[0].estimate, es[..i])
    ensures ss[i].mu.None? ==> ss[i].limit == AtLeastOne(LastEstimate(ss[0].estimate, es[..i]))
  {
    RunKeepsInv(c, ss, es, i);
    if i > 0 {
      LimitFollowsEstimate(c, ss, es, i - 1);
      assert es[..i][..i - 1] == es[..i - 1];
    }
  }

  /** The limit algorithm never moves: every update finds the same estimate. */
  ghost predicate FixedEstimate(ss: seq<State>, es: seq<Event>, fixed: int)
    requires |ss| > 0
  {
    ss[0].estimate == fixed && forall i :: 0 <= i < |es| && es[i].BeginUpdate? ==> es[i].estimate' == fixed
  }

  /** With a limit that never moves, the number of callers holding a listener never exceeds it. */
  lemma {:induction false} FixedLimitIsNeverExceeded(
    c: Config, ss: seq<State>, es: seq<Event>, fixed: int, i: nat)
    requires IsRun(c, ss, es) && i < |ss| && FixedEstimate(ss, es, fixed)
    ensures ss[i].estimate == fixed && ss[i].limit == AtLeastOne(fixed)
    ensures Holders(ss[i]) <= ss[i].busy <= AtLeastOne(fixed)
  {
    LayeredCountersAgree(c, ss, es, i);
    RunKeepsInv(c, ss, es, i);
    if i > 0 {
      FixedLimitIsNeverExceeded(c, ss, es, fixed, i - 1);
      AcquireRespectsLimit(c, ss, es, i - 1);
    }
  }
}

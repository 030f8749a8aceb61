/** FixedPool (patterns/pool/fixed_pool.go): the composition of a queue or blocking limiter,
    DefaultLimiter, PreciseStrategy and FixedLimit, and its end-to-end guarantee. */
module FixedPool {
  import opened Basics
  import Backlog
  import B = BlockingProtocol
  import Q = QueueProtocol
  import W = WindowScheduler
  import CountingStrategies
  import opened Goroutines
  import opened TokenCounter

  datatype PoolOrdering = Random | FIFO | LIFO

  /** Durations are in nanoseconds. */
  datatype Params = Params(ordering: PoolOrdering, fixedLimit: int, windowSize: int, minWindowTime: int,
                           maxWindowTime: int, minRTTThreshold: int, maxBacklog: int, timeout: int)

  datatype Wrapper = Queueing(queue: Q.Config) | Blocking(blocking: B.Config)

  datatype Pool = Pool(limit: int,         // what Limit() reports
                       estimate: int,      // FixedLimit.EstimatedLimit()
                       strategy: Counter,  // what PreciseStrategy starts with
                       windows: W.Config,  // what DefaultLimiter is configured with
                       timeout: int,       // of an attempt, or of a place in the backlog; 0 means none
                       wrapper: Wrapper)

  datatype Result<T> = Ok(value: T) | Err

  /** The limit the pool really enforces. */
  function EffectiveLimit(fixedLimit: int): int {
    if fixedLimit < 0 then 10 else if fixedLimit == 0 then 1 else fixedLimit
  }

  /** Negative or (for windowSize) zero arguments mean defaults. */
  function WindowsFor(p: Params): W.Config {
    W.Config(if p.minWindowTime < 0 then 250_000_000 else p.minWindowTime,
             if p.maxWindowTime < 0 then 500_000_000 else p.maxWindowTime,
             if p.windowSize <= 0 then 100 else p.windowSize,
             if p.minRTTThreshold < 0 then 10_000_000 else p.minRTTThreshold)
  }

  /** NewFixedLimit. */
  function FixedEstimate(limit: int): int { if limit < 0 then 10 else limit }

  /** The arguments NewFixedPool accepts: those that give DefaultLimiter a valid configuration. */
  predicate Accepts(p: Params) { WindowsFor(p).Valid() }

  /** Normalises the arguments and wires the layers together, with the objects themselves for the two
      inner ones. */
  method NewFixedPool(p: Params) returns (r: Result<Pool>, limiter: W.DefaultLimiter?)
    ensures r.Ok? <==> Accepts(p)
    ensures r.Ok? <==> limiter != null
    ensures r.Ok? ==> r.value == PoolFor(p)
    ensures r.Ok? ==> && fresh(limiter) && fresh(limiter.strategy)
                      && limiter.config == r.value.windows && limiter.inFlight == 0
                      && limiter.strategy.View() == r.value.strategy && limiter.strategy.tokens == 0
  {
    var minWindowTime, maxWindowTime, windowSize := p.minWindowTime, p.maxWindowTime, p.windowSize;
    var minRTTThreshold, timeout := p.minRTTThreshold, p.timeout;
    if minWindowTime < 0 { minWindowTime := 250_000_000; }
    if maxWindowTime < 0 { maxWindowTime := 500_000_000; }
    if minRTTThreshold < 0 { minRTTThreshold := 10_000_000; }
    if windowSize <= 0 { windowSize := 100; }
    if timeout < 0 { timeout := 0; }
    var strategy := new CountingStrategies.PreciseStrategy(p.fixedLimit);
    var estimate := p.fixedLimit;
    if estimate < 0 { estimate := 10; }
    // the checks of NewDefaultLimiter
    if minWindowTime <= 0 || maxWindowTime <= 0 || maxWindowTime < minWindowTime || windowSize < 10 {
      return Err, null;
    }
    var windows := W.Config(minWindowTime, maxWindowTime, windowSize, minRTTThreshold);
    limiter := new W.DefaultLimiter(windows, strategy, estimate);
    var wrapper;
    wrapper, timeout := Wrap(p.ordering, p.maxBacklog, timeout);
    r := Ok(Pool(p.fixedLimit, estimate, strategy.View(), windows, timeout, wrapper));
  }

  /** The choice of the outer limiter, with ApplyDefaults for a queue. */
  method Wrap(ordering: PoolOrdering, backlog: int, timeout: int) returns (wrapper: Wrapper, timeout': int)
    requires timeout >= 0
    ensures wrapper == WrapperFor(ordering, backlog) && timeout' == TimeoutFor(ordering, timeout)
  {
    timeout' := timeout;
    if ordering == Random {
      wrapper := Blocking(B.Config(B.Precise, false));
    } else {
      var maxBacklog := backlog;
      if maxBacklog <= 0 { maxBacklog := 100; }
      if timeout' == 0 { timeout' := 1_000_000_000; }
      wrapper := Queueing(Q.Config(if ordering == FIFO then Backlog.FIFO else Backlog.LIFO, maxBacklog));
    }
  }

  function WrapperFor(ordering: PoolOrdering, maxBacklog: int): Wrapper {
    var backlog := if maxBacklog <= 0 then 100 else maxBacklog;
    match ordering
    case FIFO => Queueing(Q.Config(Backlog.FIFO, backlog))
    case LIFO => Queueing(Q.Config(Backlog.LIFO, backlog))
    case Random => Blocking(B.Config(B.Precise, false))
  }

  function TimeoutFor(ordering: PoolOrdering, timeout: int): int {
    if timeout > 0 then timeout else if ordering.Random? then 0 else 1_000_000_000
  }

  /** The pool layer by layer: NewPreciseStrategy takes the argument, NewDefaultLimiter then calls
      SetLimit with the estimate of the FixedLimit. */
  function PoolFor(p: Params): Pool {
    Pool(p.fixedLimit,
         FixedEstimate(p.fixedLimit),
         Relimited(Relimited(Counter(0, 0), p.fixedLimit), FixedEstimate(p.fixedLimit)),
         WindowsFor(p),
         TimeoutFor(p.ordering, p.timeout),
         WrapperFor(p.ordering, p.maxBacklog))
  }

  /** The limit reported is the limit enforced exactly when it is at least 1, and a wait in a backlog
      always has a timeout. */
  lemma ReportedLimitIsEnforcedIff(p: Params)
    ensures PoolFor(p).strategy == Counter(0, EffectiveLimit(p.fixedLimit)) && EffectiveLimit(p.fixedLimit) >= 1
    ensures PoolFor(p).limit == PoolFor(p).strategy.limit <==> p.fixedLimit >= 1
    ensures PoolFor(p).wrapper.Queueing? ==> PoolFor(p).timeout > 0
  {}

  /** Arguments are taken as they are, and a negative one (for windowSize and the backlog also 0) stands
      for its default: 250 ms, 500 ms, 10 ms, 100 samples and 100 places; without a timeout, a place
      in a backlog is kept for a second and a blocked caller waits without one. */
  lemma ArgumentsAndDefaults(p: Params)
    ensures var w := PoolFor(p).windows;
            && (if p.minWindowTime >= 0 then w.minWindowTime == p.minWindowTime else w.minWindowTime == 250_000_000)
            && (if p.maxWindowTime >= 0 then w.maxWindowTime == p.maxWindowTime else w.maxWindowTime == 500_000_000)
            && (if p.minRTTThreshold >= 0 then w.minRTTThreshold == p.minRTTThreshold
                else w.minRTTThreshold == 10_000_000)
            && (if p.windowSize >= 1 then w.windowSize == p.windowSize else w.windowSize == 100)
    ensures PoolFor(p).wrapper.Queueing? <==> !p.ordering.Random?
    ensures PoolFor(p).wrapper.Queueing? ==>
              PoolFor(p).wrapper.queue.maxBacklog == if p.maxBacklog >= 1 then p.maxBacklog else 100
    ensures PoolFor(p).wrapper.Blocking? ==> PoolFor(p).wrapper.blocking == B.Config(B.Precise, false)
    ensures if p.timeout >= 1 then PoolFor(p).timeout == p.timeout
            else if p.ordering.Random? then PoolFor(p).timeout == 0
            else PoolFor(p).timeout == 1_000_000_000
  {}

  /** A run of the pool is a run of the protocol of its limiter. */
  datatype Run = QueueRun(qs: seq<Q.State>, qe: seq<Q.Event>)
               | BlockingRun(bs: seq<B.State>, be: seq<B.Event>)

  /** FixedLimit.OnSample changes nothing, so every update finds the estimate it started with. */
  ghost predicate IsPoolRun(pool: Pool, r: Run) {
    match r
    case QueueRun(ss, es) =>
      && pool.wrapper.Queueing? && Q.IsRun(pool.wrapper.queue, ss, es)
      && Q.StrategyOf(ss[0]) == pool.strategy && Q.FixedLimit(ss, es, pool.estimate)
    case BlockingRun(ss, es) =>
      && pool.wrapper.Blocking? && B.IsRun(pool.wrapper.blocking, ss, es)
      && B.StrategyOf(ss[0]) == pool.strategy && B.FixedEstimate(ss, es, pool.estimate)
  }

  function Length(r: Run): nat {
    match r case QueueRun(ss, _) => |ss| case BlockingRun(ss, _) => |ss|
  }

  /** How many callers hold a listener of the pool after `i` steps. */
  ghost function HoldersAt(r: Run, i: nat): nat
    requires i < Length(r)
  {
    match r case QueueRun(ss, _) => Q.Holders(ss[i]) case BlockingRun(ss, _) => B.Holders(ss[i])
  }

  /** End-to-end safety: for every accepted configuration and every interleaving of arrivals,
      completions, timeouts and cancellations, the enforced limit bounds the holders. */
  lemma PoolNeverExceedsItsLimit(p: Params, r: Run, i: nat)
    requires Accepts(p) && IsPoolRun(PoolFor(p), r) && i < Length(r)
    ensures HoldersAt(r, i) <= EffectiveLimit(p.fixedLimit)
  {
    var pool := PoolFor(p);
    match r
    case QueueRun(ss, es) => Q.FixedLimitIsNeverExceeded(pool.wrapper.queue, ss, es, pool.estimate, i);
    case BlockingRun(ss, es) => B.FixedLimitIsNeverExceeded(pool.wrapper.blocking, ss, es, pool.estimate, i);
  }

  /** A pool hands listeners over in the order it was asked for: a FIFO pool to its waiters in order of
      arrival over the whole run, a LIFO pool each time to the newest of those waiting; and no more
      wait than were asked for. */
  lemma PoolKeepsItsOrdering(p: Params, r: Run, i: nat)
    requires Accepts(p) && IsPoolRun(PoolFor(p), r) && i < Length(r) && r.QueueRun?
    ensures !p.ordering.Random? && |r.qs[i].list| <= if p.maxBacklog >= 1 then p.maxBacklog else 100
    ensures p.ordering.FIFO? ==>
              forall j, k :: 0 <= j < k < |r.qs[i].offers| ==> r.qs[i].offers[j].e < r.qs[i].offers[k].e
    ensures p.ordering.LIFO? ==>
              forall j, x :: 0 <= j < |r.qs[i].offers| && x in r.qs[i].offers[j].seen ==> x <= r.qs[i].offers[j].e
  {
    var c := PoolFor(p).wrapper.queue;
    Q.BacklogIsOrderedAndBounded(c, r.qs, r.qe, i);
    if p.ordering.FIFO? {
      Q.FifoNeverOvertakes(c, r.qs, r.qe, i);
    } else {
      forall j, x | 0 <= j < |r.qs[i].offers| && x in r.qs[i].offers[j].seen
        ensures x <= r.qs[i].offers[j].e
      {
        Q.OffersFollowTheOrdering(c, r.qs, r.qe, i, j);
      }
    }
  }

  // ---------------------------------------------------------------- the bound is reached

  lemma QueueExtend(c: Q.Config, ss: seq<Q.State>, es: seq<Q.Event>, e: Q.Event, estimate: int)
    returns (ss': seq<Q.State>, es': seq<Q.Event>)
    requires Q.IsRun(c, ss, es) && Q.Enabled(c, ss[|ss| - 1], e)
    ensures Q.IsRun(c, ss', es') && ss'[0] == ss[0]
    ensures ss'[|ss'| - 1] == Q.Apply(c, ss[|ss| - 1], e)
    ensures !e.Adjust? && Q.FixedLimit(ss, es, estimate) ==> Q.FixedLimit(ss', es', estimate)
  {
    ss', es' := ss + [Q.Apply(c, ss[|ss| - 1], e)], es + [e];
  }

  /** `n` callers in a row acquire while there is room. */
  lemma {:induction false} FillQueue(c: Q.Config, estimate: int, n: nat)
    returns (ss: seq<Q.State>, es: seq<Q.Event>)
    requires n <= AtLeastOne(estimate)
    ensures Q.IsRun(c, ss, es) && Q.FixedLimit(ss, es, estimate)
    ensures var s := ss[|ss| - 1]; s.busy == n == Q.Holders(s) && (forall g :: g in s.pc ==> g < n)
  {
    if n == 0 {
      var s := Q.State(map[], Q.Free, [], [], 0, AtLeastOne(estimate), {}, [], 0, 0, 0);
      ss, es := [s], [];
      assert Where(s.pc, Q.IsHolding) == {};
    } else {
      var ss1, es1 := FillQueue(c, estimate, n - 1);
      Q.FixedLimitIsNeverExceeded(c, ss1, es1, estimate, |ss1| - 1);
      var ss2, es2 := QueueExtend(c, ss1, es1, Q.Call(n - 1), estimate);
      WhereUpdate(ss1[|ss1| - 1].pc, n - 1, Q.Trying, Q.IsHolding);
      ss, es := QueueExtend(c, ss2, es2, Q.TryDelegate(n - 1), estimate);
      WhereUpdate(ss2[|ss2| - 1].pc, n - 1, Q.Holding, Q.IsHolding);
    }
  }

  lemma BlockingExtend(c: B.Config, ss: seq<B.State>, es: seq<B.Event>, e: B.Event, estimate: int)
    returns (ss': seq<B.State>, es': seq<B.Event>)
    requires B.IsRun(c, ss, es) && B.Enabled(c, ss[|ss| - 1], e)
    ensures B.IsRun(c, ss', es') && ss'[0] == ss[0]
    ensures ss'[|ss'| - 1] == B.Apply(c, ss[|ss| - 1], e)
    ensures !e.BeginUpdate? && B.FixedEstimate(ss, es, estimate) ==> B.FixedEstimate(ss', es', estimate)
  {
    ss', es' := ss + [B.Apply(c, ss[|ss| - 1], e)], es + [e];
  }

  lemma {:induction false} FillBlocking(c: B.Config, estimate: int, n: nat)
    returns (ss: seq<B.State>, es: seq<B.Event>)
    requires n <= AtLeastOne(estimate)
    ensures B.IsRun(c, ss, es) && B.FixedEstimate(ss, es, estimate)
    ensures var s := ss[|ss| - 1];
            && s.mu.None? && s.busy == n == B.Holders(s)
            && (forall g :: g in s.pc ==> g < n && s.pc[g].Holding?)
  {
    if n == 0 {
      var s := B.State(map[], None, 0, 0, AtLeastOne(estimate), estimate, 0, {});
      ss, es := [s], [];
      assert Where(s.pc, B.IsHolding) == {};
    } else {
      var ss1, es1 := FillBlocking(c, estimate, n - 1);
      B.FixedLimitIsNeverExceeded(c, ss1, es1, estimate, |ss1| - 1);
      ss, es := AcquireOneMore(c, ss1, es1, n - 1, estimate);
      var s1, s := ss1[|ss1| - 1], ss[|ss| - 1];
      WhereUpdate(s1.pc, n - 1, s.pc[n - 1], B.IsHolding);
    }
  }

  /** A new caller goes through an attempt from beginning to end, with either strategy. */
  lemma AcquireOneMore(c: B.Config, ss: seq<B.State>, es: seq<B.Event>, g: nat, estimate: int)
    returns (ss': seq<B.State>, es': seq<B.Event>)
    requires B.IsRun(c, ss, es) && B.FixedEstimate(ss, es, estimate)
    requires var s := ss[|ss| - 1]; g !in s.pc && s.mu.None? && s.busy < s.limit
    ensures B.IsRun(c, ss', es') && B.FixedEstimate(ss', es', estimate)
    ensures var s, s' := ss[|ss| - 1], ss'[|ss'| - 1];
            && s'.busy == s.busy + 1 && s'.mu.None?
            && s'.pc == s.pc[g := B.Holding(s.inFlight + 1)]
  {
    var ss1, es1 := BlockingExtend(c, ss, es, B.Call(g), estimate);
    var ss2, es2 := BlockingExtend(c, ss1, es1, B.Capture(g), estimate);
    var ss3, es3 := BlockingExtend(c, ss2, es2, B.Lock(g), estimate);
    var ss4, es4 := CountOne(c, ss3, es3, g, estimate);
    ss', es' := BlockingExtend(c, ss4, es4, B.Hand(g), estimate);
    var s, s' := ss[|ss| - 1], ss'[|ss'| - 1];
    assert s'.pc == s.pc[g := B.Holding(s.inFlight + 1)];
  }

  /** The strategy's part of it. */
  lemma CountOne(c: B.Config, ss: seq<B.State>, es: seq<B.Event>, g: nat, estimate: int)
    returns (ss': seq<B.State>, es': seq<B.Event>)
    requires B.IsRun(c, ss, es) && B.FixedEstimate(ss, es, estimate)
    requires var s := ss[|ss| - 1]; g in s.pc && s.pc[g].Locked? && s.busy < s.limit
    ensures B.IsRun(c, ss', es') && B.FixedEstimate(ss', es', estimate)
    ensures var s, s' := ss[|ss| - 1], ss'[|ss'| - 1];
            s' == s.(pc := s.pc[g := B.Tallied(s.pc[g].ch)], busy := s.busy + 1)
  {
    var s := ss[|ss| - 1];
    if c.strategy.Precise? {
      ss', es' := BlockingExtend(c, ss, es, B.TryPrecise(g), estimate);
    } else {
      var ss1, es1 := BlockingExtend(c, ss, es, B.Load(g), estimate);
      var ss2, es2 := BlockingExtend(c, ss1, es1, B.Check(g), estimate);
      ss', es' := BlockingExtend(c, ss2, es2, B.Add(g), estimate);
      assert ss'[|ss'| - 1].pc == s.pc[g := B.Tallied(s.pc[g].ch)];
    }
  }

  /** With either strategy and either blocking limiter, the limit can be used up to the last token. */
  lemma BlockingReachesItsLimit(c: B.Config, estimate: int) returns (ss: seq<B.State>, es: seq<B.Event>)
    ensures B.IsRun(c, ss, es) && B.FixedEstimate(ss, es, estimate)
    ensures B.Holders(ss[|ss| - 1]) == ss[|ss| - 1].limit == AtLeastOne(estimate)
  {
    ss, es := FillBlocking(c, estimate, AtLeastOne(estimate));
    B.FixedLimitIsNeverExceeded(c, ss, es, estimate, |ss| - 1);
  }

  /** The bound is tight: some run has exactly the enforced limit of holders. */
  lemma PoolReachesItsLimit(p: Params) returns (r: Run)
    requires Accepts(p)
    ensures IsPoolRun(PoolFor(p), r) && Length(r) > 0
    ensures HoldersAt(r, Length(r) - 1) == EffectiveLimit(p.fixedLimit)
  {
    var pool := PoolFor(p);
    match pool.wrapper
    case Queueing(c) =>
      var ss, es := FillQueue(c, pool.estimate, pool.strategy.limit);
      r := QueueRun(ss, es);
    case Blocking(c) =>
      var ss, es := FillBlocking(c, pool.estimate, pool.strategy.limit);
      r := BlockingRun(ss, es);
  }

  /** "At most fixedLimit callers hold a listener" is what a pool is for.  It holds in all runs
      exactly when fixedLimit is at least 1: zero or a negative limit is accepted and enforced
      as 1 or 10. */
  lemma PoolHonoursFixedLimitIff(p: Params)
    requires Accepts(p)
    ensures (forall r: Run, i: nat | IsPoolRun(PoolFor(p), r) && i < Length(r) ::
               HoldersAt(r, i) <= p.fixedLimit)
            <==> p.fixedLimit >= 1
  {
    if p.fixedLimit >= 1 {
      forall r: Run, i: nat | IsPoolRun(PoolFor(p), r) && i < Length(r)
        ensures HoldersAt(r, i) <= p.fixedLimit
      {
        PoolNeverExceedsItsLimit(p, r, i);
      }
    } else {
      var r := PoolReachesItsLimit(p);
      assert HoldersAt(r, Length(r) - 1) > p.fixedLimit;
    }
  }
}

/** The queued hand-off of QueueBlockingLimiter (limiter/queue_blocking.go) over DefaultLimiter
    with PreciseStrategy, as a transition system over any number of goroutines.  A caller that
    fails its attempt joins the backlog and parks in a select; a completing caller peeks at the
    backlog, acquires from the delegate, evicts the element and offers the listener with a
    non-blocking send, while timeouts and cancellations evict elements at any moment. */
module QueueProtocol {
  import opened Basics
  import opened Goroutines
  import opened Backlog
  import opened TokenCounter

  datatype Config = Config(ordering: Ordering, maxBacklog: nat)

  datatype Phase =
    | Idle
    | Trying                    // about to call delegate.Acquire
    | Missed                    // the delegate was full, about to push
    | Queued(e: nat)            // pushed, not yet parked in the select
    | Parked(e: nat)            // blocked in the select on the element's channel
    | Expired(e: nat)           // timed out or cancelled, about to evict
    | Holding                   // the caller owns a listener
    | Completed                 // completion: the delegate's token is returned, unblock is next
    | Unblocking                // completion: inside unblock, holding the limiter's mutex

  /** QueueBlockingLimiter.mu, with what its holder has done so far inside unblock. */
  datatype Mutex =
    | Free
    | Entered(holder: nat)
    | Chosen(holder: nat, e: nat, seen: seq<nat>)   // has peeked at `e` when the backlog was `seen`
    | Carrying(holder: nat, e: nat, seen: seq<nat>) // has acquired a listener for `e`
    | Offering(holder: nat, e: nat, seen: seq<nat>) // has evicted `e`, the send is next
    | Sent(holder: nat, e: nat)                     // a waiter has the listener, close is next
    | Refused(holder: nat, e: nat)                  // nobody received, OnIgnore is next

  /** One attempt to hand a listener to a queued element. */
  datatype Offer = Offer(e: nat, seen: seq<nat>)

  datatype State = State(
    pc: map<nat, Phase>,
    mu: Mutex,
    list: seq<nat>,             // the backlog, newest first
    owner: seq<nat>,            // owner[e] is the goroutine that pushed element e
    busy: int,                  // the delegate's in-flight count
    limit: int,                 // the delegate's limit
    closed: set<nat>,           // elements whose channel has been closed
    offers: seq<Offer>,         // every offer made so far, in order
    acquired: nat,              // listeners acquired inside unblock
    delivered: nat,             // ... received by a waiter
    returned: nat)              // ... given back with OnIgnore

  datatype Event =
    | Call(g: nat)
    | TryDelegate(g: nat)
    | Push(g: nat)
    | Park(g: nat)
    | Expire(g: nat)
    | EvictSelf(g: nat)
    | Complete(g: nat)
    | Adjust(g: nat, limit': int)  // the delegate's completion moves the limit
    | LockMu(g: nat)
    | Peek(g: nat)
    | AcquireFor(g: nat)
    | EvictChosen(g: nat)
    | Send(g: nat, w: nat)
    | Refuse(g: nat)
    | CloseChannel(g: nat)
    | Ignore(g: nat)

  function PhaseOf(s: State, g: nat): Phase { if g in s.pc then s.pc[g] else Idle }

  predicate Enabled(c: Config, s: State, ev: Event) {
    var p := PhaseOf(s, ev.g);
    match ev
    case Call(_) => p.Idle?
    case TryDelegate(_) => p.Trying?
    case Push(_) => p.Missed?
    case Park(_) => p.Queued?
    case Expire(_) => p.Queued? || p.Parked?
    case EvictSelf(_) => p.Expired?
    case Complete(_) => p.Holding?
    case Adjust(_, _) => p.Completed?
    case LockMu(_) => p.Completed? && s.mu.Free?
    case Peek(g) => s.mu.Entered? && s.mu.holder == g
    case AcquireFor(g) => s.mu.Chosen? && s.mu.holder == g
    case EvictChosen(g) => s.mu.Carrying? && s.mu.holder == g
    case Send(g, w) => s.mu.Offering? && s.mu.holder == g && PhaseOf(s, w) == Parked(s.mu.e)
    case Refuse(g) => s.mu.Offering? && s.mu.holder == g && forall w :: w in s.pc ==> s.pc[w] != Parked(s.mu.e)
    case CloseChannel(g) => s.mu.Sent? && s.mu.holder == g
    case Ignore(g) => s.mu.Refused? && s.mu.holder == g
  }

  function Move(s: State, g: nat, p: Phase): State { s.(pc := s.pc[g := p]) }

  /** The counter of the delegate's strategy, and the state with another one. */
  function StrategyOf(s: State): Counter { Counter(s.busy, s.limit) }
  function With(s: State, k: Counter): State { s.(busy := k.inFlight, limit := k.limit) }

  function Apply(c: Config, s: State, ev: Event): State
    requires Enabled(c, s, ev)
  {
    var p := PhaseOf(s, ev.g);
    match ev
    case Call(g) => Move(s, g, Trying)
    case TryDelegate(g) =>
      if Grants(StrategyOf(s)) then With(Move(s, g, Holding), Tried(StrategyOf(s)))
      else Move(s, g, Missed)
    case Push(g) =>
      (match Pushed(s.list, |s.owner|, c.maxBacklog)
       case None => Move(s, g, Idle)
       case Some(list) => Move(s, g, Queued(|s.owner|)).(list := list, owner := s.owner + [g]))
    case Park(g) => Move(s, g, Parked(p.e))
    case Expire(g) => Move(s, g, Expired(p.e))
    case EvictSelf(g) => Move(s, g, Idle).(list := Removed(s.list, p.e))
    case Complete(g) => With(Move(s, g, Completed), Released(StrategyOf(s)))
    case Adjust(g, limit') => With(s, Relimited(StrategyOf(s), limit'))
    case LockMu(g) => Move(s, g, Unblocking).(mu := Entered(g))
    case Peek(g) =>
      (match Peeked(c.ordering, s.list)
       case None => Move(s, g, Idle).(mu := Free)
       case Some(e) => s.(mu := Chosen(g, e, s.list)))
    case AcquireFor(g) =>
      if Grants(StrategyOf(s))
      then With(s, Tried(StrategyOf(s))).(mu := Carrying(g, s.mu.e, s.mu.seen), acquired := s.acquired + 1)
      else Move(s, g, Idle).(mu := Free)
    case EvictChosen(g) =>
      s.(mu := Offering(g, s.mu.e, s.mu.seen), list := Removed(s.list, s.mu.e))
    case Send(g, w) =>
      Move(s, w, Holding).(mu := Sent(g, s.mu.e), offers := s.offers + [Offer(s.mu.e, s.mu.seen)],
                           delivered := s.delivered + 1)
    case Refuse(g) => s.(mu := Refused(g, s.mu.e), offers := s.offers + [Offer(s.mu.e, s.mu.seen)])
    case CloseChannel(g) => Move(s, g, Idle).(mu := Free, closed := s.closed + {s.mu.e})
    case Ignore(g) =>
      With(Move(s, g, Idle), Released(StrategyOf(s))).(mu := Free, returned := s.returned + 1)
  }

  predicate Init(s: State) {
    && s.pc == map[] && s.mu.Free? && s.list == [] && s.owner == [] && s.busy == 0 && s.limit >= 1
    && s.closed == {} && s.offers == [] && s.acquired == 0 && s.delivered == 0 && s.returned == 0
  }

  // ---------------------------------------------------------------- invariants

  predicate IsHolding(p: Phase) { p.Holding? }
  predicate IsWaiting(p: Phase) { p.Queued? || p.Parked? || p.Expired? }
  /** An element has been chosen and not yet offered. */
  predicate IsChoosing(m: Mutex) { m.Chosen? || m.Carrying? || m.Offering? }

  /** The callers that own a listener. */
  ghost function Holders(s: State): nat { |Where(s.pc, IsHolding)| }
  /** Listeners acquired inside unblock that have reached neither a waiter nor the delegate. */
  function Transit(s: State): nat { if s.mu.Carrying? || s.mu.Offering? || s.mu.Refused? then 1 else 0 }

  ghost predicate MutexInv(s: State) {
    forall g :: g in s.pc && s.pc[g].Unblocking? <==> !s.mu.Free? && s.mu.holder == g
  }

  /** Every unit of the delegate's count is a listener in a caller's hands or in transit, and
      every listener acquired inside unblock is delivered, returned or in transit. */
  ghost predicate TokenInv(s: State) {
    && s.busy == Holders(s) + Transit(s)
    && s.acquired == s.delivered + s.returned + Transit(s)
  }

  /** The backlog is in arrival order and within its capacity. */
  ghost predicate BacklogInv(c: Config, s: State) {
    && Ordered(s.list) && |s.list| <= c.maxBacklog
    && (forall e :: e in s.list ==> e < |s.owner|)
  }

  /** A goroutine waits only on the element it pushed. */
  ghost predicate OwnerInv(s: State) {
    forall g :: g in s.pc && IsWaiting(s.pc[g]) ==> s.pc[g].e < |s.owner| && s.owner[s.pc[g].e] == g
  }

  /** Every element in the backlog is still waited on by the goroutine that pushed it. */
  ghost predicate AwaitedInv(s: State) {
    forall e :: e in s.list ==> e < |s.owner| && Awaits(s, s.owner[e], e)
  }

  predicate Awaits(s: State, g: nat, e: nat) {
    IsWaiting(PhaseOf(s, g)) && PhaseOf(s, g).e == e
  }

  /** An element is offered at most once, and is out of the backlog by then. */
  ghost predicate OfferInv(s: State) {
    && (forall i :: 0 <= i < |s.offers| ==> s.offers[i].e < |s.owner| && s.offers[i].e !in s.list)
    && (forall i, j :: 0 <= i < j < |s.offers| ==> s.offers[i].e != s.offers[j].e)
  }

  /** The element chosen next has not been offered yet. */
  ghost predicate NextOfferInv(s: State) {
    && (IsChoosing(s.mu) ==>
          s.mu.e < |s.owner| && forall i :: 0 <= i < |s.offers| ==> s.offers[i].e != s.mu.e)
    && (s.mu.Offering? ==> s.mu.e !in s.list)
  }

  /** Only the channel of the latest offer can still be unclosed after a send. */
  ghost predicate ClosedInv(s: State) {
    && (s.mu.Sent? ==> s.offers != [] && s.offers[|s.offers| - 1].e == s.mu.e && s.mu.e !in s.closed)
    && (forall e :: e in s.closed ==> exists i :: 0 <= i < |s.offers| && s.offers[i].e == e)
  }

  /** Each element was the one its ordering demands among those present when it was chosen. */
  ghost predicate ChoiceInv(c: Config, s: State) {
    && (forall i :: 0 <= i < |s.offers| ==>
          Ordered(s.offers[i].seen) && Peeked(c.ordering, s.offers[i].seen) == Some(s.offers[i].e))
    && (IsChoosing(s.mu) ==> Ordered(s.mu.seen) && Peeked(c.ordering, s.mu.seen) == Some(s.mu.e))
  }

  /** FIFO: the element chosen next is behind everything offered and ahead of everything queued. */
  ghost predicate FifoChoiceInv(s: State) {
    IsChoosing(s.mu) ==>
      && (forall i :: 0 <= i < |s.offers| ==> s.offers[i].e < s.mu.e)
      && (forall x :: x in s.list ==> s.mu.e <= x)
  }

  /** FIFO: offers come in arrival order, and everything still queued arrived after all of them. */
  ghost predicate FifoInv(s: State) {
    && (forall i, j :: 0 <= i < j < |s.offers| ==> s.offers[i].e < s.offers[j].e)
    && (forall i, x :: 0 <= i < |s.offers| && x in s.list ==> s.offers[i].e < x)
  }

  predicate InSelect(p: Phase) { p.Queued? || p.Parked? }

  ghost predicate Offered(s: State, e: nat) { exists i :: 0 <= i < |s.offers| && s.offers[i].e == e }

  /** A waiter's element leaves the backlog only to be offered. */
  ghost predicate ReachableInv(s: State) {
    forall g :: g in s.pc && InSelect(s.pc[g]) ==>
      var e := s.pc[g].e; e in s.list || (s.mu.Offering? && s.mu.e == e) || Offered(s, e)
  }

  ghost predicate Inv(c: Config, s: State) {
    && s.limit >= 1
    && MutexInv(s) && TokenInv(s) && BacklogInv(c, s) && OwnerInv(s) && AwaitedInv(s) && ReachableInv(s)
    && OfferInv(s) && NextOfferInv(s) && ClosedInv(s) && ChoiceInv(c, s)
    && (c.ordering.FIFO? ==> FifoInv(s) && FifoChoiceInv(s))
  }

  // ---------------------------------------------------------------- preservation

  lemma StepKeepsMutex(c: Config, s: State, ev: Event)
    requires MutexInv(s) && Enabled(c, s, ev)
    ensures MutexInv(Apply(c, s, ev))
  {}

  lemma StepKeepsTokens(c: Config, s: State, ev: Event)
    requires MutexInv(s) && TokenInv(s) && Enabled(c, s, ev)
    ensures TokenInv(Apply(c, s, ev))
  {
    var s' := Apply(c, s, ev);
    var g := if ev.Send? then ev.w else ev.g;
    var v := s'.pc[g];
    assert s'.pc == s.pc[g := v];
    WhereUpdate(s.pc, g, v, IsHolding);
  }

  lemma StepKeepsBacklog(c: Config, s: State, ev: Event)
    requires BacklogInv(c, s) && Enabled(c, s, ev)
    ensures BacklogInv(c, Apply(c, s, ev))
  {
    if ev.EvictSelf? {
      RemovedKeepsOrder(s.list, s.pc[ev.g].e);
    } else if ev.EvictChosen? {
      RemovedKeepsOrder(s.list, s.mu.e);
    } else if ev.Push? {
      PushedIsOrdered(|s.owner|, s.list);
    }
  }

  lemma StepKeepsOwners(c: Config, s: State, ev: Event)
    requires OwnerInv(s) && Enabled(c, s, ev)
    ensures OwnerInv(Apply(c, s, ev))
  {}

  lemma StepKeepsAwaited(c: Config, s: State, ev: Event)
    requires MutexInv(s) && AwaitedInv(s) && Enabled(c, s, ev)
    requires s.mu.Offering? ==> s.mu.e !in s.list
    ensures AwaitedInv(Apply(c, s, ev))
  {
    var s' := Apply(c, s, ev);
    forall e | e in s'.list ensures e < |s'.owner| && Awaits(s', s'.owner[e], e) {
      if e in s.list {
        assert Awaits(s, s.owner[e], e) && s'.owner[e] == s.owner[e];
      }
    }
  }

  lemma StepKeepsReachable(c: Config, s: State, ev: Event)
    requires OwnerInv(s) && ReachableInv(s) && Enabled(c, s, ev)
    ensures ReachableInv(Apply(c, s, ev))
  {
    var s' := Apply(c, s, ev);
    forall g | g in s'.pc && InSelect(s'.pc[g])
      ensures var e := s'.pc[g].e; e in s'.list || (s'.mu.Offering? && s'.mu.e == e) || Offered(s', e)
    {
      WaiterStaysReachable(c, s, ev, g);
    }
  }

  lemma WaiterStaysReachable(c: Config, s: State, ev: Event, g: nat)
    requires OwnerInv(s) && ReachableInv(s) && Enabled(c, s, ev)
    requires var s' := Apply(c, s, ev); g in s'.pc && InSelect(s'.pc[g])
    ensures var s' := Apply(c, s, ev); var e := s'.pc[g].e;
            e in s'.list || (s'.mu.Offering? && s'.mu.e == e) || Offered(s', e)
  {
    var s' := Apply(c, s, ev);
    var e := s'.pc[g].e;
    if Offered(s, e) {
      var i :| 0 <= i < |s.offers| && s.offers[i].e == e;
      assert s'.offers[i].e == e;
    } else if s.mu.Offering? && s.mu.e == e && (ev.Send? || ev.Refuse?) {
      assert s'.offers[|s.offers|].e == e;
    }
  }

  lemma StepKeepsOffers(c: Config, s: State, ev: Event)
    requires OfferInv(s) && NextOfferInv(s) && Enabled(c, s, ev)
    ensures OfferInv(Apply(c, s, ev))
  {}

  lemma StepKeepsNextOffer(c: Config, s: State, ev: Event)
    requires OfferInv(s) && NextOfferInv(s) && BacklogInv(c, s) && Enabled(c, s, ev)
    ensures NextOfferInv(Apply(c, s, ev))
  {
    PeekedIsExtreme(c.ordering, s.list);
  }

  lemma StepKeepsClosed(c: Config, s: State, ev: Event)
    requires NextOfferInv(s) && ClosedInv(s) && Enabled(c, s, ev)
    ensures ClosedInv(Apply(c, s, ev))
  {
    var s' := Apply(c, s, ev);
    forall e | e in s'.closed
      ensures exists i :: 0 <= i < |s'.offers| && s'.offers[i].e == e
    {
      if e in s.closed {
        var i :| 0 <= i < |s.offers| && s.offers[i].e == e;
        assert s'.offers[i].e == e;
      }
    }
  }

  lemma StepKeepsChoices(c: Config, s: State, ev: Event)
    requires BacklogInv(c, s) && ChoiceInv(c, s) && Enabled(c, s, ev)
    ensures ChoiceInv(c, Apply(c, s, ev))
  {}

  lemma StepKeepsFifoChoice(c: Config, s: State, ev: Event)
    requires BacklogInv(c, s) && NextOfferInv(s) && FifoInv(s) && FifoChoiceInv(s)
    requires Enabled(c, s, ev) && c.ordering.FIFO?
    ensures FifoChoiceInv(Apply(c, s, ev))
  {
    PeekedIsExtreme(c.ordering, s.list);
  }

  lemma StepKeepsFifo(c: Config, s: State, ev: Event)
    requires OfferInv(s) && NextOfferInv(s) && FifoInv(s) && FifoChoiceInv(s) && Enabled(c, s, ev)
    ensures FifoInv(Apply(c, s, ev))
  {
    var s' := Apply(c, s, ev);
    if ev.Send? || ev.Refuse? {
      assert s'.list == s.list && s'.offers == s.offers + [Offer(s.mu.e, s.mu.seen)];
    } else {
      assert s'.offers == s.offers;
      assert forall x :: x in s'.list ==> x in s.list || x == |s.owner|;
    }
  }

  lemma StepKeepsInv(c: Config, s: State, ev: Event)
    requires Inv(c, s) && Enabled(c, s, ev)
    ensures Inv(c, Apply(c, s, ev))
  {
    StepKeepsMutex(c, s, ev);
    StepKeepsTokens(c, s, ev);
    StepKeepsBacklog(c, s, ev);
    StepKeepsOwners(c, s, ev);
    StepKeepsAwaited(c, s, ev);
    StepKeepsReachable(c, s, ev);
    StepKeepsOffers(c, s, ev);
    StepKeepsNextOffer(c, s, ev);
    StepKeepsClosed(c, s, ev);
    StepKeepsChoices(c, s, ev);
    if c.ordering.FIFO? {
      StepKeepsFifoChoice(c, s, ev);
      StepKeepsFifo(c, s, ev);
    }
  }

  // ---------------------------------------------------------------- runs

  ghost predicate IsRun(c: Config, ss: seq<State>, es: seq<Event>) {
    && |ss| == |es| + 1
    && Init(ss[0])
    && forall i :: 0 <= i < |es| ==> Enabled(c, ss[i], es[i]) && ss[i + 1] == Apply(c, ss[i], es[i])
  }

  lemma {:induction false} RunKeepsInv(c: Config, ss: seq<State>, es: seq<Event>, i: nat)
    requires IsRun(c, ss, es) && i < |ss|
    ensures Inv(c, ss[i])
  {
    if i == 0 {
      assert Where(ss[0].pc, IsHolding) == {};
    } else {
      RunKeepsInv(c, ss, es, i - 1);
      StepKeepsInv(c, ss[i - 1], es[i - 1]);
    }
  }

  /** Hand-offs conserve tokens, however timeouts race with them: the delegate's in-flight count
      is the listeners in callers' hands plus the one in transit, and each listener acquired
      inside unblock has been delivered or returned, but for the one in transit. */
  lemma HandOffConservesTokens(c: Config, ss: seq<State>, es: seq<Event>, i: nat)
    requires IsRun(c, ss, es) && i < |ss|
    ensures ss[i].busy == Holders(ss[i]) + Transit(ss[i])
    ensures ss[i].acquired == ss[i].delivered + ss[i].returned + Transit(ss[i])
    ensures ss[i].mu.Free? ==> Holders(ss[i]) == ss[i].busy && ss[i].acquired == ss[i].delivered + ss[i].returned
  {
    RunKeepsInv(c, ss, es, i);
  }

  /** A delivered listener reaches the one goroutine that pushed the offered element, and nobody else. */
  lemma DeliveryReachesThePusher(c: Config, ss: seq<State>, es: seq<Event>, i: nat)
    requires IsRun(c, ss, es) && i < |es| && es[i].Send?
    ensures var s, s', w := ss[i], ss[i + 1], es[i].w;
            && s.mu.e < |s.owner| && s.owner[s.mu.e] == w
            && s'.pc[w].Holding? && Holders(s') == Holders(s) + 1
            && forall g :: g != w ==> PhaseOf(s', g) == PhaseOf(s, g)
  {
    RunKeepsInv(c, ss, es, i);
    WhereUpdate(ss[i].pc, es[i].w, Holding, IsHolding);
  }

  /** Each queued element is offered at most once in a run, and its channel is never closed a
      second time (which would panic) nor sent on after it is closed. */
  lemma OfferedAtMostOnce(c: Config, ss: seq<State>, es: seq<Event>, i: nat)
    requires IsRun(c, ss, es) && i < |ss|
    ensures forall j, k :: 0 <= j < k < |ss[i].offers| ==> ss[i].offers[j].e != ss[i].offers[k].e
    ensures i < |es| && (es[i].Send? || es[i].Refuse? || es[i].CloseChannel?) ==>
              ss[i].mu.e !in ss[i].closed
  {
    RunKeepsInv(c, ss, es, i);
  }

  /** In every state the backlog is in strict arrival order, within its capacity, and holds no
      element whose pusher has stopped waiting. */
  lemma BacklogIsOrderedAndBounded(c: Config, ss: seq<State>, es: seq<Event>, i: nat)
    requires IsRun(c, ss, es) && i < |ss|
    ensures Ordered(ss[i].list) && |ss[i].list| <= c.maxBacklog
    ensures forall e :: e in ss[i].list ==>
              e < |ss[i].owner| && ss[i].owner[e] in ss[i].pc
              && IsWaiting(ss[i].pc[ss[i].owner[e]]) && ss[i].pc[ss[i].owner[e]].e == e
  {
    RunKeepsInv(c, ss, es, i);
    forall e | e in ss[i].list
      ensures e < |ss[i].owner| && ss[i].owner[e] in ss[i].pc
    {
      assert Awaits(ss[i], ss[i].owner[e], e);
    }
  }

  /** FIFO never overtakes: over a whole run the arrival numbers of the offered elements strictly
      increase, and everything still queued arrived after everything offered. */
  lemma FifoNeverOvertakes(c: Config, ss: seq<State>, es: seq<Event>, i: nat)
    requires IsRun(c, ss, es) && i < |ss| && c.ordering.FIFO?
    ensures forall j, k :: 0 <= j < k < |ss[i].offers| ==> ss[i].offers[j].e < ss[i].offers[k].e
    ensures forall j, x :: 0 <= j < |ss[i].offers| && x in ss[i].list ==> ss[i].offers[j].e < x
  {
    RunKeepsInv(c, ss, es, i);
  }

  /** Every offer of a run goes to the oldest (FIFO) or newest (LIFO) element that was in the
      backlog when unblock peeked; an unrecognised ordering never offers anything. */
  lemma OffersFollowTheOrdering(c: Config, ss: seq<State>, es: seq<Event>, i: nat, j: nat)
    requires IsRun(c, ss, es) && i < |ss| && j < |ss[i].offers|
    ensures var o := ss[i].offers[j];
            && o.e in o.seen
            && (c.ordering.FIFO? ==> forall x :: x in o.seen ==> o.e <= x)
            && (c.ordering.LIFO? ==> forall x :: x in o.seen ==> x <= o.e)
            && !c.ordering.Unrecognised?
  {
    RunKeepsInv(c, ss, es, i);
    PeekedIsExtreme(c.ordering, ss[i].offers[j].seen);
  }

  /** Outside an offer in progress, the element of a caller in its select has left the backlog if and
      only if it has been offered. */
  lemma LeftTheBacklogIff(c: Config, ss: seq<State>, es: seq<Event>, i: nat, g: nat)
    requires IsRun(c, ss, es) && i < |ss| && !ss[i].mu.Offering?
    requires g in ss[i].pc && InSelect(ss[i].pc[g])
    ensures ss[i].pc[g].e !in ss[i].list <==> Offered(ss[i], ss[i].pc[g].e)
  {
    RunKeepsInv(c, ss, es, i);
  }

  lemma {:induction false} OffersOnlyGrow(c: Config, ss: seq<State>, es: seq<Event>, i: nat, j: nat)
    requires IsRun(c, ss, es) && i <= j < |ss|
    ensures ss[i].offers <= ss[j].offers
    decreases j - i
  {
    if i < j {
      OffersOnlyGrow(c, ss, es, i, j - 1);
    }
  }

  /** A stranded waiter: once its element has been offered and it is still in its select, no hand-off
      of the rest of the run is sent to it, so that only its timeout or cancellation ends the wait. */
  lemma OfferedWaiterIsStranded(c: Config, ss: seq<State>, es: seq<Event>, i: nat, j: nat, g: nat)
    requires IsRun(c, ss, es) && i <= j < |es|
    requires g in ss[i].pc && InSelect(ss[i].pc[g]) && Offered(ss[i], ss[i].pc[g].e)
    requires PhaseOf(ss[j], g) == Parked(ss[i].pc[g].e)
    ensures !(es[j].Send? && es[j].w == g)
  {
    OffersOnlyGrow(c, ss, es, i, j);
    RunKeepsInv(c, ss, es, j);
    var k :| 0 <= k < |ss[i].offers| && ss[i].offers[k].e == ss[i].pc[g].e;
    assert ss[j].offers[k].e == ss[i].pc[g].e;
  }

  lemma Extend(c: Config, ss: seq<State>, es: seq<Event>, ev: Event)
    returns (ss': seq<State>, es': seq<Event>)
    requires IsRun(c, ss, es) && Enabled(c, ss[|ss| - 1], ev)
    ensures IsRun(c, ss', es') && ss'[|ss'| - 1] == Apply(c, ss[|ss| - 1], ev)
  {
    ss', es' := ss + [Apply(c, ss[|ss| - 1], ev)], es + [ev];
  }

  lemma OneHolds(c: Config) returns (ss: seq<State>, es: seq<Event>)
    ensures IsRun(c, ss, es)
    ensures ss[|ss| - 1] == State(map[0 := Holding], Free, [], [], 1, 1, {}, [], 0, 0, 0)
  {
    ss, es := [State(map[], Free, [], [], 0, 1, {}, [], 0, 0, 0)], [];
    ss, es := Extend(c, ss, es, Call(0));
    ss, es := Extend(c, ss, es, TryDelegate(0));
    assert ss[|ss| - 1].pc == map[0 := Holding];
  }

  /** One caller holds the only listener and a second one has queued, but is not yet in its select. */
  lemma OneHoldsOneQueues(c: Config) returns (ss: seq<State>, es: seq<Event>)
    requires c.maxBacklog >= 1
    ensures IsRun(c, ss, es)
    ensures ss[|ss| - 1] == State(map[0 := Holding, 1 := Queued(0)], Free, [0], [1], 1, 1, {}, [], 0, 0, 0)
  {
    ss, es := OneHolds(c);
    ss, es := Extend(c, ss, es, Call(1));
    ss, es := Extend(c, ss, es, TryDelegate(1));
    ss, es := Extend(c, ss, es, Push(1));
    assert ss[|ss| - 1].pc == map[0 := Holding, 1 := Queued(0)];
  }

  /** The holder completes, and acquires a listener for the one that has queued. */
  lemma AcquiredForTheQueued(c: Config) returns (ss: seq<State>, es: seq<Event>)
    requires c.maxBacklog >= 1 && !c.ordering.Unrecognised?
    ensures IsRun(c, ss, es)
    ensures ss[|ss| - 1] == State(map[0 := Unblocking, 1 := Queued(0)], Carrying(0, 0, [0]), [0], [1],
                                  1, 1, {}, [], 1, 0, 0)
  {
    ss, es := OneHoldsOneQueues(c);
    ss, es := Extend(c, ss, es, Complete(0));
    ss, es := Extend(c, ss, es, LockMu(0));
    ss, es := Extend(c, ss, es, Peek(0));
    ss, es := Extend(c, ss, es, AcquireFor(0));
    assert ss[|ss| - 1].pc == map[0 := Unblocking, 1 := Queued(0)];
  }

  /** For every ordering and capacity, a hand-off made between a caller's push and its select strands
      it: everybody else is done, the limit is free, and the caller waits on an element that has
      been offered already. */
  lemma WaiterCanBeStranded(c: Config) returns (ss: seq<State>, es: seq<Event>)
    requires c.maxBacklog >= 1 && !c.ordering.Unrecognised?
    ensures IsRun(c, ss, es)
    ensures var s := ss[|ss| - 1];
            s.pc == map[0 := Idle, 1 := Parked(0)] && Offered(s, 0) && s.list == [] && s.busy == 0 < s.limit
  {
    ss, es := AcquiredForTheQueued(c);
    ss, es := Extend(c, ss, es, EvictChosen(0));
    ss, es := Extend(c, ss, es, Refuse(0));
    assert ss[|ss| - 1].offers[0].e == 0;
    ss, es := Extend(c, ss, es, Ignore(0));
    ss, es := Extend(c, ss, es, Park(1));
    assert ss[|ss| - 1].pc == map[0 := Idle, 1 := Parked(0)];
  }

  // ---------------------------------------------------------------- calls

  /** A caller inside tryAcquire, without a listener so far. */
  predicate IsCalling(p: Phase) { p.Trying? || p.Missed? || IsWaiting(p) }

  /** A caller is turned away by its push if and only if the backlog is exactly full; otherwise its
      element is the newest one there. */
  lemma PushRefusedIff(c: Config, ss: seq<State>, es: seq<Event>, i: nat)
    requires IsRun(c, ss, es) && i < |es| && es[i].Push?
    ensures var s, s', p' := ss[i], ss[i + 1], PhaseOf(ss[i + 1], es[i].g);
            && (p'.Idle? <==> |s.list| == c.maxBacklog)
            && (p'.Idle? ==> s'.list == s.list)
            && (!p'.Idle? ==> p' == Queued(|s.owner|) && s'.list == [|s.owner|] + s.list)
  {
    RunKeepsInv(c, ss, es, i);
  }

  /** A call ends without a listener only by a full backlog or by its own timeout or cancellation, and it
      queues only if the delegate was full. */
  lemma CallEndsOnlyWhenFullOrExpired(c: Config, ss: seq<State>, es: seq<Event>, i: nat, g: nat)
    requires IsRun(c, ss, es) && i < |es| && IsCalling(PhaseOf(ss[i], g))
    ensures var p, p' := PhaseOf(ss[i], g), PhaseOf(ss[i + 1], g);
            && (IsCalling(p') || p'.Holding? || p'.Idle?)
            && (p'.Idle? ==> p.Expired? || (p.Missed? && |ss[i].list| == c.maxBacklog))
            && (p'.Expired? && !p.Expired? ==> es[i] == Expire(g))
            && (p'.Missed? && !p.Missed? ==> ss[i].busy >= ss[i].limit)
            && (p.Trying? && p'.Holding? ==> ss[i].busy < ss[i].limit)
  {
    RunKeepsInv(c, ss, es, i);
    CallStep(c, ss[i], es[i], g);
  }

  lemma CallStep(c: Config, s: State, ev: Event, g: nat)
    requires BacklogInv(c, s) && MutexInv(s) && Enabled(c, s, ev) && IsCalling(PhaseOf(s, g))
    ensures var p, p' := PhaseOf(s, g), PhaseOf(Apply(c, s, ev), g);
            && (IsCalling(p') || p'.Holding? || p'.Idle?)
            && (p'.Idle? ==> p.Expired? || (p.Missed? && |s.list| == c.maxBacklog))
            && (p'.Expired? && !p.Expired? ==> ev == Expire(g))
            && (p'.Missed? && !p.Missed? ==> s.busy >= s.limit)
            && (p.Trying? && p'.Holding? ==> s.busy < s.limit)
  {}

  /** The life of a call: it begins with Acquire and with nothing else, a listener is kept until its owner
      completes it, and a completion ends once its pass through unblock does. */
  lemma LifeOfACall(c: Config, ss: seq<State>, es: seq<Event>, i: nat, g: nat)
    requires IsRun(c, ss, es) && i < |es|
    ensures var p, p' := PhaseOf(ss[i], g), PhaseOf(ss[i + 1], g);
            && (p.Idle? ==> p'.Idle? || (p'.Trying? && es[i] == Call(g)))
            && (p.Holding? ==> p' == p || (p'.Completed? && es[i] == Complete(g)))
            && (p.Completed? ==> p' == p || (p'.Unblocking? && es[i] == LockMu(g)))
            && (p.Unblocking? ==> p' == p || (p'.Idle? && ss[i + 1].mu.Free?))
  {
    RunKeepsInv(c, ss, es, i);
    LifeStep(c, ss[i], es[i], g);
  }

  lemma LifeStep(c: Config, s: State, ev: Event, g: nat)
    requires MutexInv(s) && Enabled(c, s, ev)
    ensures var p, p' := PhaseOf(s, g), PhaseOf(Apply(c, s, ev), g);
            && (p.Idle? ==> p'.Idle? || (p'.Trying? && ev == Call(g)))
            && (p.Holding? ==> p' == p || (p'.Completed? && ev == Complete(g)))
            && (p.Completed? ==> p' == p || (p'.Unblocking? && ev == LockMu(g)))
            && (p.Unblocking? ==> p' == p || (p'.Idle? && Apply(c, s, ev).mu.Free?))
  {}

  /** What becomes of a hand-off: an element is chosen exactly when the backlog has one to offer, a
      listener is acquired for it exactly when the delegate has room, and it is sent exactly when the
      element's pusher is parked. */
  lemma HandOffOutcome(c: Config, ss: seq<State>, es: seq<Event>, i: nat)
    requires IsRun(c, ss, es) && i < |es|
    ensures var s, s' := ss[i], ss[i + 1];
            && (es[i].Peek? ==> (s'.mu.Chosen? <==> s.list != [] && !c.ordering.Unrecognised?))
            && (es[i].AcquireFor? ==> (s'.mu.Carrying? <==> s.busy < s.limit))
            && (es[i].Peek? || es[i].AcquireFor? ==> s'.mu.Free? || IsChoosing(s'.mu))
            && (s.mu.Offering? && es[i].g == s.mu.holder ==>
                  s.mu.e < |s.owner| && (es[i].Send? <==> PhaseOf(s, s.owner[s.mu.e]) == Parked(s.mu.e)))
  {
    RunKeepsInv(c, ss, es, i);
    var s := ss[i];
    if s.mu.Offering? && es[i].g == s.mu.holder {
      var w := s.owner[s.mu.e];
      if PhaseOf(s, w) == Parked(s.mu.e) {
        assert w in s.pc && s.pc[w] == Parked(s.mu.e);
      }
    }
  }

  /** Nobody is stuck: in every state every goroutine has a step of its own, unless it waits for the
      limiter's mutex, which another one holds; whoever waits in the backlog can time out, and a
      completion can move the limit anywhere. */
  lemma NobodyIsStuck(c: Config, ss: seq<State>, es: seq<Event>, i: nat, g: nat)
    requires IsRun(c, ss, es) && i < |ss|
    ensures var s := ss[i]; var p := PhaseOf(s, g);
            && ((exists ev: Event :: ev.g == g && Enabled(c, s, ev) && !ev.Adjust?)
                || (p.Completed? && !s.mu.Free? && s.mu.holder != g))
            && (p.Queued? || p.Parked? ==> Enabled(c, s, Expire(g)))
            && (p.Completed? ==> forall limit' :: Enabled(c, s, Adjust(g, limit')))
  {
    RunKeepsInv(c, ss, es, i);
    var s := ss[i];
    var ev := match PhaseOf(s, g)
      case Idle => Call(g)
      case Trying => TryDelegate(g)
      case Missed => Push(g)
      case Queued(_) => Park(g)
      case Parked(_) => Expire(g)
      case Expired(_) => EvictSelf(g)
      case Holding => Complete(g)
      case Completed => LockMu(g)
      case Unblocking => NextOfHolder(s);
    assert ev.g == g && !ev.Adjust?;
  }

  /** The step the holder of the mutex takes next. */
  ghost function NextOfHolder(s: State): (ev: Event)
    requires !s.mu.Free?
    ensures ev.g == s.mu.holder && !ev.Adjust?
  {
    match s.mu
    case Entered(g) => Peek(g)
    case Chosen(g, _, _) => AcquireFor(g)
    case Carrying(g, _, _) => EvictChosen(g)
    case Offering(g, e, _) =>
      if w :| w in s.pc && s.pc[w] == Parked(e) then Send(g, w) else Refuse(g)
    case Sent(g, _) => CloseChannel(g)
    case Refused(g, _) => Ignore(g)
  }

  /** What the delegate's limit has been set to by the steps `es`. */
  function LastLimit(first: int, es: seq<Event>): int {
    if es == [] then first
    else if es[|es| - 1].Adjust? then AtLeastOne(es[|es| - 1].limit')
    else LastLimit(first, es[..|es| - 1])
  }

  /** The limit enforced follows every adjustment, within 1. */
  lemma {:induction false} LimitFollowsAdjustments(c: Config, ss: seq<State>, es: seq<Event>, i: nat)
    requires IsRun(c, ss, es) && i < |ss|
    ensures ss[i].limit == LastLimit(ss[0].limit, es[..i])
  {
    if i > 0 {
      LimitFollowsAdjustments(c, ss, es, i - 1);
      assert es[..i][..i - 1] == es[..i - 1];
      LimitStep(c, ss[i - 1], es[i - 1]);
    }
  }

  /** One step changes the limit only by an adjustment, and the count only within the limit. */
  lemma LimitStep(c: Config, s: State, ev: Event)
    requires Enabled(c, s, ev)
    ensures Apply(c, s, ev).limit == if ev.Adjust? then AtLeastOne(ev.limit') else s.limit
    ensures Apply(c, s, ev).busy <= s.busy || Apply(c, s, ev).busy <= s.limit
  {}

  // ---------------------------------------------------------------- the backlog fills up

  /** `n` callers queue behind one that holds the only listener. */
  lemma {:induction false} FillBacklog(c: Config, n: nat) returns (ss: seq<State>, es: seq<Event>)
    requires n <= c.maxBacklog
    ensures IsRun(c, ss, es)
    ensures var s := ss[|ss| - 1];
            |s.list| == n && s.busy == 1 == s.limit && s.mu.Free? && forall g :: g in s.pc ==> g <= n
  {
    if n == 0 {
      ss, es := OneHolds(c);
    } else {
      var ss1, es1 := FillBacklog(c, n - 1);
      ss, es := QueueOneMore(c, ss1, es1, n);
    }
  }

  lemma QueueOneMore(c: Config, ss: seq<State>, es: seq<Event>, g: nat)
    returns (ss': seq<State>, es': seq<Event>)
    requires IsRun(c, ss, es)
    requires var s := ss[|ss| - 1]; |s.list| < c.maxBacklog && s.busy >= s.limit && g !in s.pc
    ensures IsRun(c, ss', es')
    ensures var s, s' := ss[|ss| - 1], ss'[|ss'| - 1];
            && |s'.list| == |s.list| + 1 && s'.busy == s.busy && s'.limit == s.limit && s'.mu == s.mu
            && s'.pc == s.pc[g := Queued(|s.owner|)]
  {
    var ss1, es1 := Extend(c, ss, es, Call(g));
    var ss2, es2 := Extend(c, ss1, es1, TryDelegate(g));
    ss', es' := Extend(c, ss2, es2, Push(g));
    assert ss'[|ss'| - 1].pc == ss[|ss| - 1].pc[g := Queued(|ss[|ss| - 1].owner|)];
  }

  /** Every place of the backlog can be used, whatever its capacity. */
  lemma BacklogFillsUp(c: Config) returns (ss: seq<State>, es: seq<Event>)
    ensures IsRun(c, ss, es) && |ss[|ss| - 1].list| == c.maxBacklog
  {
    ss, es := FillBacklog(c, c.maxBacklog);
  }

  /** `seen` is the backlog at the moment of the peek, in the same pass through unblock. */
  lemma PeekRecordsTheBacklog(c: Config, s: State, ev: Event)
    requires Enabled(c, s, ev)
    ensures IsChoosing(Apply(c, s, ev).mu) && !IsChoosing(s.mu) ==>
              ev.Peek? && Apply(c, s, ev).mu.seen == s.list
    ensures IsChoosing(s.mu) && IsChoosing(Apply(c, s, ev).mu) ==>
              Apply(c, s, ev).mu.e == s.mu.e && Apply(c, s, ev).mu.seen == s.mu.seen
  {}

  /** The delegate's limit never moves. */
  ghost predicate FixedLimit(ss: seq<State>, es: seq<Event>, limit: int)
    requires |ss| > 0
  {
    ss[0].limit == AtLeastOne(limit) && forall i :: 0 <= i < |es| && es[i].Adjust? ==> es[i].limit' == limit
  }

  lemma {:induction false} FixedLimitIsNeverExceeded(
    c: Config, ss: seq<State>, es: seq<Event>, limit: int, i: nat)
    requires IsRun(c, ss, es) && i < |ss| && FixedLimit(ss, es, limit)
    ensures ss[i].limit == AtLeastOne(limit)
    ensures Holders(ss[i]) <= ss[i].busy <= AtLeastOne(limit)
  {
    RunKeepsInv(c, ss, es, i);
    if i > 0 {
      FixedLimitIsNeverExceeded(c, ss, es, limit, i - 1);
      LimitStep(c, ss[i - 1], es[i - 1]);
    }
  }
}

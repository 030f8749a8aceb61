# Verified model of the concurrency limiter

The repository limits the number of concurrent calls to a resource and adapts that limit to the
latencies it observes. This project models its four layers in Dafny and proves what they promise over
whole runs:

1. **Blocking hand-offs** (`limiter/`): the notify channel of `BlockingLimiter` and `DeadlineLimiter`,
   which is captured before an attempt and swapped, then closed, by a release; and the FIFO/LIFO
   backlog of `QueueBlockingLimiter` with its non-blocking send that races against timeouts and
   cancellations. (`BlockingProtocol`, `BlockingLiveness`, `Backlog`, `QueueProtocol`)
2. **Admission and accounting** (`limiter/default.go`, `strategy/`, `patterns/pool/`): the
   single-counter strategies, the partition strategies with their borrowing, and the fixed pool that
   puts all layers together. (`TokenCounter`, `CountingStrategies`, `PartitionAllocator`,
   `PartitionStrategies`, `FixedPool`)
3. **Windows** (`limiter/default.go`, `limit/windowed.go`, `measurements/immutable_sample_window.go`):
   when samples are summarised and handed to a limit. (`SampleWindow`, `WindowScheduler`,
   `WindowedLimit`)
4. **Control algorithms** (`limit/vegas.go`, `limit/gradient.go`, `limit/gradient2.go`, their functions
   and measurements): how the estimate moves. (`Vegas`, `Gradient`, `Gradient2`, `LimitFunctions`,
   `Minimum`, `ExponentialAverage`, `MovingAverage`)

## How the model is built

Protocols are transition systems over any number of goroutines. A state maps every goroutine to its
phase; an event names a goroutine; `Enabled` and `Apply` give the steps. A run is any sequence of enabled
steps from an initial state, so every theorem about runs is a theorem about every interleaving. The
goroutines of `limiter/blocking.go`, `limiter/deadline.go`, `limiter/delegate_listener.go`,
`limiter/queue_blocking.go` and `strategy/simple.go` take this form rather than that of an object,
because what matters there is what other goroutines do between two statements of a method.

Each lock region, atomic operation and channel operation is a step of its own, with these exceptions. A
lock region of `DefaultLimiter` in `BlockingProtocol` is split where another goroutine can act on the same
data. In `QueueProtocol` an acquire or completion of the delegate is one step: it merges the mutex and the
atomic counter of `DefaultLimiter` with the mutex region of `PreciseStrategy`, which is where the outcome
is decided and the only part of it that the rest of the protocol can observe. A lock region that touches
nothing a protocol model keeps (the sample window, in both) is not a step of that model; `WindowScheduler`
models it.

Code that runs under one lock is a class whose methods follow the source statement by statement and are
proved to make the pure step that the theorems are about: `View() == Step(config, old(View()), input)` for
the limits and measurements, one `Apply` of the allocator for the partition strategies, `Removed` and
`Peeked` for the backlog. The steps of the single-counter strategies are defined once, in `TokenCounter`:
`SimpleStrategy`'s and both hand-off transition systems are built from them, and the methods of
`PreciseStrategy` are proved to make them. `DefaultLimiter` is an object over that strategy, whose
completions and updates are the functions `Add` and `Attempt` that the transition system of
`WindowScheduler` interleaves. `NewFixedPool` builds these objects.

Assumptions:

- A listener is completed exactly once, as `core/limit.go:80-81` demands of callers.
- `float64` is `real`; round trips are positive in `Vegas`, `Gradient` and `Gradient2`, which divide by
  them, and any int64 in the windows; integers stay in range, except that the int64 wrap-around of the doubled candidate round trip and the int32 truncation
  of the in-flight count in `limit/windowed.go` are modelled.
- Clock readings, the Vegas jitter in [0.5, 1), `rand.Intn`, cancellations, deadlines and timers are
  inputs that may take any value in their range at any time.
- A non-blocking send on an unbuffered channel succeeds only when a receiver is parked in its select,
  and then commits that receiver. Removing an element that has left a `container/list` does nothing.
- All tokens of a wrapped limiter come through the wrapper.
- In `QueueProtocol` a caller counts as holding its listener until the completion has returned the token.
- Liveness (`BlockingLiveness`) assumes that goroutines which can move and must not be delayed forever
  do move: callers complete their listeners, completions proceed, a waiter whose channel is closed runs.
  `EveryWaiterTriesAgain` also assumes it of the steps of an attempt, getting the mutex among them.

## Where the code differs from what it promises

- A `FixedPool` with `fixedLimit` 0 enforces 1, and with a negative one enforces 10, while `Limit()`
  reports the argument. `PoolHonoursFixedLimitIff`: at most `fixedLimit` holders in every run if and only
  if `fixedLimit >= 1`.
- The repository's README (line 89) says that unidentified requests may only use excess capacity. The
  unknown partition of `LookupPartitionStrategy` has the whole initial limit as its own limit, and
  `SetLimit` never rescales it. `UnknownRefusedIff`: with the limit used up, an unidentified caller is
  refused if and only if the unknown partition already holds the initial limit of tokens;
  `UnknownUsesMoreThanExcess` builds the run.
- A partition of 0 percent is documented as using excess capacity only and open to being starved
  (`strategy/predicate_partition.go:116-117`). It keeps one slot of its own. `ZeroPercentIsRefusedIff`: with
  the limit used up it is refused if and only if it holds a token.
- `UpdateLimit` of a partition rounds up, so partition limits can sum to more than the limit, and a
  partition may use its own limit after others have borrowed it. The total exceeds the limit by exactly
  the amount stated by `PercentageOvershoot` and `PercentageOvershootIsReached`. `NeverOvershootsIff`: it
  never exceeds the limit if and only if there is one partition and the limit is at least 1 (the
  constructors accept less).
- `WindowedLimit` documents `windowSize` as the smallest sampling window but compares it with the in-flight
  count of the latest sample. `WindowSizeCountsSamplesIff`: every delegated window has that many samples if
  and only if the configuration never delegates a window at all; `SmallWindow` gives the input otherwise.
- `WindowedLimit` tells its delegate only whether the latest sample was dropped. `DropReportedIff`: this
  agrees with the window if and only if that sample was dropped or the open window had no drop before it;
  `DropCanBeLost` gives an input.
- `DefaultLimiter` may feed the same samples to two updates, because the window a listener got in the first
  lock region can be stale in the second (`StaleUpdateReusesSamples`). `ReusesSamplesIff`: an update shares
  samples with an earlier one if and only if that one was made from the very window the listener's own
  sample went into. An update also discards samples: of the window it closes it uses those up to the
  listener's own, and none if it is stale (`UpdateClosesTheWindow`); a sample that then neither an update
  nor a listener has feeds no update of the rest of the run (`LostSamplesFeedNoUpdate`, `SampleCanBeLost`).
  Spacing and size of updates hold regardless.
- A round trip of 0, which the windows take for "no minimum", erases the candidate of a sample window
  (`ZeroErasesTheCandidate`). `CandidateIsMinimumIff`: the candidate is the smallest round trip if and only
  if none is 0 or some are negative.
- `GradientLimit` is documented to reduce the limit when there was a drop, but keeps it at or above the
  queue size and between its limits: started at 1 with the default queue function, a first dropped sample
  raises it to 4 or more (`DropCanRaise`). A dropped sample that is due for a probe sets it to minLimit or
  the queue size, up or down (`ProbedDropCanRaise`). `DropDoesNotRaiseIff` and `DropLowersIff` say exactly when one drop that does
  not probe does what. `DropsNeverRaiseIff`: no drop of any run raises the estimate if and only if the
  limiter starts at or above its baseline and, without probing, at or above one of its limits; with
  probing it must start at or above minLimit, and either every sample probes or minLimit does not exceed
  both maxLimit and the baseline. `PlainDropsNeverRaiseIff` is the condition for the drops that do not
  probe.
- `VegasLimit` is documented to treat any drop as needing to reduce the limit. `Vegas.DropLowersIff`: with
  the default functions a dropped sample lowers the estimate if and only if it does not probe, does not set
  a new baseline, smoothing is not 0 and the estimate is above 1.
- `QueueBlockingLimiter` can strand a caller: a hand-off made between its push and its select uses up the
  one offer its element gets (`WaiterCanBeStranded` gives the run, with the limit free). Outside an offer in
  progress the element has left the backlog if and only if it has been offered (`LeftTheBacklogIff`), and
  from then on nothing is sent to that wait (`OfferedWaiterIsStranded`). Only the timeout or a cancellation
  ends it, and a negative `MaxBacklogTimeout`, which `ApplyDefaults` leaves alone, means no timeout
  (`limiter/queue_blocking.go:237-239`, `limiter/queue_blocking.go:316-324`).
- `NewGradientLimitWithRegistry` replaces every bad argument but a probe interval below -1, which makes
  it panic (`Gradient.Normalised`).
- `NewGradient2Limit` accepts a long window of 0, whose weight for a new sample is 2.
  `LongRTTInRangeIff`: the long-term round trip stays in the range of the samples in every run if and only
  if the long window is not 0. The bounds on the estimate hold for it all the same.

## Model

| member | source | states |
|---|---|---|
| BlockingProtocol.StepKeepsInv | limiter/blocking.go:52-116 | every step of every goroutine, on either strategy, with or without a deadline, keeps mutex ownership, counters, wake-up and channel invariants |
| BlockingProtocol.RunKeepsInv | limiter/blocking.go:52-116 | the invariant holds in every state of every run |
| BlockingProtocol.NoLostWakeUp | limiter/blocking.go:52-116 | a waiter on the current channel sees a full delegate or a completion that has yet to broadcast; a waiter on a replaced channel sees it closed or about to be closed by exactly one goroutine |
| BlockingProtocol.ChannelsCloseOnce | limiter/blocking.go:60-66 | the current channel is never closed, no channel is closed twice, channels only move forward |
| BlockingProtocol.SleepersMeanFull | limiter/deadline.go:43-107 | when nobody can move and someone sleeps, the callers' listeners use up the whole limit, which is at least 1 |
| BlockingProtocol.LayeredCountersAgree | limiter/default.go:36-72 | the limiter's count never exceeds the strategy's, both count real tokens, they agree exactly when no call is between its two counter updates, and the strategy's limit is max(1, estimate) whenever the mutex is free |
| BlockingProtocol.AcquireRespectsLimit | limiter/default.go:225-247 | under the limiter's lock no acquire pushes either strategy above the limit enforced at that moment, whatever releases run beside it, nor records a larger in-flight count |
| BlockingProtocol.CallEndsOnlyByAbandoning | limiter/blocking.go:69-116 | in every run a call without a listener ends only by cancellation or deadline; waking, a timer and a failed attempt lead back into the loop |
| BlockingProtocol.LifeOfACall | limiter/blocking.go:118-135 | a call begins only with Acquire, a listener is kept until its owner completes it, and a completion ends once its channel is closed |
| BlockingProtocol.CapturedChannelIsOpen | limiter/blocking.go:52-56 | every attempt captures the current channel, open at that moment, so only a later broadcast wakes it |
| BlockingProtocol.ListenersCountHolders | limiter/default.go:236-246 | the in-flight count recorded in a listener is the number of listeners in callers' hands, this one included |
| BlockingProtocol.NobodyIsStuck | limiter/deadline.go:60-107 | in every state a goroutine has a step of its own unless another one holds the mutex it needs or it sleeps on an open channel without a timer; whoever polls or sleeps can give up |
| BlockingProtocol.LimitFollowsEstimate | limiter/default.go:98-104 | whenever the mutex is free the limit enforced is max(1, latest estimate) |
| BlockingProtocol.FixedLimitIsNeverExceeded | strategy/precise.go:44-60 | with an estimate that never moves, at most max(1, estimate) callers hold a listener in any state of any run |
| BlockingLiveness.TokenLeadsToSwap | limiter/delegate_listener.go:26-49 | in every fair infinite run, a token in use or being returned is followed by a broadcast |
| BlockingLiveness.ReplacedLeadsToClosed | limiter/blocking.go:60-66 | in every fair infinite run, a replaced channel is eventually closed |
| BlockingLiveness.EveryWaiterIsWoken | limiter/blocking.go:69-116 | in every fair infinite run, the channel a failed attempt captured is eventually closed and the waiter leaves its select |
| BlockingLiveness.EveryWaiterTriesAgain | limiter/blocking.go:69-116 | in every fair infinite run, a caller whose attempt failed later gives up, holds a listener, or attempts again on a channel newer than the one it slept on |
| Backlog.Removed | limiter/queue_blocking.go:53-59 | removal leaves exactly the other elements |
| Backlog.PushedIsOrdered | limiter/queue_blocking.go:90-109 | pushing a later arrival at the front keeps strict arrival order |
| Backlog.RemovedKeepsOrder | limiter/queue_blocking.go:53-59 | evicting from any position keeps strict arrival order |
| Backlog.RemovedIfAbsent | limiter/queue_blocking.go:53-59 | evicting an element that has already left changes nothing |
| Backlog.RemovedIfPresent | limiter/queue_blocking.go:53-59 | evicting a queued element shortens the backlog by exactly one |
| Backlog.PeekedIsExtreme | limiter/queue_blocking.go:124-142 | peek finds the oldest element in FIFO and the newest in LIFO order, and nothing exactly when the backlog is empty or the ordering is unrecognised |
| Backlog.Queue.PushWithCapacity | limiter/queue_blocking.go:90-109 | refuses exactly when full and then changes nothing; otherwise the new element is in front, newest, and the capacity is kept |
| Backlog.Queue.Peek | limiter/queue_blocking.go:124-142 | answers the element the ordering selects and changes nothing |
| Backlog.Queue.Evict | limiter/queue_blocking.go:53-59 | removes exactly the given element and keeps the order |
| Backlog.Queue.Pop | limiter/queue_blocking.go:111-118 | removes the element peek selects, once, or nothing |
| QueueProtocol.StepKeepsInv | limiter/queue_blocking.go:292-343 | every step keeps the token, backlog, ownership, offer, channel and ordering invariants |
| QueueProtocol.RunKeepsInv | limiter/queue_blocking.go:150-177 | the invariant holds in every state of every run, with timeouts and cancellations between any two steps of a hand-off |
| QueueProtocol.HandOffConservesTokens | limiter/queue_blocking.go:150-177 | the delegate's count is the listeners held plus the one in transit, and every listener acquired in a hand-off is delivered or returned but for that one |
| QueueProtocol.DeliveryReachesThePusher | limiter/queue_blocking.go:42-51 | a sent listener reaches the goroutine that pushed the element and moves nobody else |
| QueueProtocol.OfferedAtMostOnce | limiter/queue_blocking.go:42-59 | an element is offered at most once in a run, and its channel is never used after it is closed |
| QueueProtocol.BacklogIsOrderedAndBounded | limiter/queue_blocking.go:90-109 | in every state the backlog is in strict arrival order, within its capacity, and holds only elements whose pusher still waits |
| QueueProtocol.PushRefusedIff | limiter/queue_blocking.go:90-109 | in every run a push is refused if and only if the backlog is exactly full; otherwise the element is the newest there |
| QueueProtocol.BacklogFillsUp | limiter/queue_blocking.go:90-109 | for every capacity some run fills the backlog to the last place |
| QueueProtocol.CallEndsOnlyWhenFullOrExpired | limiter/queue_blocking.go:292-343 | in every run a call ends without a listener only by a full backlog or its own timeout or cancellation, and queues only if the delegate was full |
| QueueProtocol.LifeOfACall | limiter/queue_blocking.go:182-199 | a call begins only with Acquire, a listener is kept until its owner completes it, and a completion ends with its pass through unblock |
| QueueProtocol.HandOffOutcome | limiter/queue_blocking.go:150-177 | an element is chosen exactly when the backlog has one to offer, a listener acquired for it exactly when the delegate has room, and sent exactly when its pusher is parked |
| QueueProtocol.NobodyIsStuck | limiter/queue_blocking.go:292-343 | in every state every goroutine has a step of its own unless another one holds the mutex it needs; whoever waits can time out |
| QueueProtocol.LimitFollowsAdjustments | limiter/default.go:98-104 | the delegate's limit is always the one set last |
| QueueProtocol.FifoNeverOvertakes | limiter/queue_blocking.go:124-142 | in FIFO mode the arrival numbers of offered elements strictly increase over a whole run, and everything queued arrived after everything offered |
| QueueProtocol.OffersFollowTheOrdering | limiter/queue_blocking.go:150-177 | each offer goes to the oldest or newest element of the backlog seen by its peek; an unrecognised ordering never offers |
| QueueProtocol.PeekRecordsTheBacklog | limiter/queue_blocking.go:150-177 | the backlog recorded with an offer is the one at the moment of its peek and stays with the chosen element |
| QueueProtocol.LeftTheBacklogIff | limiter/queue_blocking.go:53-59 | outside an offer in progress, the element of a caller in its select has left the backlog if and only if it has been offered |
| QueueProtocol.OfferedWaiterIsStranded | limiter/queue_blocking.go:42-51 | once its element has been offered and the caller still waits, no hand-off of the rest of the run is sent to that wait |
| QueueProtocol.WaiterCanBeStranded | limiter/queue_blocking.go:292-343 | for either ordering and every capacity of at least 1 a run leaves a caller waiting on an offered element while everybody else is done and the limit is free |
| QueueProtocol.FixedLimitIsNeverExceeded | limiter/queue_blocking.go:292-343 | with a limit that never moves, holders and the delegate's count stay within it in every state of every run |
| FixedPool.NewFixedPool | patterns/pool/fixed_pool.go:24-110 | accepts exactly the arguments that are valid after defaults are filled in, and builds the limiter and strategy objects in the pool's start state, with all normalised settings |
| FixedPool.ReportedLimitIsEnforcedIff | patterns/pool/fixed_pool.go:59-115 | going through both constructors and SetLimit, the strategy enforces the effective limit, which is at least 1, and it is the reported one if and only if fixedLimit is at least 1 |
| FixedPool.ArgumentsAndDefaults | patterns/pool/fixed_pool.go:37-57 | arguments in range are taken as they are, the others are replaced by the documented defaults |
| FixedPool.PoolKeepsItsOrdering | patterns/pool/fixed_pool.go:79-110 | a FIFO pool hands over in order of arrival over every run, a LIFO pool each time to the newest waiter, and no more wait than asked for |
| FixedPool.PoolNeverExceedsItsLimit | patterns/pool/fixed_pool.go:59-110 | for every accepted configuration, ordering and interleaving, the holders never exceed the effective limit |
| FixedPool.PoolReachesItsLimit | patterns/pool/fixed_pool.go:59-110 | every pool has a run that ends with exactly the effective limit of holders |
| FixedPool.BlockingReachesItsLimit | limiter/default.go:225-247 | with either strategy and either blocking limiter some run uses the limit up to the last token |
| FixedPool.PoolHonoursFixedLimitIff | patterns/pool/fixed_pool.go:37-110 | at most fixedLimit holders in all runs, if and only if fixedLimit is at least 1 |
| CountingStrategies.StepKeepsInv | strategy/simple.go:45-67 | tokens out plus calls that may still add one never exceed L + k - 1, step by step |
| CountingStrategies.SimpleOvershootIsBounded | strategy/simple.go:45-67 | with limits up to L and at most k calls at once, the count equals the tokens out and never exceeds L + k - 1 in any interleaving |
| CountingStrategies.ChecksMeetTheLatestLimit | strategy/simple.go:45-67 | every check is made against the limit set last, and gives up exactly when the loaded count is not below it |
| CountingStrategies.NobodyIsStuck | strategy/simple.go:45-59 | a call can always go on, a token can always be released |
| CountingStrategies.SimpleOvershootIsReached | strategy/simple.go:45-59 | for every L and k some interleaving has L + k - 1 tokens out |
| CountingStrategies.PreciseStrategy.constructor | strategy/precise.go:27-40 | starts with no tokens and a limit of at least 1 |
| CountingStrategies.PreciseStrategy.TryAcquire | strategy/precise.go:44-54 | makes the step of the protocols' strategy; grants a token exactly when fewer are out than the limit, and then stays within it |
| CountingStrategies.PreciseStrategy.Release | strategy/precise.go:56-60 | makes the protocols' release step: one token fewer, the same limit |
| CountingStrategies.PreciseStrategy.SetLimit | strategy/precise.go:63-70 | makes the protocols' limit step: at least 1, tokens unchanged |
| PartitionAllocator.PartitionLimitIsLeast | strategy/predicate_partition.go:65-70 | a partition's limit is the smallest integer that is at least 1 and at least its share |
| PartitionAllocator.StepKeepsAccounts | strategy/lookup_partition.go:197-237 | acquire, release, limit change and new partitions all keep every count equal to the tokens it stands for |
| PartitionAllocator.AccountsSurviveReconfiguration | strategy/lookup_partition.go:172-237 | over any run, with partitions added, removed and listed again, each count is its outstanding tokens, the total is their sum over every partition ever known, and nothing is negative |
| PartitionAllocator.StepKeepsOvershoot | strategy/predicate_partition.go:198-238 | the sum over partitions of max(count, cap) stays within top + sum(caps) - least, step by step |
| PartitionAllocator.OvershootIsBounded | strategy/predicate_partition.go:198-238 | with limits below given caps, the total count never exceeds top + sum(caps) - least in any run |
| PartitionAllocator.RoundingCost | strategy/predicate_partition.go:65-70 | rounding up costs at most one slot for each partition |
| PartitionAllocator.LimitsSum | strategy/predicate_partition.go:131-158 | percentages that sum to at most 1 give limits that sum to at most L + n |
| PartitionAllocator.LimitFollowsSetLimit | strategy/predicate_partition.go:225-238 | the total limit is always the one set last, at least 1 |
| PartitionAllocator.ListedPartitionHasItsShare | strategy/predicate_partition.go:225-238 | in every run, whatever else is added or removed, a partition that stays listed has the least limit that is at least 1 and covers its share of the limit set last |
| PartitionAllocator.ListedPartitionIsAdmitted | strategy/lookup_partition.go:197-237 | its callers are refused if and only if the total is used up and it holds at least one token and its share |
| PartitionAllocator.PercentageOvershoot | strategy/predicate_partition.go:131-238 | for accepted non-negative percentages and limits up to L, every state of every run has busy <= sum(l_i) + max(0, L - min(l_i)), hence busy <= 2L + n - 1, or n where L is below 1 |
| PartitionAllocator.OvershootIsReached | strategy/predicate_partition.go:198-213 | whatever the limits, some run of acquires reaches that amount for any chosen partition in the place of the smallest |
| PartitionAllocator.PercentageOvershootIsReached | strategy/predicate_partition.go:198-213 | for every accepted configuration, a limit below 1 included, some run reaches the bound exactly |
| PartitionAllocator.NeverOvershootsIff | strategy/predicate_partition.go:131-238 | the total stays within the limit in all runs if and only if there is a single partition and the limit is at least 1 |
| PartitionAllocator.ZeroPercentIsRefusedIff | strategy/predicate_partition.go:113-118 | in every run, with the limit used up, a partition of 0 percent is refused if and only if it holds a token |
| PartitionStrategies.Partition.UpdateLimit | strategy/predicate_partition.go:65-70 | sets the limit to the least integer covering one slot and the share |
| PartitionStrategies.SumIgnoresOrder | strategy/lookup_partition.go:142-150 | the order in which a map of partitions is visited does not decide whether they are accepted |
| PartitionStrategies.BuiltIsFresh | strategy/predicate_partition.go:131-158 | what a constructor does to distinct accepted partitions is the start state of the whole-run results |
| PartitionStrategies.ScaleAll | strategy/predicate_partition.go:140-144 | adds up the percentages and sets every partition's limit |
| PartitionStrategies.Counters.TryFor | strategy/predicate_partition.go:201-209 | admits exactly when the total or the partition is below its limit, and is one acquire of the allocator |
| PartitionStrategies.Counters.Release | strategy/predicate_partition.go:215-222 | is one release of the allocator and keeps all accounts |
| PartitionStrategies.Counters.SetLimit | strategy/lookup_partition.go:224-237 | sets the limit to at least 1 and, exactly when that is a change, gives every listed partition its share of it; no other partition changes |
| PartitionStrategies.Counters.Know | strategy/lookup_partition.go:172-181 | a partition listed again keeps its count and limit, a new one without tokens out elsewhere joins with none |
| PartitionStrategies.PredicatePartitionStrategy.New | strategy/predicate_partition.go:131-158 | fails exactly for no partitions or percentages over 1, sets the limits in any case, and on success gives the allocator's start state for partitions that have no tokens out elsewhere |
| PartitionStrategies.PredicatePartitionStrategy.TryAcquire | strategy/predicate_partition.go:198-213 | acts on the first partition whose predicate accepts the context and on nothing when there is none |
| PartitionStrategies.PredicatePartitionStrategy.SetLimit | strategy/predicate_partition.go:225-238 | is the allocator's limit change; after a change every listed partition has its share of the new limit |
| PartitionStrategies.PredicatePartitionStrategy.AddPartition | strategy/predicate_partition.go:162-177 | adds exactly when the same object is not listed; the counts of a partition that comes back survive, and one without tokens out elsewhere joins the accounts |
| PartitionStrategies.MatchingSplits | strategy/predicate_partition.go:181-195 | splitting by a predicate loses and invents no entry |
| PartitionStrategies.PredicatePartitionStrategy.RemovePartitionsMatching | strategy/predicate_partition.go:181-195 | splits the list by the predicate, in order, and answers whether any matched; no count changes |
| PartitionStrategies.BuiltIsFreshLookup | strategy/lookup_partition.go:132-168 | the constructor's result is the start state of the Lookup results, with the unknown partition's own limit |
| PartitionStrategies.LookupPartitionStrategy.New | strategy/lookup_partition.go:132-168 | fails exactly for no partitions or percentages over 1, whatever the visiting order, and on success gives the Lookup start state for partitions that have no tokens out elsewhere |
| PartitionStrategies.LookupPartitionStrategy.TryAcquire | strategy/lookup_partition.go:197-212 | acts on the partition registered under the looked-up name, or on the unknown one |
| PartitionStrategies.LookupPartitionStrategy.SetLimit | strategy/lookup_partition.go:224-237 | is the allocator's limit change; after a change every named partition has its share of the new limit, and the unknown one is left as it was |
| PartitionStrategies.LookupPartitionStrategy.AddPartition | strategy/lookup_partition.go:172-181 | adds exactly when the name is free; the counts of a partition that comes back survive, and one without tokens out elsewhere joins the accounts |
| PartitionStrategies.LookupPartitionStrategy.RemovePartition | strategy/lookup_partition.go:185-194 | removes the name and answers the tokens the partition still has out |
| PartitionStrategies.LookupOvershoot | strategy/lookup_partition.go:132-237 | the overshoot bound with the unknown partition's own, never rescaled limit counted |
| PartitionStrategies.LookupOvershootInTotal | strategy/lookup_partition.go:132-237 | with initial limit L0 and limits up to L, every run keeps busy <= 2L + max(1, L0) + n - 1, or n + 1 where L is below 1 |
| PartitionStrategies.LookupOvershootIsReached | strategy/lookup_partition.go:197-212 | for every accepted configuration, a limit below 1 included, some run reaches the Lookup bound exactly |
| PartitionStrategies.UnknownRefusedIff | strategy/lookup_partition.go:156-212 | in every run, with the limit used up, the unknown partition is refused if and only if it holds the initial limit of tokens |
| PartitionStrategies.UnknownUsesMoreThanExcess | README.md:86-90 | from every configuration a run fills the limit with identified callers alone and still admits an unidentified one |
| SampleWindow.FoldCounts | measurements/immutable_sample_window.go:54-77 | a window counts and sums exactly the round trips that were not dropped |
| SampleWindow.FoldExtremes | measurements/immutable_sample_window.go:54-77 | a window knows the largest in-flight count of all samples and whether any was dropped |
| SampleWindow.FoldCandidate | measurements/immutable_sample_window.go:32-66 | for any int64 round trips the candidate is one of them or MaxInt64, never 0, and at most every round trip unless a 0 has erased some |
| SampleWindow.CandidateIsMinimumIff | measurements/immutable_sample_window.go:32-66 | the candidate is the smallest round trip not dropped if and only if none of them is 0 or some are negative |
| SampleWindow.ZeroErasesTheCandidate | measurements/immutable_sample_window.go:32-51 | round trips 5 and then 0 leave no candidate |
| SampleWindow.WindowLength | limiter/default.go:89-97 | the length stays within its bounds even when doubling wraps, and is twice the candidate when that fits |
| SampleWindow.LengthFollowsMinimum | limiter/default.go:89-97 | after samples whose smallest round trip is m the length is 2m, kept between the bounds |
| WindowScheduler.DoubleCheckRefinesLockedCheck | limiter/default.go:74-108 | the limiter with the unlocked test and one that always takes the lock have exactly the same runs |
| WindowScheduler.NextUpdateTimeIsMonotone | limiter/default.go:74-108 | nextUpdateTime never moves back, and moves by more than minWindowTime at every update |
| WindowScheduler.NextUpdateFollowsTheWindow | limiter/default.go:89-97 | in every run an update sets nextUpdateTime to its completion time plus twice the smallest round trip of its samples, kept between minWindowTime and maxWindowTime |
| WindowScheduler.UpdateHappensIff | limiter/default.go:74-108 | in every run, with positive round trips, an update is made if and only if it is due and its samples have more than windowSize round trips |
| WindowScheduler.ListenersRemember | limiter/default.go:225-247 | a listener keeps the clock, nextUpdateTime and in-flight count of its own acquire, then the clock of its completion |
| WindowScheduler.SamplesAreMeasurements | limiter/default.go:36-72 | every completion adds exactly the time since its own acquire, with the in-flight count of that moment, or a drop; nothing else adds a sample |
| WindowScheduler.CompletionsAreFree | limiter/default.go:36-72 | a listener can be dropped or ignored at any time, and succeeds with a sample exactly when its round trip reaches the threshold |
| WindowScheduler.UpdatesAreSpacedAndFull | limiter/default.go:74-108 | in every run consecutive updates complete more than minWindowTime apart, and each gets the fold of a contiguous piece of the stream with more than windowSize round trips |
| WindowScheduler.UpdatesReportTheirSamples | limiter/default.go:98-103 | in every run limit.OnSample is told the largest in-flight count of the update's samples, whether any was dropped, and a round trip that is their smallest if and only if none is 0 or some are negative |
| WindowScheduler.ReusesSamplesIff | limiter/default.go:74-108 | an attempted update has a sample in common with an earlier update if and only if that one was made from the window the listener's own sample went into |
| WindowScheduler.UpdatesShareSamplesIff | limiter/default.go:74-108 | two updates of a run have a sample in common if and only if both were made from the same window |
| WindowScheduler.FreshUpdateUsesNewSamples | limiter/default.go:249-258 | an update on the window still open has no sample in common with any earlier update |
| WindowScheduler.StaleUpdateReusesSamples | limiter/default.go:74-108 | for every configuration with minRTTThreshold below MaxInt64 a run exists in which two consecutive updates use the same samples |
| WindowScheduler.SharingIsPossibleIff | limiter/default.go:74-108 | some run feeds a sample to two updates if and only if minRTTThreshold is below MaxInt64; otherwise nothing ever updates |
| WindowScheduler.UpdateClosesTheWindow | limiter/default.go:79-97 | an update closes the open window, and one of its samples feeds the update if and only if the update was made from it, before that sample came |
| WindowScheduler.LostSamplesFeedNoUpdate | limiter/default.go:74-108 | a sample that has left the open window and that neither an update nor a listener has feeds no update of the rest of the run |
| WindowScheduler.SampleCanBeLost | limiter/default.go:74-108 | for every configuration with minRTTThreshold below MaxInt64 a run discards the sample after the first windowSize + 1 |
| WindowScheduler.DefaultLimiter.constructor | limiter/default.go:174-218 | starts with an empty window, no listeners and the strategy's limit set to the estimate |
| WindowScheduler.DefaultLimiter.Acquire | limiter/default.go:225-247 | grants exactly when the strategy does, counts once in each layer, and the listener remembers clock, nextUpdateTime and count |
| WindowScheduler.DefaultLimiter.OnIgnore | limiter/default.go:56-59 | returns one token in each layer and touches neither window nor limit |
| WindowScheduler.DefaultLimiter.OnSuccess | limiter/default.go:36-52 | returns the token; a round trip at or above the threshold joins the window and is followed by one attempt to update, a shorter one changes nothing else |
| WindowScheduler.DefaultLimiter.OnDropped | limiter/default.go:64-72 | returns the token, adds a dropped sample and makes one attempt to update |
| WindowScheduler.DefaultLimiter.UpdateAndGetSample | limiter/default.go:249-258 | stores and answers the window with the sample added |
| WindowScheduler.DefaultLimiter.UpdateLimit | limiter/default.go:74-108 | makes the update attempt of the transition system, schedules the next one by twice the candidate within the bounds, answers what limit.OnSample was told, and sets the strategy's limit to the estimate exactly when it was called |
| WindowedLimit.WindowsPartitionTheStream | limit/windowed.go:116-138 | in every run the delegated windows and the open one concatenate to exactly the samples at or above the threshold, and delegated end times are more than min(minWindowTime, maxWindowTime) apart |
| WindowedLimit.CallsSummariseTheirWindow | limit/windowed.go:116-138 | each delegated call carries the floor average of its window's round trips not dropped and the largest in-flight count of all its samples |
| WindowedLimit.DelegatesIff | limit/windowed.go:116-149 | a sample closes the window if and only if it counts, completes after the time the last delegated window set, and has more than windowSize calls in flight |
| WindowedLimit.NextWindowFollowsTheLast | limit/windowed.go:116-138 | a delegated call is told the start of its closing sample, and the next window lasts twice the smallest round trip of this one, kept between the bounds |
| WindowedLimit.DropReportedIff | limit/windowed.go:116-138 | when a sample closes a window, the delegate hears whether the window had a drop if and only if that sample was dropped or the open window had no drop before the call |
| WindowedLimit.DropCanBeLost | limit/windowed.go:116-138 | for every configuration that can delegate, an input whose drop the delegate never hears of |
| WindowedLimit.SmallWindow | limit/windowed.go:147-149 | for every configuration that can delegate, an input whose delegated window has one sample |
| WindowedLimit.WindowSizeCountsSamplesIff | limit/windowed.go:15-18 | every delegated window of every run has at least windowSize samples if and only if the configuration never delegates |
| WindowedLimit.WindowedLimit.OnSample | limit/windowed.go:116-138 | takes the object through one step of the model and answers what the delegate was told |
| LimitFunctions.ISqrt | limit/functions/square_root.go:12-19 | the integer square root: r * r <= n < (r + 1) * (r + 1) |
| LimitFunctions.ILog10Meaning | limit/functions/log10_root.go:12-19 | the integer logarithm: 10^r <= n < 10^(r + 1) |
| LimitFunctions.InitSqrtFunc | limit/functions/init.go:14-32 | builds a table of at least 1000 entries max(1, isqrt(i)) |
| LimitFunctions.InitLog10RootFunc | limit/functions/init.go:34-52 | builds a table of at least 1000 entries max(1, ilog10(i)) |
| LimitFunctions.SqrtRootIsUniform | limit/functions/square_root.go:12-19 | table and direct formula agree on max(baseline, 1, isqrt(n)) for every n |
| LimitFunctions.Log10RootIsUniform | limit/functions/log10_root.go:12-19 | table and direct formula agree on baseline + max(1, ilog10(n)) for every n |
| LimitFunctions.Log10RootFloatIsPositive | limit/functions/log10_root.go:24-31 | the step of the default increase and decrease functions is positive, with every lookup in range |
| Minimum.AddedIsMinimum | measurements/minimum.go:15-23 | the value is the smallest positive sample so far, and 0 exactly when there is none |
| Minimum.MinimumMeasurement.Add | measurements/minimum.go:15-23 | stores the minimum; the second answer says whether it is unchanged |
| Minimum.MinimumMeasurement.Reset | measurements/minimum.go:33-37 | forgets the value |
| Vegas.Normalised | limit/vegas.go:112-158 | the replacements always give a valid configuration and leave a valid one alone |
| Vegas.ArgumentsAndDefaults | limit/vegas.go:112-158 | arguments in range are taken as they are, the others are replaced by 20, 1000, 1.0 and 30 |
| Vegas.Run | limit/vegas.go:220-290 | after any samples the estimate, baseline, jitter and probe count satisfy the invariant |
| Vegas.EstimateStaysInBounds | limit/vegas.go:220-290 | for any samples, functions, smoothing and jitter the estimate is in [1, max(initial, maxLimit, 1)], and a queue size is computed in [0, ceil(estimate)] |
| Vegas.QueueSizeInRange | limit/vegas.go:250-290 | with a baseline not above the round trip the queue size is in [0, ceil(estimate)] |
| Vegas.QueueSizeIsLeast | limit/vegas.go:250-252 | the queue size is the least k with k * rtt >= estimate * (rtt - baseline) |
| Vegas.BaselineIsMinimumSinceProbe | limit/vegas.go:220-244 | in every run the baseline is the smallest round trip since the last probe, the probe's included |
| Vegas.ProbesAreFrequent | limit/vegas.go:246-248 | any probeMultiplier * max(initial, maxLimit, 1) consecutive samples contain a probe, whatever the jitter |
| Vegas.ProbeRule | limit/vegas.go:220-248 | a sample of a run is a probe if and only if, counting it, as many have come since the last probe as the jitter drawn then asks for |
| Vegas.ProbeTiming | limit/vegas.go:246-248 | a probe comes for sure from probeMultiplier * estimate samples on, and never before about half as many |
| Vegas.ProbesAreSpaced | limit/vegas.go:246-248 | two probes of a run are at least about half of probeMultiplier * estimate samples apart |
| Vegas.SampleOutcome | limit/vegas.go:220-244 | a probe becomes the baseline, a shorter round trip becomes the baseline, both keep the estimate; only other samples move it |
| Vegas.DefaultsByRoundTrip | limit/vegas.go:250-290 | the whole rule with the default functions in terms of round trips: where the estimate goes for each amount of queueing, smoothed and clamped |
| Vegas.NoQueueingGrows | limit/vegas.go:250-290 | a sample at the baseline and near the limit means no queueing and the largest step up |
| Vegas.DefaultsMoveTheRightWay | limit/vegas.go:112-290 | with the default functions a drop or a queue over beta never raises the estimate, a queue under alpha never lowers one within maxLimit, and in between it stands still |
| Vegas.DropLowersIff | limit/vegas.go:220-290 | with the default functions a dropped sample lowers the estimate if and only if it neither probes nor sets a new baseline, smoothing is positive and the estimate is above 1 |
| Vegas.VegasLimit.constructor | limit/vegas.go:112-158 | starts at the normalised initial limit with no baseline, inside the invariant |
| Vegas.VegasLimit.OnSample | limit/vegas.go:220-244 | takes the object through one step, keeps the invariant and answers a limit in [1, max(initial, maxLimit, 1)] |
| Vegas.VegasLimit.UpdateEstimatedLimit | limit/vegas.go:250-290 | moves the estimate to the clamped, smoothed target and changes nothing else |
| ExponentialAverage.Factor | measurements/exponential_average.go:68-70 | the weight of a sample is in (0, 1] if and only if the window is at least 1 |
| ExponentialAverage.AddedStaysWithin | measurements/exponential_average.go:31-43 | the average stays between bounds that cover all samples, in warm-up and after |
| ExponentialAverage.WarmUpIsMean | measurements/exponential_average.go:31-38 | during warm-up the value is the exact arithmetic mean |
| ExponentialAverage.SampleClosesTheGap | measurements/exponential_average.go:39-43 | afterwards a sample leaves window - 1 of window + 1 parts of its distance to the value |
| ExponentialAverage.ExponentialAverageMeasurement.Add | measurements/exponential_average.go:31-43 | the plain mean in warm-up and a blend afterwards |
| ExponentialAverage.ExponentialAverageMeasurement.Update | measurements/exponential_average.go:62-66 | applies the operation to the value and leaves sum and count |
| Gradient2.Normalised | limit/gradient2.go:101-162 | fails exactly when minLimit exceeds maxLimit after defaults, else gives a valid configuration and leaves a valid one alone |
| Gradient2.ArgumentsAndDefaults | limit/gradient2.go:101-162 | arguments in range are taken as they are, the others are replaced by 4, 1000, 4, 0.2 and 100 |
| Gradient2.SampleOutcome | limit/gradient2.go:186-231 | the whole rule in terms of round trips: the long one takes the sample in and loses a tenth when over twice as long; far from the limit the estimate stands still, else it goes for the queue size plus what the ratio leaves of it |
| Gradient2.LongRTTStaysInSampleRange | limit/gradient2.go:194-219 | with a long window of at least 1, in every run the long round trip is between the smallest and largest sample ever seen, despite decay and warm-up |
| Gradient2.ZeroWindowLeavesTheRange | measurements/exponential_average.go:31-43 | with a long window of 0 a run of positive round trips makes the long round trip negative |
| Gradient2.LongRTTInRangeIff | limit/gradient2.go:101-219 | the long round trip stays in the range of the samples in all runs if and only if the long window is at least 1 |
| Gradient2.Gradient | limit/gradient2.go:215-219 | the gradient is in [0.5, 1] |
| Gradient2.EstimateNeverCollapses | limit/gradient2.go:210-231 | with constant queue size q every run keeps the estimate at or above min(initial, 2q, maxLimit) |
| Gradient2.EstimateStaysInEnvelope | limit/gradient2.go:210-231 | started inside its limits the estimate stays inside them, and after n samples is between initial * (1 - s/2)^n and initial + n * s * q |
| Gradient2.GrownIsLinear | limit/gradient2.go:210-231 | the upper envelope is initial + n * s * q |
| Gradient2.Gradient2Limit.OnSample | limit/gradient2.go:186-231 | takes the object through one step and answers a limit of at least 1 |
| Gradient2.Gradient2Limit.Correct | limit/gradient2.go:210-231 | smooths and clamps the estimate and changes nothing else |
| Gradient.Normalised | limit/gradient.go:62-111 | the replacements give a valid configuration if and only if the probe interval is at least -1, and leave a valid one alone |
| Gradient.ArgumentsAndDefaults | limit/gradient.go:62-82 | arguments in range are taken as they are, the others are replaced by 50, 1, 1000, 0.2, 2.0 and 1000 |
| Gradient.SampleOutcome | limit/gradient.go:142-203 | the whole rule in terms of round trips: what a probe, a drop, a sample far from the limit and any other do to baseline and estimate |
| Gradient.ToleratedBaseline | limit/gradient.go:168-176 | rttTolerance times the baseline is tolerated; truncating it loses nothing |
| Gradient.ToleranceDecides | limit/gradient.go:168-201 | near the limit a tolerated round trip lets the estimate grow by the queue size, one at least twice as long takes half of it away |
| Gradient.BaselineIsMinimumSinceProbe | limit/gradient.go:152-170 | in every run the baseline is the smallest round trip since the last probe, the probe's own left out |
| Gradient.GradientOf | limit/gradient.go:168-176 | the gradient is in [0.5, 1] |
| Gradient.Run | limit/gradient.go:142-203 | for any queue function the estimate never falls below min(initial, minLimit, maxLimit), which is at least 1 |
| Gradient.EstimateStaysInBounds | limit/gradient.go:142-203 | with the square-root queue of baseline b every run stays in [min(initial, minLimit, maxLimit), max(initial, minLimit, maxLimit, b)] |
| Gradient.DropDoesNotRaiseIff | limit/gradient.go:178-201 | a dropped sample does not raise the estimate if and only if it is at least the queue size and at least one of the limits |
| Gradient.DropLowersIff | limit/gradient.go:178-201 | a dropped sample lowers the estimate if and only if it is above the queue size, and above minLimit with some smoothing or above maxLimit |
| Gradient.DropsNeverRaiseIff | limit/gradient.go:142-203 | with the square-root queue of baseline b, no dropped sample of any run raises the estimate, probe or not, if and only if initial >= b and, without probing, initial is at least one of the limits, or, with probing, initial >= minLimit and every sample probes or minLimit is at most maxLimit or b |
| Gradient.PlainDropsNeverRaiseIff | limit/gradient.go:168-203 | among samples that do not probe, none that was dropped raises the estimate in any run, if and only if initial is at least b and at least one of the limits, or every sample probes |
| Gradient.DropCanRaise | limit/gradient.go:80-82 | with the default queue function and an initial limit of 1, a first dropped sample raises the estimate to at least 4 |
| Gradient.ProbedDropCanRaise | limit/gradient.go:152-165 | with a probe at every sample, an initial limit of 1 and a minLimit of 20, a first dropped sample raises the estimate to at least 20 |
| Gradient.CountdownsAddUp | limit/gradient.go:41-46 | P probes have used up P countdowns of length in [i, 2i - 1] and part of the current one |
| Gradient.ProbeRate | limit/gradient.go:142-203 | P probes among N samples satisfy P * i <= N < (P + 1) * (2i - 1), and there are none when disabled |
| Gradient.GradientLimit.OnSample | limit/gradient.go:142-203 | takes the object through one step, keeps the lower bound and answers at least 1 |
| Gradient.GradientLimit.UpdateEstimate | limit/gradient.go:178-201 | halves, keeps or scales the estimate, smooths a fall and clamps |
| MovingAverage.NewAverage | measurements/moving_average.go:24-36 | minSamples is the smallest integer at or above 1 / alpha |
| MovingAverage.WarmUpIsArithmeticMean | measurements/moving_average.go:46-63 | for the first minSamples - 1 samples the average is the exact arithmetic mean |
| MovingAverage.AverageStaysInRange | measurements/moving_average.go:46-63 | after any samples the average is in any interval that contains them |
| MovingAverage.SampleClosesTheGap | measurements/moving_average.go:46-63 | from sample number minSamples on a sample leaves the fraction 1 - alpha of its distance to the average |
| MovingAverage.VarianceStaysInRange | measurements/moving_variance.go:40-64 | the variance is between 0 and the squared range of the samples |
| MovingAverage.SecondSample | measurements/moving_variance.go:40-64 | after two samples the variance is the square of their difference, whatever the factors |
| MovingAverage.VarianceClosesTheGap | measurements/moving_variance.go:40-64 | after warm-up a sample's squared deviation from the average before it leaves the fraction 1 - alpha of its distance to the variance |
| MovingAverage.NormalizedRule | measurements/moving_variance.go:49-63 | the normalized value is the distance to the new average in units of the standard deviation, and stays as it was when there is none |
| MovingAverage.DeviationStaysInRange | measurements/moving_variance.go:49-63 | the standard deviation is the root of the variance and at most the range of the samples |
| MovingAverage.NormalizedIsBounded | measurements/moving_variance.go:40-64 | in every run the square of the normalized value is at most 1 / alphaVariance, whatever the samples |
| MovingAverage.SimpleExponentialMovingAverage.Add | measurements/moving_average.go:46-63 | takes the object through one step and answers whether the value changed |
| MovingAverage.SimpleMovingVariance.Add | measurements/moving_variance.go:40-64 | updates both averages with the deviation from the old mean, answers the standard deviation, and whether it or the normalized value changed |

## Left out

- `grpc/`, `http/`, `examples/`, metric registries, metric listeners and loggers: plumbing around `Acquire` and the listener calls.
- `limit/settable.go`, `limit/traced.go`, `limit/aimd.go`, `measurements/single.go`, `strategy/matchers/`, and the FIFO, LIFO and default constructors that only forward: easy members. `limit/fixed.go` appears only as the estimate of the fixed pool.
- `WindowlessMovingPercentile`: a heuristic without a crisp property.
- Limit change listeners (`NotifyOnChange`): the model does not record notifications.
- Liveness of `QueueBlockingLimiter`: it does not hold, as described above; safety is proved, and which waits are stranded.
- Rounding, NaN and infinities of `float64`, the precision of `math.Log10`, and int32 wrap-around of counters.
- In-place update and aliasing for `BlockingLimiter`, `DeadlineLimiter`, the delegate listener, `QueueBlockingLimiter` and `SimpleStrategy`, which are transition systems on values.
- The start time stored in a sample window, which nothing modelled reads.
- A custom no-load measurement handed to the Vegas constructor: the model has the minimum the default uses and every probe installs.
- Overshoot after `AddPartition`: the code checks no percentages there; accounting is proved for such runs, the bound only for fixed partitions.
- ExponentialAverage.Factor: excludes window -1, which divides by zero; no caller in the repository can pass it.
- MovingAverage.NewAverage: excludes alpha 0, whose warm-up length is an infinite float converted to an int, and the error for an alpha outside [0, 1].
- MovingAverage.DeviationStaysInRange: takes math.Sqrt as a parameter that is an exact square root.
- PartitionStrategies.PredicatePartitionStrategy.New: for partitions with tokens out elsewhere it states the error cases and the limits but no accounts, because another strategy then changes their counts.
- PartitionStrategies.LookupPartitionStrategy.New: the same holds for partitions with tokens out elsewhere.
- PartitionStrategies.PredicatePartitionStrategy.AddPartition: gives no accounts for a new partition with tokens out elsewhere, for the same reason.
- PartitionStrategies.LookupPartitionStrategy.AddPartition: likewise.
- The pluggable core.Limit behind `DefaultLimiter`: its estimate is an input wherever the code asks for it.

/** The counter and limit of the single-counter strategies, and the steps on them.  SimpleStrategy
    (strategy/simple.go) takes the test and the increment of TryAcquire as two steps, PreciseStrategy
    (strategy/precise.go) as one.  Every model that contains one of them is built from these steps. */
module TokenCounter {
  import opened Basics

  datatype Counter = Counter(inFlight: int, limit: int)

  /** The test of TryAcquire, on a count and a limit that need not have been read together. */
  predicate Full(seen: int, limit: int) { seen >= limit }

  function Counted(k: Counter): Counter { k.(inFlight := k.inFlight + 1) }

  function Released(k: Counter): Counter { k.(inFlight := k.inFlight - 1) }

  function Relimited(k: Counter, limit: int): Counter { k.(limit := AtLeastOne(limit)) }

  /** PreciseStrategy.TryAcquire grants a token. */
  predicate Grants(k: Counter) { !Full(k.inFlight, k.limit) }

  /** PreciseStrategy.TryAcquire: the test and the increment in one region of its mutex. */
  function Tried(k: Counter): Counter { if Grants(k) then Counted(k) else k }
}

/** The allocator shared by PredicatePartitionStrategy and LookupPartitionStrategy
    (strategy/predicate_partition.go, strategy/lookup_partition.go): a total count and limit, and
    a count and limit for each partition.  A caller may borrow beyond its partition's limit while
    the total is below its limit, and may use its partition's limit when the total is not.
    Percentages and limits are reals and unbounded integers. */
module PartitionAllocator {
  import opened Basics
  import opened Reals

  datatype Cell = Cell(percent: real, limit: int, busy: int)

  /** `P` identifies partitions; `tokens` are those handed out and not yet released. */
  datatype Alloc<!P> = Alloc(cells: map<P, Cell>, busy: int, limit: int, tokens: multiset<P>)

  /** UpdateLimit's formula. */
  function PartitionLimit(total: int, percent: real): int {
    Max(1, Ceil(total as real * percent))
  }

  /** The limit is the smallest integer that is at least 1 and at least the partition's share. */
  lemma PartitionLimitIsLeast(total: int, percent: real, k: int)
    ensures k >= PartitionLimit(total, percent) <==> k >= 1 && k as real >= total as real * percent
  {}

  datatype Op<!P> =
    | Try(p: P)                          // TryAcquire for a context that selects `p`
    | Release(p: P)                      // the token's release function
    | SetLimit(total: int, live: set<P>) // `live` are the partitions the strategy lists
    | Register(p: P, percent: real, own: int) // AddPartition brings a new partition object

  /** TryAcquire rejects when the total and the partition are both at their limits. */
  predicate Admits<P>(a: Alloc<P>, p: P)
    requires p in a.cells
  {
    a.busy < a.limit || a.cells[p].busy < a.cells[p].limit
  }

  predicate Enabled<P>(a: Alloc<P>, op: Op<P>) {
    match op
    case Try(p) => p in a.cells
    case Release(p) => p in a.cells && p in a.tokens
    case SetLimit(_, live) => live <= a.cells.Keys
    case Register(p, _, _) => p !in a.cells
  }

  function Apply<P>(a: Alloc<P>, op: Op<P>): Alloc<P>
    requires Enabled(a, op)
  {
    match op
    case Try(p) =>
      if !Admits(a, p) then a
      else a.(busy := a.busy + 1, tokens := a.tokens + multiset{p},
              cells := a.cells[p := a.cells[p].(busy := a.cells[p].busy + 1)])
    case Release(p) => Returned(a, p)
    case SetLimit(total, live) =>
      if a.limit == AtLeastOne(total) then a
      else a.(limit := AtLeastOne(total), cells := Rescaled(a.cells, AtLeastOne(total), live))
    case Register(p, percent, own) => a.(cells := a.cells[p := Cell(percent, own, 0)])
  }

  function Returned<P>(a: Alloc<P>, p: P): Alloc<P>
    requires p in a.cells
  {
    a.(busy := a.busy - 1, tokens := a.tokens - multiset{p},
       cells := a.cells[p := a.cells[p].(busy := a.cells[p].busy - 1)])
  }

  function Rescaled<P>(cells: map<P, Cell>, total: int, live: set<P>): map<P, Cell> {
    map p | p in cells ::
      if p in live then cells[p].(limit := PartitionLimit(total, cells[p].percent)) else cells[p]
  }

  ghost predicate IsRun<P>(ss: seq<Alloc<P>>, ops: seq<Op<P>>) {
    && |ss| == |ops| + 1
    && forall i :: 0 <= i < |ops| ==> Enabled(ss[i], ops[i]) && ss[i + 1] == Apply(ss[i], ops[i])
  }

  // ---------------------------------------------------------------- sums

  predicate Distinct<P(==)>(ps: seq<P>) {
    forall i, j :: 0 <= i < j < |ps| ==> ps[i] != ps[j]
  }

  /** `ps` lists the keys of `m`. */
  predicate SameElements<P(==), V>(ps: seq<P>, m: map<P, V>) {
    (forall p :: p in ps ==> p in m) && (forall p :: p in m ==> p in ps)
  }

  function Total<P>(ps: seq<P>, m: map<P, int>): int
    requires forall p :: p in ps ==> p in m
  {
    if ps == [] then 0 else Total(ps[..|ps| - 1], m) + m[ps[|ps| - 1]]
  }

  lemma {:induction false} SumSame<P>(ps: seq<P>, m: map<P, int>, m': map<P, int>)
    requires forall p :: p in ps ==> p in m && p in m' && m[p] == m'[p]
    ensures Total(ps, m) == Total(ps, m')
  {
    if ps != [] {
      SumSame(ps[..|ps| - 1], m, m');
    }
  }

  lemma {:induction false} SumUpdate<P>(ps: seq<P>, m: map<P, int>, p: P, v: int)
    requires Distinct(ps) && p in ps && forall q :: q in ps ==> q in m
    ensures Total(ps, m[p := v]) == Total(ps, m) - m[p] + v
  {
    var init, last := ps[..|ps| - 1], ps[|ps| - 1];
    assert ps == init + [last];
    if last == p {
      assert p !in init;
      SumSame(init, m, m[p := v]);
    } else {
      SumUpdate(init, m, p, v);
    }
  }

  function Busies<P>(a: Alloc<P>): map<P, int> { map p | p in a.cells :: a.cells[p].busy }

  // ---------------------------------------------------------------- accounting

  /** Every count is the number of outstanding tokens it stands for. */
  ghost predicate Accounted<P>(a: Alloc<P>) {
    && a.busy == |a.tokens|
    && (forall p :: p in a.tokens ==> p in a.cells)
    && (forall p :: p in a.cells ==> a.cells[p].busy == a.tokens[p])
  }

  lemma StepKeepsAccounts<P>(a: Alloc<P>, op: Op<P>)
    requires Accounted(a) && Enabled(a, op)
    ensures Accounted(Apply(a, op))
  {
    if op.Release? {
      ReturnKeepsAccounts(a, op.p);
    }
  }

  lemma ReturnKeepsAccounts<P>(a: Alloc<P>, p: P)
    requires Accounted(a) && p in a.tokens
    ensures p in a.cells && Accounted(Returned(a, p))
  {}

  lemma {:induction false} SumOfTokens<P>(ps: seq<P>, m: map<P, int>, tokens: multiset<P>)
    requires Distinct(ps)
    requires forall p :: p in ps ==> p in m && m[p] == tokens[p]
    requires forall p :: p in tokens ==> p in ps
    ensures Total(ps, m) == |tokens|
  {
    if ps == [] {
      assert tokens == multiset{};
    } else {
      var init, last := ps[..|ps| - 1], ps[|ps| - 1];
      assert ps == init + [last];
      var rest := tokens[last := 0];
      assert |rest| == |tokens| - tokens[last];
      SumOfTokens(init, m, rest);
    }
  }

  /** Accounting survives reconfiguration: across any run of acquires, releases, limit changes and
      newly added partitions, whether or not a partition is still listed by its strategy, each
      partition's count is its outstanding tokens, the total is their sum over all partitions ever
      known, and nothing is negative. */
  lemma {:induction false} AccountsSurviveReconfiguration<P>(ss: seq<Alloc<P>>, ops: seq<Op<P>>, i: nat, ps: seq<P>)
    requires IsRun(ss, ops) && i < |ss| && Accounted(ss[0])
    requires Distinct(ps) && SameElements(ps, ss[i].cells)
    ensures ss[i].busy == |ss[i].tokens| == Total(ps, Busies(ss[i]))
    ensures forall p :: p in ps ==> ss[i].cells[p].busy == ss[i].tokens[p] >= 0
  {
    RunKeepsAccounts(ss, ops, i);
    SumOfTokens(ps, Busies(ss[i]), ss[i].tokens);
  }

  lemma {:induction false} RunKeepsAccounts<P>(ss: seq<Alloc<P>>, ops: seq<Op<P>>, i: nat)
    requires IsRun(ss, ops) && i < |ss| && Accounted(ss[0])
    ensures Accounted(ss[i])
  {
    if i > 0 {
      RunKeepsAccounts(ss, ops, i - 1);
      StepKeepsAccounts(ss[i - 1], ops[i - 1]);
    }
  }

  // ---------------------------------------------------------------- overshoot

  /** The potential of a partition: its count, or the highest limit it can have if that is more. */
  function Potentials<P>(a: Alloc<P>, cap: map<P, int>): map<P, int>
    requires forall p :: p in a.cells ==> p in cap
  {
    map p | p in a.cells :: Max(a.cells[p].busy, cap[p])
  }

  /** `ps` are all the partitions, `cap` bounds their limits, `top` the total limit, and `least`
      is a lower bound of `top` and all of `cap`. */
  ghost predicate Capped<P>(a: Alloc<P>, ps: seq<P>, cap: map<P, int>, top: int, least: int) {
    && Distinct(ps) && SameElements(ps, a.cells) && (forall p :: p in ps ==> p in cap)
    && a.limit <= top && 0 <= least <= top
    && (forall p :: p in ps ==> a.cells[p].limit <= cap[p] && least <= cap[p])
  }

  ghost predicate Overshoot<P>(a: Alloc<P>, ps: seq<P>, cap: map<P, int>, top: int, least: int) {
    && Capped(a, ps, cap, top, least) && Accounted(a)
    && Total(ps, Potentials(a, cap)) <= top + Total(ps, cap) - least
  }

  /** Where one partition is full, the potential is at most the count plus the other caps. */
  lemma {:induction false} PotentialWithoutOne<P>(
    ps: seq<P>, busy: map<P, int>, cap: map<P, int>, pot: map<P, int>, p: P)
    requires Distinct(ps)
    requires forall q :: q in ps ==> q in busy && q in cap && q in pot
    requires forall q :: q in ps ==> busy[q] >= 0 && cap[q] >= 0 && pot[q] == Max(busy[q], cap[q])
    requires p in ps ==> busy[p] >= cap[p]
    ensures Total(ps, pot) <= Total(ps, busy) + Total(ps, cap) - (if p in ps then cap[p] else 0)
  {
    if ps != [] {
      assert ps == ps[..|ps| - 1] + [ps[|ps| - 1]];
      PotentialWithoutOne(ps[..|ps| - 1], busy, cap, pot, p);
    }
  }

  lemma {:induction false} PotentialDominates<P>(ps: seq<P>, busy: map<P, int>, pot: map<P, int>)
    requires forall q :: q in ps ==> q in busy && q in pot && busy[q] <= pot[q]
    ensures Total(ps, busy) <= Total(ps, pot)
  {
    if ps != [] {
      PotentialDominates(ps[..|ps| - 1], busy, pot);
    }
  }

  /** An operation on fixed partitions whose limits respect the caps. */
  ghost predicate Within<P>(a: Alloc<P>, op: Op<P>, cap: map<P, int>, top: int) {
    && !op.Register?
    && (op.SetLimit? ==> AtLeastOne(op.total) <= top)
    && (op.SetLimit? ==> forall p :: p in op.live && p in a.cells && p in cap ==>
          PartitionLimit(AtLeastOne(op.total), a.cells[p].percent) <= cap[p])
  }

  lemma TryKeepsOvershoot<P>(a: Alloc<P>, p: P, ps: seq<P>, cap: map<P, int>, top: int, least: int)
    requires Overshoot(a, ps, cap, top, least) && Enabled(a, Try(p)) && Admits(a, p)
    ensures Overshoot(Apply(a, Try(p)), ps, cap, top, least)
  {
    var a' := Apply(a, Try(p));
    StepKeepsAccounts(a, Try(p));
    var pot, pot' := Potentials(a, cap), Potentials(a', cap);
    if a.cells[p].busy < cap[p] {
      SumSame(ps, pot, pot');
    } else {
      SumOfTokens(ps, Busies(a'), a'.tokens);
      PotentialWithoutOne(ps, Busies(a'), cap, pot', p);
    }
  }

  lemma ReleaseKeepsOvershoot<P>(a: Alloc<P>, p: P, ps: seq<P>, cap: map<P, int>, top: int, least: int)
    requires Overshoot(a, ps, cap, top, least) && Enabled(a, Release(p))
    ensures Overshoot(Apply(a, Release(p)), ps, cap, top, least)
  {
    var a' := Apply(a, Release(p));
    StepKeepsAccounts(a, Release(p));
    PotentialDominates(ps, Potentials(a', cap), Potentials(a, cap));
  }

  lemma StepKeepsOvershoot<P>(a: Alloc<P>, op: Op<P>, ps: seq<P>, cap: map<P, int>, top: int, least: int)
    requires Overshoot(a, ps, cap, top, least) && Enabled(a, op) && Within(a, op, cap, top)
    ensures Overshoot(Apply(a, op), ps, cap, top, least)
  {
    match op
    case Try(p) =>
      if Admits(a, p) {
        TryKeepsOvershoot(a, p, ps, cap, top, least);
      }
    case Release(p) => ReleaseKeepsOvershoot(a, p, ps, cap, top, least);
    case SetLimit(_, _) => SumSame(ps, Potentials(a, cap), Potentials(Apply(a, op), cap));
  }

  lemma {:induction false} RunKeepsOvershoot<P>(
    ss: seq<Alloc<P>>, ops: seq<Op<P>>, i: nat, ps: seq<P>, cap: map<P, int>, top: int, least: int)
    requires IsRun(ss, ops) && i < |ss|
    requires Capped(ss[0], ps, cap, top, least) && ss[0].tokens == multiset{} && Accounted(ss[0])
    requires forall j :: 0 <= j < |ops| ==> Within(ss[j], ops[j], cap, top)
    ensures Overshoot(ss[i], ps, cap, top, least)
  {
    if i == 0 {
      SumSame(ps, Potentials(ss[0], cap), cap);
    } else {
      RunKeepsOvershoot(ss, ops, i - 1, ps, cap, top, least);
      StepKeepsOvershoot(ss[i - 1], ops[i - 1], ps, cap, top, least);
    }
  }

  /** The overshoot bound: with fixed partitions whose limits never exceed `cap` and a total limit
      that never exceeds `top`, every run keeps the total count within `top` plus the sum of the
      caps less the smallest. */
  lemma OvershootIsBounded<P>(
    ss: seq<Alloc<P>>, ops: seq<Op<P>>, i: nat, ps: seq<P>, cap: map<P, int>, top: int, least: int)
    requires IsRun(ss, ops) && i < |ss|
    requires Capped(ss[0], ps, cap, top, least) && ss[0].tokens == multiset{} && Accounted(ss[0])
    requires forall j :: 0 <= j < |ops| ==> Within(ss[j], ops[j], cap, top)
    ensures ss[i].busy <= top + Total(ps, cap) - least
  {
    RunKeepsOvershoot(ss, ops, i, ps, cap, top, least);
    SumOfTokens(ps, Busies(ss[i]), ss[i].tokens);
    PotentialDominates(ps, Busies(ss[i]), Potentials(ss[i], cap));
  }

  // ---------------------------------------------------------------- percentages

  function Percents<P>(a: Alloc<P>): map<P, real> { map p | p in a.cells :: a.cells[p].percent }

  /** The values of `ps` in order. */
  function Shares<P>(ps: seq<P>, m: map<P, real>): seq<real>
    requires forall p :: p in ps ==> p in m
  {
    seq(|ps|, i requires 0 <= i < |ps| => assert ps[i] in ps; m[ps[i]])
  }

  function LimitsAt<P>(total: int, percents: map<P, real>): map<P, int> {
    map p | p in percents :: PartitionLimit(total, percents[p])
  }

  /** What NewPredicatePartitionStrategyWithMetricRegistry builds from accepted partitions. */
  ghost predicate Fresh<P>(a: Alloc<P>, ps: seq<P>) {
    && Distinct(ps) && ps != [] && SameElements(ps, a.cells)
    && a.busy == 0 && a.tokens == multiset{}
    && (forall p :: p in a.cells ==> a.cells[p].busy == 0 && a.cells[p].percent >= 0.0
                                     && a.cells[p].limit == PartitionLimit(a.limit, a.cells[p].percent))
    && Sum(Shares(ps, Percents(a))) <= 1.0
  }

  lemma {:induction false} PercentAtMostSum<P>(ps: seq<P>, m: map<P, real>, p: P)
    requires forall q :: q in ps ==> q in m && m[q] >= 0.0
    ensures Sum(Shares(ps, m)) >= 0.0
    ensures p in ps ==> m[p] <= Sum(Shares(ps, m))
  {
    if ps != [] {
      assert ps == ps[..|ps| - 1] + [ps[|ps| - 1]];
      assert Shares(ps, m)[..|ps| - 1] == Shares(ps[..|ps| - 1], m);
      PercentAtMostSum(ps[..|ps| - 1], m, p);
    }
  }

  lemma PartitionLimitMonotone(total: int, total': int, percent: real)
    requires total <= total' && percent >= 0.0
    ensures PartitionLimit(total, percent) <= PartitionLimit(total', percent)
  {
    ProductMonotone(total as real, total' as real, percent);
    CeilMonotone(total as real * percent, total' as real * percent);
  }

  /** A limit below 1, which the constructors accept, leaves each partition one slot. */
  lemma PartitionLimitOfNothing(total: int, percent: real)
    requires total <= 0 && percent >= 0.0
    ensures PartitionLimit(total, percent) == 1
  {
    ProductNonNegative(-total as real, percent);
    assert total as real * percent == -(-total as real * percent);
  }

  lemma PartitionLimitWithinTotal(total: int, percent: real)
    requires 1 <= total && 0.0 <= percent <= 1.0
    ensures 1 <= PartitionLimit(total, percent) <= total
    ensures PartitionLimit(total, percent) as real <= total as real * percent + 1.0
  {
    assert total as real * percent <= total as real;
    assert total as real * percent >= 0.0;
  }

  /** Rounding up costs at most one slot for each partition. */
  lemma {:induction false} RoundingCost<P>(ps: seq<P>, percents: map<P, real>, total: int)
    requires 1 <= total
    requires forall p :: p in ps ==> p in percents && 0.0 <= percents[p] <= 1.0
    ensures Total(ps, LimitsAt(total, percents)) as real
            <= total as real * Sum(Shares(ps, percents)) + |ps| as real
  {
    if ps != [] {
      var init, last := ps[..|ps| - 1], ps[|ps| - 1];
      assert Shares(ps, percents)[..|ps| - 1] == Shares(init, percents);
      RoundingCost(init, percents, total);
      PartitionLimitWithinTotal(total, percents[last]);
      assert total as real * Sum(Shares(ps, percents))
          == total as real * Sum(Shares(init, percents)) + total as real * percents[last];
    }
  }

  /** Runs on fixed partitions whose limit never exceeds `top`. */
  ghost predicate FixedPartitions<P>(ops: seq<Op<P>>, top: int) {
    forall j :: 0 <= j < |ops| ==> !ops[j].Register? && (ops[j].SetLimit? ==> AtLeastOne(ops[j].total) <= top)
  }

  lemma StepKeepsPercents<P>(a: Alloc<P>, op: Op<P>)
    requires Enabled(a, op) && !op.Register?
    ensures Percents(Apply(a, op)) == Percents(a)
  {}

  lemma {:induction false} PercentsStay<P>(ss: seq<Alloc<P>>, ops: seq<Op<P>>, top: int, i: nat)
    requires IsRun(ss, ops) && FixedPartitions(ops, top) && i < |ss|
    ensures Percents(ss[i]) == Percents(ss[0])
  {
    if i > 0 {
      PercentsStay(ss, ops, top, i - 1);
      StepKeepsPercents(ss[i - 1], ops[i - 1]);
    }
  }

  /** All of the limits are at least 1, and at most the total where that is at least 1. */
  lemma FreshIsCapped<P>(a: Alloc<P>, ps: seq<P>, top: int, smallest: P)
    requires Fresh(a, ps) && a.limit <= top && smallest in ps
    requires IsSmallest(ps, LimitsAt(top, Percents(a)), smallest)
    ensures var limits := LimitsAt(top, Percents(a));
            && Capped(a, ps, limits, Max(top, limits[smallest]), limits[smallest])
            && 1 <= limits[smallest] <= Max(top, 1)
    ensures forall p :: p in ps ==> 0.0 <= Percents(a)[p] <= 1.0
  {
    var percents := Percents(a);
    forall p | p in ps
      ensures 0.0 <= percents[p] <= 1.0 && 1 <= PartitionLimit(top, percents[p]) <= Max(top, 1)
      ensures a.cells[p].limit <= PartitionLimit(top, percents[p])
    {
      PercentAtMostSum(ps, percents, p);
      if top >= 1 {
        PartitionLimitWithinTotal(top, percents[p]);
      } else {
        PartitionLimitOfNothing(top, percents[p]);
      }
      PartitionLimitMonotone(a.limit, top, percents[p]);
    }
  }

  lemma FixedPartitionsStayWithin<P>(ss: seq<Alloc<P>>, ops: seq<Op<P>>, ps: seq<P>, top: int, j: nat)
    requires IsRun(ss, ops) && Fresh(ss[0], ps) && FixedPartitions(ops, top) && j < |ops|
    ensures Within(ss[j], ops[j], LimitsAt(top, Percents(ss[0])), top)
  {
    PercentsStay(ss, ops, top, j);
    if ops[j].SetLimit? {
      forall p | p in ops[j].live && p in ss[j].cells
        ensures PartitionLimit(AtLeastOne(ops[j].total), ss[j].cells[p].percent)
                <= PartitionLimit(top, ss[j].cells[p].percent)
      {
        assert Percents(ss[j])[p] == Percents(ss[0])[p] >= 0.0;
        PartitionLimitMonotone(AtLeastOne(ops[j].total), top, ss[j].cells[p].percent);
      }
    }
  }

  ghost predicate IsSmallest<P>(ps: seq<P>, limits: map<P, int>, smallest: P)
    requires smallest in limits && forall p :: p in ps ==> p in limits
  {
    forall p :: p in ps ==> limits[smallest] <= limits[p]
  }

  lemma WholeShare(limits: int, total: int, share: real, n: nat)
    requires total >= 1 && share <= 1.0 && limits as real <= total as real * share + n as real
    ensures limits <= total + n
  {
    ProductMonotone(share, 1.0, total as real);
  }

  /** Percentages that sum to at most 1 give partition limits that sum to at most `total` + n. */
  lemma {:induction false} LimitsSum<P>(ps: seq<P>, percents: map<P, real>, total: int)
    requires 1 <= total && forall p :: p in ps ==> p in percents && 0.0 <= percents[p] <= 1.0
    requires Sum(Shares(ps, percents)) <= 1.0
    ensures Total(ps, LimitsAt(total, percents)) <= total + |ps|
  {
    RoundingCost(ps, percents, total);
    WholeShare(Total(ps, LimitsAt(total, percents)), total, Sum(Shares(ps, percents)), |ps|);
  }

  lemma {:induction false} SumOfOnes<P>(ps: seq<P>, m: map<P, int>)
    requires forall p :: p in ps ==> p in m && m[p] == 1
    ensures Total(ps, m) == |ps|
  {
    if ps != [] {
      SumOfOnes(ps[..|ps| - 1], m);
    }
  }

  lemma LimitsSumOfNothing<P>(ps: seq<P>, percents: map<P, real>, total: int)
    requires total <= 0 && forall p :: p in ps ==> p in percents && percents[p] >= 0.0
    ensures Total(ps, LimitsAt(total, percents)) == |ps|
  {
    forall p | p in ps ensures LimitsAt(total, percents)[p] == 1 {
      PartitionLimitOfNothing(total, percents[p]);
    }
    SumOfOnes(ps, LimitsAt(total, percents));
  }

  /** The bound for strategies built from percentages, whatever the limit: while it stays at or below
      `top`, the total count stays within the partitions' limits at `top`, plus what `top` exceeds
      the smallest of them by.  Hence within 2 * top + n - 1, or n for a strategy built with a limit
      below 1. */
  lemma PercentageOvershoot<P>(ss: seq<Alloc<P>>, ops: seq<Op<P>>, i: nat, ps: seq<P>, top: int, smallest: P)
    requires IsRun(ss, ops) && i < |ss| && Fresh(ss[0], ps)
    requires ss[0].limit <= top && FixedPartitions(ops, top)
    requires smallest in ps && IsSmallest(ps, LimitsAt(top, Percents(ss[0])), smallest)
    ensures var limits := LimitsAt(top, Percents(ss[0]));
            && ss[i].busy <= Max(top, limits[smallest]) + Total(ps, limits) - limits[smallest]
            && (top >= 1 ==> ss[i].busy <= top + Total(ps, limits) - limits[smallest] <= 2 * top + |ps| - 1)
            && (top < 1 ==> ss[i].busy <= |ps|)
  {
    var limits := LimitsAt(top, Percents(ss[0]));
    var least := limits[smallest];
    FreshIsCapped(ss[0], ps, top, smallest);
    assert ss[i].busy <= Max(top, least) + Total(ps, limits) - least by {
      forall j | 0 <= j < |ops| ensures Within(ss[j], ops[j], limits, Max(top, least)) {
        FixedPartitionsStayWithin(ss, ops, ps, top, j);
      }
      OvershootIsBounded(ss, ops, i, ps, limits, Max(top, least), least);
    }
    if top >= 1 {
      LimitsSum(ps, Percents(ss[0]), top);
    } else {
      LimitsSumOfNothing(ps, Percents(ss[0]), top);
    }
  }

  // ---------------------------------------------------------------- the bound is reached

  lemma {:induction false} FillOne<P>(ss: seq<Alloc<P>>, ops: seq<Op<P>>, p: P, n: nat, top: int)
    returns (ss': seq<Alloc<P>>, ops': seq<Op<P>>)
    requires IsRun(ss, ops) && FixedPartitions(ops, top)
    requires var a := ss[|ss| - 1];
             p in a.cells && (a.busy + n <= a.limit || a.cells[p].busy + n <= a.cells[p].limit)
    ensures IsRun(ss', ops') && ss'[0] == ss[0] && FixedPartitions(ops', top)
    ensures var a, a' := ss[|ss| - 1], ss'[|ss'| - 1];
            && a'.busy == a.busy + n && a'.limit == a.limit
            && a'.cells == a.cells[p := a.cells[p].(busy := a.cells[p].busy + n)]
  {
    if n == 0 {
      ss', ops' := ss, ops;
      assert ss[|ss| - 1].cells == ss[|ss| - 1].cells[p := ss[|ss| - 1].cells[p]];
    } else {
      var ss1, ops1 := FillOne(ss, ops, p, n - 1, top);
      ss', ops' := ss1 + [Apply(ss1[|ss1| - 1], Try(p))], ops1 + [Try(p)];
    }
  }

  /** The sum of the limits of every partition but one. */
  function OtherLimits<P(==)>(ps: seq<P>, limits: map<P, int>, but: P): int
    requires forall p :: p in ps ==> p in limits
  {
    if ps == [] then 0 else
      OtherLimits(ps[..|ps| - 1], limits, but) + (if ps[|ps| - 1] == but then 0 else limits[ps[|ps| - 1]])
  }

  lemma {:induction false} OtherLimitsAreTheRest<P>(ps: seq<P>, limits: map<P, int>, but: P)
    requires Distinct(ps) && forall p :: p in ps ==> p in limits
    ensures OtherLimits(ps, limits, but) == Total(ps, limits) - (if but in ps then limits[but] else 0)
  {
    if ps != [] {
      assert ps == ps[..|ps| - 1] + [ps[|ps| - 1]];
      OtherLimitsAreTheRest(ps[..|ps| - 1], limits, but);
    }
  }

  function Limits<P>(a: Alloc<P>): map<P, int> { map p | p in a.cells :: a.cells[p].limit }

  /** No token is out and `ps` are all the partitions. */
  ghost predicate Unused<P>(a: Alloc<P>, ps: seq<P>) {
    && Distinct(ps) && SameElements(ps, a.cells) && a.busy == 0
    && (forall p :: p in a.cells ==> a.cells[p].busy == 0 && a.cells[p].limit >= 0)
  }

  /** `first` used the whole total limit and the first `k` other partitions are full. */
  ghost predicate Filled<P>(a: Alloc<P>, a0: Alloc<P>, ps: seq<P>, first: P, k: nat)
    requires Unused(a0, ps) && first in ps && k <= |ps|
  {
    && a.limit == a0.limit && Limits(a) == Limits(a0)
    && (forall j :: k <= j < |ps| && ps[j] != first ==> ps[j] in a.cells && a.cells[ps[j]].busy == 0)
    && a.busy == Max(a0.limit, Limits(a0)[first]) + OtherLimits(ps[..k], Limits(a0), first)
  }

  lemma FillNext<P>(a0: Alloc<P>, ps: seq<P>, first: P, k: nat, ss: seq<Alloc<P>>, ops: seq<Op<P>>)
    returns (ss': seq<Alloc<P>>, ops': seq<Op<P>>)
    requires Unused(a0, ps) && first in ps && k < |ps|
    requires IsRun(ss, ops) && ss[0] == a0 && FixedPartitions(ops, a0.limit)
    requires Filled(ss[|ss| - 1], a0, ps, first, k)
    ensures IsRun(ss', ops') && ss'[0] == a0 && FixedPartitions(ops', a0.limit)
    ensures Filled(ss'[|ss'| - 1], a0, ps, first, k + 1)
  {
    var p := ps[k];
    assert ps[..k + 1][..k] == ps[..k] && ps[..k + 1][k] == p;
    if p == first {
      ss', ops' := ss, ops;
    } else {
      var a := ss[|ss| - 1];
      assert p in Limits(a) && Limits(a)[p] == Limits(a0)[p];
      ss', ops' := FillOne(ss, ops, p, Limits(a0)[p], a0.limit);
      assert Limits(ss'[|ss'| - 1]) == Limits(a0);
    }
  }

  /** Fill `first` with the whole total limit, then every other partition with its own limit. */
  lemma {:induction false} FillOthers<P>(a0: Alloc<P>, ps: seq<P>, first: P, k: nat)
    returns (ss: seq<Alloc<P>>, ops: seq<Op<P>>)
    requires Unused(a0, ps) && first in ps && k <= |ps|
    ensures IsRun(ss, ops) && ss[0] == a0 && FixedPartitions(ops, a0.limit)
    ensures Filled(ss[|ss| - 1], a0, ps, first, k)
  {
    if k == 0 {
      ss, ops := FillOne([a0], [], first, Max(a0.limit, a0.cells[first].limit), a0.limit);
      assert Limits(ss[|ss| - 1]) == Limits(a0);
    } else {
      var ss1, ops1 := FillOthers(a0, ps, first, k - 1);
      ss, ops := FillNext(a0, ps, first, k - 1, ss1, ops1);
    }
  }

  /** Whatever the limits are, some run of acquires has one partition, chosen at will, take the total
      limit (or its own limit, if that is more) and then fills every other partition. */
  lemma OvershootIsReached<P>(a0: Alloc<P>, ps: seq<P>, but: P)
    returns (ss: seq<Alloc<P>>, ops: seq<Op<P>>)
    requires Unused(a0, ps) && but in ps
    ensures IsRun(ss, ops) && ss[0] == a0 && FixedPartitions(ops, a0.limit)
    ensures ss[|ss| - 1].busy == Max(a0.limit, Limits(a0)[but]) + Total(ps, Limits(a0)) - Limits(a0)[but]
  {
    ss, ops := FillOthers(a0, ps, but, |ps|);
    assert ps[..|ps|] == ps;
    OtherLimitsAreTheRest(ps, Limits(a0), but);
  }

  /** The bound is tight at every limit and for every accepted percentages: some run of acquires
      reaches exactly the bound of PercentageOvershoot. */
  lemma PercentageOvershootIsReached<P>(a0: Alloc<P>, ps: seq<P>, smallest: P)
    returns (ss: seq<Alloc<P>>, ops: seq<Op<P>>)
    requires Fresh(a0, ps) && smallest in ps
    ensures IsRun(ss, ops) && ss[0] == a0 && FixedPartitions(ops, a0.limit)
    ensures var limits := LimitsAt(a0.limit, Percents(a0));
            ss[|ss| - 1].busy == Max(a0.limit, limits[smallest]) + Total(ps, limits) - limits[smallest]
  {
    ss, ops := OvershootIsReached(a0, ps, smallest);
    SumSame(ps, Limits(a0), LimitsAt(a0.limit, Percents(a0)));
  }

  // ---------------------------------------------------------------- limits follow the total

  /** What the total limit has been set to by the operations `ops`. */
  function LastLimit<P>(first: int, ops: seq<Op<P>>): int {
    if ops == [] then first
    else if ops[|ops| - 1].SetLimit? then AtLeastOne(ops[|ops| - 1].total)
    else LastLimit(first, ops[..|ops| - 1])
  }

  lemma {:induction false} LimitFollowsSetLimit<P>(ss: seq<Alloc<P>>, ops: seq<Op<P>>, i: nat)
    requires IsRun(ss, ops) && i < |ss|
    ensures ss[i].limit == LastLimit(ss[0].limit, ops[..i])
  {
    if i > 0 {
      LimitFollowsSetLimit(ss, ops, i - 1);
      assert ops[..i][..i - 1] == ops[..i - 1];
    }
  }

  /** `p` has its share of the limit in force. */
  predicate IsScaled<P>(a: Alloc<P>, p: P, percent: real) {
    p in a.cells && a.cells[p].percent == percent && a.cells[p].limit == PartitionLimit(a.limit, percent)
  }

  lemma StepKeepsScale<P>(a: Alloc<P>, op: Op<P>, p: P, percent: real)
    requires IsScaled(a, p, percent) && Enabled(a, op) && (op.SetLimit? ==> p in op.live)
    ensures IsScaled(Apply(a, op), p, percent)
  {}

  lemma {:induction false} RunKeepsScale<P>(ss: seq<Alloc<P>>, ops: seq<Op<P>>, i: nat, p: P, percent: real)
    requires IsRun(ss, ops) && i < |ss| && IsScaled(ss[0], p, percent)
    requires forall j :: 0 <= j < |ops| && ops[j].SetLimit? ==> p in ops[j].live
    ensures IsScaled(ss[i], p, percent)
  {
    if i > 0 {
      RunKeepsScale(ss, ops, i - 1, p, percent);
      StepKeepsScale(ss[i - 1], ops[i - 1], p, percent);
    }
  }

  /** In every run, whatever partitions come and go, a partition that stays listed always has the least
      limit that is at least 1 and covers its share of the limit set last. */
  lemma ListedPartitionHasItsShare<P>(ss: seq<Alloc<P>>, ops: seq<Op<P>>, i: nat, ps: seq<P>, p: P, k: int)
    requires IsRun(ss, ops) && i < |ss| && Fresh(ss[0], ps) && p in ps
    requires forall j :: 0 <= j < |ops| && ops[j].SetLimit? ==> p in ops[j].live
    ensures var total := LastLimit(ss[0].limit, ops[..i]);
            && p in ss[i].cells && total == ss[i].limit
            && (k >= ss[i].cells[p].limit <==> k >= 1 && k as real >= total as real * ss[0].cells[p].percent)
  {
    LimitFollowsSetLimit(ss, ops, i);
    RunKeepsScale(ss, ops, i, p, ss[0].cells[p].percent);
    PartitionLimitIsLeast(ss[i].limit, ss[0].cells[p].percent, k);
  }

  /** A caller whose partition stays listed is never refused below that share. */
  lemma ListedPartitionIsAdmitted<P>(ss: seq<Alloc<P>>, ops: seq<Op<P>>, i: nat, ps: seq<P>, p: P)
    requires IsRun(ss, ops) && i < |ss| && Fresh(ss[0], ps) && p in ps
    requires forall j :: 0 <= j < |ops| && ops[j].SetLimit? ==> p in ops[j].live
    ensures p in ss[i].cells
    ensures !Admits(ss[i], p) <==>
              && ss[i].busy >= ss[i].limit
              && ss[i].tokens[p] >= 1 && ss[i].tokens[p] as real >= ss[i].limit as real * ss[0].cells[p].percent
  {
    RunKeepsAccounts(ss, ops, i);
    RunKeepsScale(ss, ops, i, p, ss[0].cells[p].percent);
    RefusedIff(ss[i], p, ss[0].cells[p].percent);
  }

  lemma RefusedIff<P>(a: Alloc<P>, p: P, percent: real)
    requires Accounted(a) && IsScaled(a, p, percent)
    ensures !Admits(a, p) <==>
              a.busy >= a.limit && a.tokens[p] >= 1 && a.tokens[p] as real >= a.limit as real * percent
  {
    var held: int := a.tokens[p];
    PartitionLimitIsLeast(a.limit, percent, held);
  }

  // ---------------------------------------------------------------- no overshoot, no starvation

  /** The total never exceeds the limit the strategy was built with, in runs that never raise it. */
  ghost predicate NeverOvershoots<P(!new)>(a0: Alloc<P>) {
    forall ss: seq<Alloc<P>>, ops: seq<Op<P>>, i: nat ::
      IsRun(ss, ops) && ss[0] == a0 && FixedPartitions(ops, a0.limit) && i < |ss| ==> ss[i].busy <= a0.limit
  }

  /** Partitions keep the total within the limit if and only if there is a single one and the limit is
      at least 1. */
  lemma NeverOvershootsIff<P(!new)>(a0: Alloc<P>, ps: seq<P>)
    requires Fresh(a0, ps)
    ensures NeverOvershoots(a0) <==> |ps| == 1 && a0.limit >= 1
  {
    var limits, one := LimitsAt(a0.limit, Percents(a0)), ps[0];
    if |ps| == 1 && a0.limit >= 1 {
      assert Total(ps, limits) == limits[one] by {
        assert ps[..0] == [];
      }
      forall ss: seq<Alloc<P>>, ops: seq<Op<P>>, i: nat
        | IsRun(ss, ops) && ss[0] == a0 && FixedPartitions(ops, a0.limit) && i < |ss|
        ensures ss[i].busy <= a0.limit
      {
        PercentageOvershoot(ss, ops, i, ps, a0.limit, one);
      }
    } else {
      var ss, ops := PercentageOvershootIsReached(a0, ps, one);
      OthersAtLeastCount(ps, limits, one);
      assert ss[|ss| - 1].busy > a0.limit;
    }
  }

  lemma OthersAtLeastCount<P>(ps: seq<P>, m: map<P, int>, one: P)
    requires one in ps && forall p :: p in ps ==> p in m && m[p] >= 1
    requires Distinct(ps) && one == ps[0]
    ensures Total(ps, m) - m[one] >= |ps| - 1
    decreases |ps|
  {
    if |ps| > 1 {
      var init := ps[..|ps| - 1];
      OthersAtLeastCount(init, m, one);
    }
  }

  /** A percentage of 0 is documented as using excess capacity only, open to being starved.  In every
      run, whatever partitions come and go, a partition built with 0 percent has exactly one slot of
      its own: with the limit used up it is refused if and only if it holds a token. */
  lemma ZeroPercentIsRefusedIff<P>(ss: seq<Alloc<P>>, ops: seq<Op<P>>, i: nat, ps: seq<P>, p: P)
    requires IsRun(ss, ops) && i < |ss| && Fresh(ss[0], ps)
    requires p in ps && ss[0].cells[p].percent == 0.0
    ensures p in ss[i].cells && ss[i].cells[p].limit == 1
    ensures ss[i].busy >= ss[i].limit ==> (!Admits(ss[i], p) <==> ss[i].tokens[p] >= 1)
  {
    RunKeepsAccounts(ss, ops, i);
    ZeroShare(ss[0].limit);
    ZeroPercentKeepsOneSlot(ss, ops, i, p);
  }

  lemma ZeroShare(total: int)
    ensures PartitionLimit(total, 0.0) == 1
  {}

  predicate HasOneSlot<P>(a: Alloc<P>, p: P) {
    p in a.cells && a.cells[p].percent == 0.0 && a.cells[p].limit == 1
  }

  lemma StepKeepsOneSlot<P>(a: Alloc<P>, op: Op<P>, p: P)
    requires HasOneSlot(a, p) && Enabled(a, op)
    ensures HasOneSlot(Apply(a, op), p)
  {
    if op.SetLimit? {
      ZeroShare(AtLeastOne(op.total));
    }
  }

  lemma {:induction false} ZeroPercentKeepsOneSlot<P>(ss: seq<Alloc<P>>, ops: seq<Op<P>>, i: nat, p: P)
    requires IsRun(ss, ops) && i < |ss| && HasOneSlot(ss[0], p)
    ensures HasOneSlot(ss[i], p)
  {
    if i > 0 {
      ZeroPercentKeepsOneSlot(ss, ops, i - 1, p);
      StepKeepsOneSlot(ss[i - 1], ops[i - 1], p);
    }
  }
}

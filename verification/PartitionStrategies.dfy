/** PredicatePartitionStrategy and LookupPartitionStrategy (strategy/predicate_partition.go,
    strategy/lookup_partition.go) as objects.  Every method is one region of the strategy's mutex
    and is proved to perform one operation of the allocator on the partition it selects, so the
    allocator's whole-run results apply to both. */
module PartitionStrategies {
  import opened Basics
  import opened PartitionAllocator
  import opened Reals

  /** One partition object; it outlives its removal from a strategy while tokens are out. */
  class Partition {
    const percent: real
    var limit: int
    var busy: int

    constructor (percent: real, limit: int)
      ensures this.percent == percent && this.limit == AtLeastOne(limit) && busy == 0
    {
      this.percent := percent;
      this.limit := if limit < 1 then 1 else limit;
      busy := 0;
    }

    /** The smallest integer that covers both one slot and the partition's share. */
    method UpdateLimit(totalLimit: int)
      modifies this`limit
      ensures limit == PartitionLimit(totalLimit, percent)
    {
      var share := Ceil(totalLimit as real * percent);
      limit := if share > 1 then share else 1;
    }
  }

  function CellOf(p: Partition): Cell reads p { Cell(p.percent, p.limit, p.busy) }

  /** The total count and limit of a strategy, with the partitions it has ever listed and the
      tokens it has handed out. */
  class Counters {
    var busy: int
    var limit: int
    ghost var known: set<Partition>
    ghost var tokens: multiset<Partition>

    ghost function View(): Alloc<Partition> reads this, known {
      Alloc(map p | p in known :: CellOf(p), busy, limit, tokens)
    }

    ghost predicate Valid() reads this, known { Accounted(View()) }

    /** A partition may come with a count from elsewhere; the accounts are in order when none does. */
    constructor (limit: int, ghost parts: set<Partition>)
      ensures busy == 0 && this.limit == limit && known == parts && tokens == multiset{}
      ensures (forall p :: p in parts ==> p.busy == 0) ==> Valid()
    {
      busy, this.limit := 0, limit;
      known, tokens := parts, multiset{};
    }

    /** The end of TryAcquire, once the partition is selected. */
    method TryFor(p: Partition) returns (ok: bool)
      requires Valid() && p in known
      modifies this, p
      ensures Valid() && known == old(known)
      ensures ok == Admits(old(View()), p) && View() == Apply(old(View()), Try(p))
    {
      ghost var before := View();
      if busy >= limit && p.busy >= p.limit {
        return false;
      }
      StepKeepsAccounts(before, Try(p));
      busy := busy + 1;
      p.busy := p.busy + 1;
      tokens := tokens + multiset{p};
      assert View().cells == Apply(before, Try(p)).cells;
      return true;
    }

    /** The closure made by releasePartition, called once for each token. */
    method Release(p: Partition)
      requires Valid() && p in tokens
      modifies this, p
      ensures Valid() && known == old(known) && p in known
      ensures View() == Apply(old(View()), PartitionAllocator.Release(p))
    {
      ghost var before := View();
      ReturnKeepsAccounts(before, p);
      busy := busy - 1;
      p.busy := p.busy - 1;
      tokens := tokens - multiset{p};
      assert View().cells == Returned(before, p).cells;
    }

    static method Rescale(total: int, live: set<Partition>)
      modifies live`limit
      ensures forall p :: p in live ==> p.limit == PartitionLimit(total, p.percent)
    {
      var rest := live;
      while rest != {}
        invariant rest <= live
        invariant forall p :: p in live - rest ==> p.limit == PartitionLimit(total, p.percent)
        decreases rest
      {
        var p :| p in rest;
        p.UpdateLimit(total);
        rest := rest - {p};
      }
    }

    /** Rescales the listed partitions only when the limit changes. */
    method SetLimit(limit: int, live: set<Partition>)
      requires Valid() && live <= known
      modifies this`limit, live`limit
      ensures Valid() && known == old(known)
      ensures View() == Apply(old(View()), PartitionAllocator.SetLimit(limit, live))
      ensures this.limit == AtLeastOne(limit)
      ensures forall p :: p in live ==>
                p.limit == if old(this.limit) == AtLeastOne(limit) then old(p.limit)
                           else PartitionLimit(AtLeastOne(limit), p.percent)
      ensures forall p :: p in known && p !in live ==> p.limit == old(p.limit)
    {
      ghost var before := View();
      var newLimit := if limit < 1 then 1 else limit;
      StepKeepsAccounts(before, PartitionAllocator.SetLimit(limit, live));
      if this.limit != newLimit {
        Rescale(newLimit, live);
        this.limit := newLimit;
        assert View().cells == Rescaled(before.cells, newLimit, live);
      }
    }

    /** A partition object is listed for the first time, or again. */
    ghost method Know(p: Partition)
      requires Valid()
      modifies this`known
      ensures known == old(known) + {p}
      ensures p in old(known) ==> Valid() && View() == old(View())
      ensures p !in old(known) && p.busy == 0 ==>
                Valid() && View() == Apply(old(View()), Register(p, p.percent, p.limit))
    {
      ghost var before := View();
      known := known + {p};
      if p in old(known) {
        assert known == old(known);
      } else if p.busy == 0 {
        StepKeepsAccounts(before, Register(p, p.percent, p.limit));
        assert View().cells == Apply(before, Register(p, p.percent, p.limit)).cells;
      }
    }
  }

  // ---------------------------------------------------------------- construction

  function PercentsOf(ps: seq<Partition>): seq<real> {
    seq(|ps|, i requires 0 <= i < |ps| => ps[i].percent)
  }

  lemma {:induction false} SumWithout(xs: seq<real>, i: nat)
    requires i < |xs|
    ensures Sum(xs) == Sum(xs[..i] + xs[i + 1..]) + xs[i]
  {
    var init, last := xs[..|xs| - 1], xs[|xs| - 1];
    if i == |xs| - 1 {
      assert xs[..i] + xs[i + 1..] == init;
    } else {
      SumWithout(init, i);
      var rest := xs[..i] + xs[i + 1..];
      assert rest[..|rest| - 1] == init[..i] + init[i + 1..] && rest[|rest| - 1] == last;
    }
  }

  lemma MultisetWithout<T>(xs: seq<T>, i: nat)
    requires i < |xs|
    ensures multiset(xs) == multiset(xs[..i] + xs[i + 1..]) + multiset{xs[i]}
  {
    assert xs == xs[..i] + [xs[i]] + xs[i + 1..];
  }

  /** The order in which the percentages are added up, which Go leaves open for a map, does not decide
      whether they are accepted. */
  lemma {:induction false} SumIgnoresOrder(xs: seq<real>, ys: seq<real>)
    requires multiset(xs) == multiset(ys)
    ensures Sum(xs) == Sum(ys)
  {
    if ys == [] {
      assert |xs| == |multiset(xs)| == 0;
    } else {
      var last, init := ys[|ys| - 1], ys[..|ys| - 1];
      assert ys == init + [last];
      assert last in multiset(xs);
      var i :| 0 <= i < |xs| && xs[i] == last;
      var rest := xs[..i] + xs[i + 1..];
      MultisetWithout(xs, i);
      assert multiset(rest) == multiset(xs) - multiset{last} && multiset(init) == multiset(ys) - multiset{last};
      SumWithout(xs, i);
      SumIgnoresOrder(rest, init);
    }
  }

  /** What a constructor has done to the partitions it accepts is what the whole-run results about
      the allocator start from. */
  lemma BuiltIsFresh(a: Alloc<Partition>, ps: seq<Partition>)
    requires Distinct(ps) && ps != [] && SameElements(ps, a.cells) && a.busy == 0 && a.tokens == multiset{}
    requires forall p :: p in a.cells ==>
               a.cells[p] == Cell(p.percent, PartitionLimit(a.limit, p.percent), 0) && p.percent >= 0.0
    requires Sum(PercentsOf(ps)) <= 1.0
    ensures Fresh(a, ps)
  {
    assert PercentsOf(ps) == Shares(ps, Percents(a));
  }

  /** The loop both constructors start with: adds up the percentages and sets every limit. */
  method ScaleAll(ps: seq<Partition>, limit: int) returns (sum: real)
    modifies (set p | p in ps)`limit
    ensures sum == Sum(PercentsOf(ps))
    ensures forall p :: p in ps ==> p.limit == PartitionLimit(limit, p.percent)
  {
    sum := 0.0;
    for n := 0 to |ps|
      invariant sum == Sum(PercentsOf(ps[..n]))
      invariant forall i :: 0 <= i < n ==> ps[i].limit == PartitionLimit(limit, ps[i].percent)
    {
      assert PercentsOf(ps[..n + 1])[..n] == PercentsOf(ps[..n]);
      sum := sum + ps[n].percent;
      ps[n].UpdateLimit(limit);
    }
    assert ps[..|ps|] == ps;
  }

  // ---------------------------------------------------------------- by predicate

  /** A PredicatePartition: the partition object and its predicate. */
  datatype Entry<!Ctx> = Entry(part: Partition, accepts: Ctx -> bool)

  predicate IsFirstMatch<Ctx>(entries: seq<Entry<Ctx>>, ctx: Ctx, i: int) {
    0 <= i < |entries| && entries[i].accepts(ctx) && forall j :: 0 <= j < i ==> !entries[j].accepts(ctx)
  }

  function PartsOf<Ctx>(entries: seq<Entry<Ctx>>): seq<Partition> {
    seq(|entries|, i requires 0 <= i < |entries| => entries[i].part)
  }

  /** The entries whose predicate answers `want`, in order. */
  function Matching<Ctx>(entries: seq<Entry<Ctx>>, ctx: Ctx, want: bool): seq<Entry<Ctx>> {
    if entries == [] then [] else
      var init, last := entries[..|entries| - 1], entries[|entries| - 1];
      Matching(init, ctx, want) + (if last.accepts(ctx) == want then [last] else [])
  }

  /** Splitting loses and invents nothing: an entry is among those that answer `want` exactly when it was
      listed and answers it, and the two parts have all the entries between them. */
  lemma {:induction false} MatchingSplits<Ctx>(entries: seq<Entry<Ctx>>, ctx: Ctx, want: bool)
    ensures forall e :: e in Matching(entries, ctx, want) <==> e in entries && e.accepts(ctx) == want
    ensures |Matching(entries, ctx, true)| + |Matching(entries, ctx, false)| == |entries|
  {
    if entries != [] {
      var init, last := entries[..|entries| - 1], entries[|entries| - 1];
      assert entries == init + [last];
      MatchingSplits(init, ctx, want);
    }
  }

  class PredicatePartitionStrategy<Ctx(!new)> {
    var partitions: seq<Entry<Ctx>>
    const counters: Counters

    ghost predicate Valid() reads this, counters, counters.known {
      counters.Valid() && Live() <= counters.known
    }

    function Live(): set<Partition> reads this {
      set i | 0 <= i < |partitions| :: partitions[i].part
    }

    constructor Over(entries: seq<Entry<Ctx>>, counters: Counters)
      requires counters.known == set p | p in PartsOf(entries)
      ensures partitions == entries && this.counters == counters && Live() == counters.known
    {
      partitions, this.counters := entries, counters;
      new;
      assert forall i :: 0 <= i < |entries| ==> PartsOf(entries)[i] == entries[i].part;
    }

    /** NewPredicatePartitionStrategyWithMetricRegistry: rejects an empty list and percentages that
        sum to more than 1; the partitions' limits are set before that check. */
    static method New(entries: seq<Entry<Ctx>>, limit: int) returns (s: PredicatePartitionStrategy?<Ctx>)
      modifies (set p | p in PartsOf(entries))`limit
      ensures s == null <==> entries == [] || Sum(PercentsOf(PartsOf(entries))) > 1.0
      ensures forall p :: p in PartsOf(entries) ==> p.limit == PartitionLimit(limit, p.percent)
      ensures s != null ==> fresh(s) && fresh(s.counters) && s.partitions == entries
      ensures s != null && (forall p :: p in PartsOf(entries) ==> p.busy == 0) ==> s.Valid()
      ensures s != null ==> s.counters.limit == limit && s.counters.busy == 0
                            && s.counters.tokens == multiset{} && s.counters.known == s.Live()
      ensures s != null && Distinct(PartsOf(entries))
              && (forall p :: p in PartsOf(entries) ==> p.busy == 0 && p.percent >= 0.0)
              ==> Fresh(s.counters.View(), PartsOf(entries))
    {
      if |entries| == 0 {
        return null;
      }
      var ps := PartsOf(entries);
      var sum := ScaleAll(ps, limit);
      if sum > 1.0 {
        return null;
      }
      var counters := new Counters(limit, set p | p in ps);
      s := new PredicatePartitionStrategy<Ctx>.Over(entries, counters);
      if Distinct(ps) && forall p :: p in ps ==> p.busy == 0 && p.percent >= 0.0 {
        BuiltIsFresh(counters.View(), ps);
      }
    }

    /** One allocator operation on the first partition whose predicate accepts the context; when
        there is none, no token and no change. */
    method TryAcquire(ctx: Ctx) returns (token: Option<Partition>)
      requires Valid()
      modifies counters, counters.known
      ensures Valid() && counters.known == old(counters.known)
      ensures forall i :: IsFirstMatch(partitions, ctx, i) ==>
                var p := partitions[i].part;
                && counters.View() == Apply(old(counters.View()), Try(p))
                && token == if Admits(old(counters.View()), p) then Some(p) else None
      ensures (forall i :: 0 <= i < |partitions| ==> !partitions[i].accepts(ctx)) ==>
                token.None? && counters.View() == old(counters.View())
    {
      for n := 0 to |partitions|
        invariant unchanged(counters) && unchanged(counters.known)
        invariant forall i :: 0 <= i < n ==> !partitions[i].accepts(ctx)
      {
        if partitions[n].accepts(ctx) {
          assert partitions[n].part in Live();
          var ok := counters.TryFor(partitions[n].part);
          return if ok then Some(partitions[n].part) else None;
        }
      }
      return None;
    }

    method SetLimit(limit: int)
      requires Valid()
      modifies counters, counters.known
      ensures Valid() && counters.known == old(counters.known)
      ensures counters.View() == Apply(old(counters.View()), PartitionAllocator.SetLimit(limit, Live()))
      ensures counters.limit == AtLeastOne(limit)
      ensures old(counters.limit) != AtLeastOne(limit) ==> forall i :: 0 <= i < |partitions| ==>
                partitions[i].part.limit == PartitionLimit(AtLeastOne(limit), partitions[i].part.percent)
    {
      assert forall i :: 0 <= i < |partitions| ==> partitions[i].part in Live();
      counters.SetLimit(limit, Live());
    }

    /** Lists a partition unless the same object is listed already; a removed partition comes back
        with the count it has, a new one is registered with its own limit. */
    method AddPartition(entry: Entry<Ctx>) returns (added: bool)
      requires Valid()
      modifies this, counters
      ensures counters.known == old(counters.known) + (if added then {entry.part} else {})
      ensures added <==> entry.part !in old(Live())
      ensures partitions == if added then old(partitions) + [entry] else old(partitions)
      ensures entry.part in old(counters.known) ==> Valid() && counters.View() == old(counters.View())
      ensures entry.part !in old(counters.known) && entry.part.busy == 0 ==>
                && Valid()
                && counters.View() ==
                   Apply(old(counters.View()), Register(entry.part, entry.part.percent, entry.part.limit))
    {
      for n := 0 to |partitions|
        invariant unchanged(this) && unchanged(counters)
        invariant forall i :: 0 <= i < n ==> partitions[i].part != entry.part
      {
        if partitions[n].part == entry.part {
          assert entry.part in Live();
          return false;
        }
      }
      ghost var before := Live();
      counters.Know(entry.part);
      partitions := partitions + [entry];
      assert Live() <= before + {entry.part};
      return true;
    }

    /** Splits the list by the predicate, in order; no count changes, so tokens of removed
        partitions stay accounted for. */
    method RemovePartitionsMatching(matcher: Ctx) returns (removed: seq<Entry<Ctx>>, any: bool)
      requires Valid()
      modifies this
      ensures Valid() && Live() <= old(Live())
      ensures partitions == Matching(old(partitions), matcher, false)
      ensures removed == Matching(old(partitions), matcher, true)
      ensures any <==> exists i :: 0 <= i < old(|partitions|) && old(partitions)[i].accepts(matcher)
    {
      var kept: seq<Entry<Ctx>> := [];
      removed := [];
      for n := 0 to |partitions|
        invariant unchanged(this)
        invariant kept == Matching(partitions[..n], matcher, false)
        invariant removed == Matching(partitions[..n], matcher, true)
        invariant forall i :: 0 <= i < |kept| ==> kept[i].part in Live()
        invariant removed != [] <==> exists i :: 0 <= i < n && partitions[i].accepts(matcher)
      {
        assert partitions[..n + 1][..n] == partitions[..n];
        assert partitions[n].part in Live();
        if partitions[n].accepts(matcher) {
          removed := removed + [partitions[n]];
        } else {
          kept := kept + [partitions[n]];
        }
      }
      assert partitions[..|partitions|] == partitions;
      partitions := kept;
      any := |removed| > 0;
    }
  }

  // ---------------------------------------------------------------- by name

  /** What NewLookupPartitionStrategyWithMetricRegistry builds: the named partitions scaled to the
      limit, and an unknown partition of 0 percent whose own limit is the whole limit. */
  ghost predicate FreshLookup<P>(a: Alloc<P>, ps: seq<P>, unknown: P) {
    && unknown !in ps && unknown in a.cells
    && a.cells[unknown] == Cell(0.0, AtLeastOne(a.limit), 0)
    && Fresh(a.(cells := a.cells - {unknown}), ps)
  }

  /** The partitions of a map, in the order its keys are visited. */
  function Visited(order: seq<string>, partitions: map<string, Partition>): seq<Partition>
    requires SameElements(order, partitions)
  {
    seq(|order|, i requires 0 <= i < |order| => assert order[i] in order; partitions[order[i]])
  }

  lemma NothingToVisit(order: seq<string>, partitions: map<string, Partition>)
    requires SameElements(order, partitions)
    ensures (order == [] <==> |partitions| == 0) && (|partitions| == 0 <==> partitions == map[])
  {
    assert |order| > 0 ==> order[0] in partitions;
  }

  lemma VisitedAreValues(order: seq<string>, partitions: map<string, Partition>)
    requires SameElements(order, partitions)
    ensures partitions.Values == set p | p in Visited(order, partitions)
  {
    var ps := Visited(order, partitions);
    forall p | p in partitions.Values ensures p in ps {
      var name :| name in partitions && partitions[name] == p;
      var i :| 0 <= i < |order| && order[i] == name;
      assert ps[i] == p;
    }
  }

  lemma BuiltIsFreshLookup(a: Alloc<Partition>, ps: seq<Partition>, unknown: Partition)
    requires Distinct(ps) && ps != [] && a.busy == 0 && a.tokens == multiset{}
    requires unknown !in ps && a.cells.Keys == (set p | p in ps) + {unknown}
    requires forall p :: p in ps ==>
               a.cells[p] == Cell(p.percent, PartitionLimit(a.limit, p.percent), 0) && p.percent >= 0.0
    requires a.cells[unknown] == Cell(0.0, AtLeastOne(a.limit), 0)
    requires Sum(PercentsOf(ps)) <= 1.0
    ensures FreshLookup(a, ps, unknown)
  {
    var named := a.(cells := a.cells - {unknown});
    assert SameElements(ps, named.cells);
    BuiltIsFresh(named, ps);
  }

  class LookupPartitionStrategy<Ctx(!new)> {
    var partitions: map<string, Partition>
    const unknownPartition: Partition
    const lookupFunc: Ctx -> string
    const counters: Counters

    ghost predicate Valid() reads this, counters, counters.known {
      counters.Valid() && partitions.Values <= counters.known
      && unknownPartition in counters.known && unknownPartition !in partitions.Values
    }

    constructor Over(partitions: map<string, Partition>, unknown: Partition, lookupFunc: Ctx -> string,
                     counters: Counters)
      requires counters.known == partitions.Values + {unknown} && unknown !in partitions.Values
      ensures this.partitions == partitions && unknownPartition == unknown
      ensures this.lookupFunc == lookupFunc && this.counters == counters
    {
      this.partitions, unknownPartition := partitions, unknown;
      this.lookupFunc, this.counters := lookupFunc, counters;
    }

    /** NewLookupPartitionStrategyWithMetricRegistry; `order` is the order in which the loop visits
        the map.  The unknown partition has no percentage and the whole limit. */
    static method New(partitions: map<string, Partition>, lookupFunc: Ctx -> string, limit: int,
                      order: seq<string>) returns (s: LookupPartitionStrategy?<Ctx>)
      requires Distinct(order) && SameElements(order, partitions)
      modifies (set p | p in Visited(order, partitions))`limit
      ensures s == null <==> partitions == map[] || Sum(PercentsOf(Visited(order, partitions))) > 1.0
      ensures forall p :: p in Visited(order, partitions) ==> p.limit == PartitionLimit(limit, p.percent)
      ensures s != null ==> fresh(s) && fresh(s.counters) && fresh(s.unknownPartition)
                            && s.partitions == partitions && s.lookupFunc == lookupFunc
      ensures s != null && (forall p :: p in Visited(order, partitions) ==> p.busy == 0) ==> s.Valid()
      ensures s != null && Distinct(Visited(order, partitions))
              && (forall p :: p in Visited(order, partitions) ==> p.busy == 0 && p.percent >= 0.0)
              ==> FreshLookup(s.counters.View(), Visited(order, partitions), s.unknownPartition)
    {
      var ps := Visited(order, partitions);
      NothingToVisit(order, partitions);
      if |partitions| == 0 {
        return null;
      }
      VisitedAreValues(order, partitions);
      var sum := ScaleAll(ps, limit);
      if sum > 1.0 {
        return null;
      }
      s := Scaled(partitions, lookupFunc, limit, ps);
    }

    /** The rest of the constructor, once the limits are set and the percentages accepted. */
    static method Scaled(partitions: map<string, Partition>, lookupFunc: Ctx -> string, limit: int,
                         ghost ps: seq<Partition>) returns (s: LookupPartitionStrategy<Ctx>)
      requires ps != [] && partitions.Values == set p | p in ps
      requires Sum(PercentsOf(ps)) <= 1.0
      requires forall p :: p in ps ==> p.limit == PartitionLimit(limit, p.percent)
      ensures fresh(s) && fresh(s.counters) && fresh(s.unknownPartition)
      ensures s.partitions == partitions && s.lookupFunc == lookupFunc
      ensures (forall p :: p in ps ==> p.busy == 0) ==> s.Valid()
      ensures Distinct(ps) && (forall p :: p in ps ==> p.busy == 0 && p.percent >= 0.0)
              ==> FreshLookup(s.counters.View(), ps, s.unknownPartition)
    {
      var unknown := new Partition(0.0, limit);
      var counters := new Counters(limit, partitions.Values + {unknown});
      s := new LookupPartitionStrategy<Ctx>.Over(partitions, unknown, lookupFunc, counters);
      if Distinct(ps) && forall p :: p in ps ==> p.busy == 0 && p.percent >= 0.0 {
        BuiltIsFreshLookup(counters.View(), ps, unknown);
      }
    }

    /** One allocator operation on the partition registered under the looked-up name, or on the unknown
        one when there is none. */
    method TryAcquire(ctx: Ctx) returns (token: Option<Partition>)
      requires Valid()
      modifies counters, counters.known
      ensures Valid() && counters.known == old(counters.known)
      ensures var name := lookupFunc(ctx);
              var p: Partition := if name in partitions then partitions[name] else unknownPartition;
              && p in counters.known && counters.View() == Apply(old(counters.View()), Try(p))
              && token == if Admits(old(counters.View()), p) then Some(p) else None
    {
      var name := lookupFunc(ctx);
      var partition := unknownPartition;
      if name in partitions {
        partition := partitions[name];
      }
      var ok := counters.TryFor(partition);
      return if ok then Some(partition) else None;
    }

    /** Leaves the unknown partition's limit as it was built. */
    method SetLimit(limit: int)
      requires Valid()
      modifies counters, counters.known
      ensures Valid() && counters.known == old(counters.known)
      ensures counters.View() == Apply(old(counters.View()), PartitionAllocator.SetLimit(limit, partitions.Values))
      ensures unknownPartition.limit == old(unknownPartition.limit)
      ensures counters.limit == AtLeastOne(limit)
      ensures old(counters.limit) != AtLeastOne(limit) ==> forall name :: name in partitions ==>
                partitions[name].limit == PartitionLimit(AtLeastOne(limit), partitions[name].percent)
    {
      counters.SetLimit(limit, partitions.Values);
    }

    method AddPartition(name: string, partition: Partition) returns (added: bool)
      requires Valid() && partition != unknownPartition
      modifies this, counters
      ensures added <==> name !in old(partitions)
      ensures partitions == if added then old(partitions)[name := partition] else old(partitions)
      ensures !added || partition in old(counters.known) ==> Valid() && counters.View() == old(counters.View())
      ensures added && partition !in old(counters.known) && partition.busy == 0 ==>
                && Valid()
                && counters.View() ==
                   Apply(old(counters.View()), Register(partition, partition.percent, partition.limit))
    {
      if name in partitions {
        return false;
      }
      counters.Know(partition);
      partitions := partitions[name := partition];
      return true;
    }

    /** The count returned is what the partition still has out; those tokens stay accounted for. */
    method RemovePartition(name: string) returns (busy: int, found: bool)
      requires Valid()
      modifies this
      ensures Valid() && (found <==> name in old(partitions))
      ensures partitions == old(partitions) - {name}
      ensures busy == if found then old(counters.tokens[partitions[name]]) else 0
    {
      if name !in partitions {
        assert partitions == partitions - {name};
        return 0, false;
      }
      busy, found := partitions[name].busy, true;
      assert counters.View().cells[partitions[name]].busy == counters.tokens[partitions[name]];
      partitions := partitions - {name};
    }
  }

  /** The overshoot bound of the Lookup variant: the unknown partition's own limit, which SetLimit
      never touches, counts like any other. */
  lemma LookupOvershoot<P>(ss: seq<Alloc<P>>, ops: seq<Op<P>>, i: nat, ps: seq<P>, unknown: P, top: int, least: int)
    requires IsRun(ss, ops) && i < |ss| && FreshLookup(ss[0], ps, unknown)
    requires ss[0].limit <= top && FixedPartitions(ops, top)
    requires forall j :: 0 <= j < |ops| && ops[j].SetLimit? ==> unknown !in ops[j].live
    requires var limits := LimitsAt(top, Percents(ss[0]))[unknown := AtLeastOne(ss[0].limit)];
             0 <= least && forall p :: p in ps + [unknown] ==> least <= limits[p]
    ensures var limits := LimitsAt(top, Percents(ss[0]))[unknown := AtLeastOne(ss[0].limit)];
            ss[i].busy <= Max(top, least) + Total(ps + [unknown], limits) - least
  {
    var all := ps + [unknown];
    var limits := LimitsAt(top, Percents(ss[0]))[unknown := AtLeastOne(ss[0].limit)];
    forall p | p in ps ensures ss[0].cells[p].limit <= limits[p] {
      assert p in (ss[0].cells - {unknown});
      PartitionLimitMonotone(ss[0].limit, top, ss[0].cells[p].percent);
    }
    forall j | 0 <= j < |ops| ensures Within(ss[j], ops[j], limits, Max(top, least)) {
      PercentsStay(ss, ops, top, j);
      if ops[j].SetLimit? {
        forall p | p in ops[j].live && p in ss[j].cells && p in limits
          ensures PartitionLimit(AtLeastOne(ops[j].total), ss[j].cells[p].percent) <= limits[p]
        {
          assert Percents(ss[j])[p] == Percents(ss[0])[p];
          assert p in ss[0].cells - {unknown};
          PartitionLimitMonotone(AtLeastOne(ops[j].total), top, ss[j].cells[p].percent);
        }
      }
    }
    OvershootIsBounded(ss, ops, i, all, limits, Max(top, least), least);
  }

  lemma {:induction false} SumOfAppended<P>(ps: seq<P>, last: P, m: map<P, int>)
    requires forall p :: p in ps + [last] ==> p in m
    ensures Total(ps + [last], m) == Total(ps, m) + m[last]
  {
    assert (ps + [last])[..|ps|] == ps;
  }

  /** In total: the unknown partition adds the limit the strategy was built with. */
  lemma LookupOvershootInTotal<P>(ss: seq<Alloc<P>>, ops: seq<Op<P>>, i: nat, ps: seq<P>, unknown: P, top: int)
    requires IsRun(ss, ops) && i < |ss| && FreshLookup(ss[0], ps, unknown)
    requires ss[0].limit <= top && FixedPartitions(ops, top)
    requires forall j :: 0 <= j < |ops| && ops[j].SetLimit? ==> unknown !in ops[j].live
    ensures top >= 1 ==> ss[i].busy <= 2 * top + AtLeastOne(ss[0].limit) + |ps| - 1
    ensures top < 1 ==> ss[i].busy <= |ps| + 1
  {
    var named := ss[0].(cells := ss[0].cells - {unknown});
    var limits := LimitsAt(top, Percents(ss[0]))[unknown := AtLeastOne(ss[0].limit)];
    forall p | p in ps ensures 0.0 <= Percents(named)[p] <= 1.0 {
      PercentAtMostSum(ps, Percents(named), p);
    }
    if top >= 1 {
      LimitsSum(ps, Percents(named), top);
    } else {
      LimitsSumOfNothing(ps, Percents(named), top);
    }
    SumSame(ps, LimitsAt(top, Percents(named)), limits);
    SumOfAppended(ps, unknown, limits);
    LookupOvershoot(ss, ops, i, ps, unknown, top, 1);
  }

  /** The bound of the Lookup variant is tight too, for every accepted configuration. */
  lemma LookupOvershootIsReached<P>(a0: Alloc<P>, ps: seq<P>, unknown: P, smallest: P)
    returns (ss: seq<Alloc<P>>, ops: seq<Op<P>>)
    requires FreshLookup(a0, ps, unknown) && smallest in ps + [unknown]
    ensures IsRun(ss, ops) && ss[0] == a0 && FixedPartitions(ops, a0.limit)
    ensures var limits := LimitsAt(a0.limit, Percents(a0))[unknown := AtLeastOne(a0.limit)];
            ss[|ss| - 1].busy == Max(a0.limit, limits[smallest]) + Total(ps + [unknown], limits) - limits[smallest]
  {
    var all := ps + [unknown];
    var limits := LimitsAt(a0.limit, Percents(a0))[unknown := AtLeastOne(a0.limit)];
    forall p | p in a0.cells
      ensures p in all && a0.cells[p].busy == 0 && a0.cells[p].limit == limits[p] >= 0
    {
      assert p == unknown || p in a0.cells - {unknown};
    }
    ss, ops := OvershootIsReached(a0, all, smallest);
    SumSame(all, Limits(a0), limits);
  }

  /** The repository's README says that unidentified callers may only use excess capacity.  The code
      does something else: once the limit is used up, the unknown partition is refused exactly
      when it holds as many tokens as the limit the strategy was built with. */
  lemma {:induction false} UnknownRefusedIff<P>(ss: seq<Alloc<P>>, ops: seq<Op<P>>, i: nat, ps: seq<P>, unknown: P)
    requires IsRun(ss, ops) && i < |ss| && FreshLookup(ss[0], ps, unknown)
    requires forall j :: 0 <= j < |ops| && ops[j].SetLimit? ==> unknown !in ops[j].live
    ensures unknown in ss[i].cells && ss[i].cells[unknown].limit == AtLeastOne(ss[0].limit)
    ensures ss[i].busy >= ss[i].limit ==>
              (!Admits(ss[i], unknown) <==> ss[i].tokens[unknown] >= AtLeastOne(ss[0].limit))
  {
    assert Accounted(ss[0]) by {
      forall p | p in ss[0].cells ensures ss[0].cells[p].busy == 0 {
        assert p == unknown || p in ss[0].cells - {unknown};
      }
    }
    RunKeepsAccounts(ss, ops, i);
    if i > 0 {
      UnknownRefusedIff(ss, ops, i - 1, ps, unknown);
    }
  }

  /** So from every configuration a run exists that fills the limit with identified callers and
      still admits an unidentified one. */
  lemma UnknownUsesMoreThanExcess<P>(a0: Alloc<P>, ps: seq<P>, unknown: P)
    returns (ss: seq<Alloc<P>>, ops: seq<Op<P>>)
    requires FreshLookup(a0, ps, unknown)
    ensures IsRun(ss, ops) && ss[0] == a0
    ensures ss[|ss| - 1].busy >= ss[|ss| - 1].limit && unknown in ss[|ss| - 1].cells
    ensures ss[|ss| - 1].cells[unknown].busy == 0 && Admits(ss[|ss| - 1], unknown)
  {
    assert ps[0] in ps && ps[0] in a0.cells - {unknown};
    ss, ops := FillOne([a0], [], ps[0], Max(0, a0.limit), a0.limit);
  }
}

/** The threshold functions of limit/functions and the tables they look values up in.  The square
    root and logarithm of an integer, truncated, are defined exactly; the real logarithm is a
    parameter. */
module LimitFunctions {
  import opened Basics

  /** int(math.Sqrt(n)). */
  function ISqrt(n: nat): (r: nat)
    ensures r * r <= n < (r + 1) * (r + 1)
  {
    if n == 0 then 0 else
      var r := ISqrt(n - 1);
      if (r + 1) * (r + 1) <= n then r + 1 else r
  }

  lemma ISqrtBounds(n: nat)
    ensures ISqrt(n) <= n
    ensures n >= 1 ==> ISqrt(n) >= 1
  {
    var r := ISqrt(n);
    assert r * r >= r;
    assert r == 0 ==> (r + 1) * (r + 1) == 1;
  }

  lemma SquareAtLeastDouble(r: nat)
    requires r >= 2
    ensures r * r >= 2 * r
  {}

  lemma ISqrtIsSmaller(n: nat)
    requires n >= 2
    ensures ISqrt(n) < n
  {
    if ISqrt(n) >= 2 {
      SquareAtLeastDouble(ISqrt(n));
    }
  }

  function Pow10(k: nat): nat { if k == 0 then 1 else 10 * Pow10(k - 1) }

  /** int(math.Log10(n)) for n >= 1. */
  function ILog10(n: nat): nat {
    if n < 10 then 0 else 1 + ILog10(n / 10)
  }

  lemma {:induction false} ILog10Meaning(n: nat)
    requires n >= 1
    ensures Pow10(ILog10(n)) <= n < Pow10(ILog10(n) + 1)
  {
    if n >= 10 {
      ILog10Meaning(n / 10);
    } else {
      assert Pow10(1) == 10;
    }
  }

  /** How long initSqrtFunc and initLog10RootFunc make their tables: at least 1000 entries. */
  function TableSize(env: Option<int>): (size: nat)
    ensures size >= 1000
  {
    if env.Some? && env.value > 1000 then env.value else 1000
  }

  predicate IsSqrtTable(table: seq<int>) {
    |table| >= 1000 && forall i :: 0 <= i < |table| ==> table[i] == Max(1, ISqrt(i))
  }

  predicate IsLog10Table(table: seq<int>) {
    |table| >= 1000 && forall i :: 0 <= i < |table| ==> table[i] == Max(1, ILog10(i))
  }

  /** `env` is the value of the environment variable, if it is set and a number. */
  method InitSqrtFunc(env: Option<int>) returns (table: seq<int>)
    ensures IsSqrtTable(table) && |table| == TableSize(env)
  {
    var val := 1000;
    if env.Some? { val := env.value; }
    if val < 1000 { val := 1000; }
    table := [];
    for i := 0 to val
      invariant |table| == i
      invariant forall j :: 0 <= j < i ==> table[j] == Max(1, ISqrt(j))
    {
      table := table + [Max(1, ISqrt(i))];
    }
  }

  /** The logarithm of 0 is minus infinity; the table's floor of 1 replaces it. */
  method InitLog10RootFunc(env: Option<int>) returns (table: seq<int>)
    ensures IsLog10Table(table) && |table| == TableSize(env)
  {
    var val := 1000;
    if env.Some? { val := env.value; }
    if val < 1000 { val := 1000; }
    table := [];
    for i := 0 to val
      invariant |table| == i
      invariant forall j :: 0 <= j < i ==> table[j] == Max(1, ILog10(j))
    {
      table := table + [Max(1, if i == 0 then 0 else ILog10(i))];
    }
  }

  /** SqrtRootFunction. */
  function SqrtRoot(table: seq<int>, baseline: int, n: nat): int {
    if n < |table| then Max(baseline, table[n]) else Max(baseline, ISqrt(n))
  }

  /** The table and the direct formula agree: both give max(baseline, 1, isqrt(n)). */
  lemma SqrtRootIsUniform(table: seq<int>, baseline: int, n: nat)
    requires IsSqrtTable(table)
    ensures SqrtRoot(table, baseline, n) == Max(baseline, Max(1, ISqrt(n)))
  {
    if n >= |table| {
      ISqrtBounds(n);
    }
  }

  /** Log10RootFunction. */
  function Log10Root(table: seq<int>, baseline: int, n: nat): int {
    baseline + if n < |table| then table[n] else ILog10(n)
  }

  /** The direct formula needs no floor of 1: it is used from 1000 on. */
  lemma Log10RootIsUniform(table: seq<int>, baseline: int, n: nat)
    requires IsLog10Table(table)
    ensures Log10Root(table, baseline, n) == baseline + Max(1, ILog10(n))
  {
    if n >= |table| {
      assert ILog10(n) == 1 + ILog10(n / 10);
    }
  }

  /** What the proofs need of math.Log10. */
  ghost predicate IsLog10(log10: real -> real) {
    log10(1.0) == 0.0 && forall x, y :: 1.0 <= x < y ==> log10(x) < log10(y)
  }

  /** Log10RootFloatFunction. */
  function Log10RootFloat(table: seq<int>, log10: real -> real, baseline: real, x: real): real
    requires x >= 0.0
  {
    baseline + if x.Floor < |table| then table[x.Floor] as real else log10(x)
  }

  /** The table's floor of 1 and the logarithm from 1000 on are both positive. */
  lemma Log10RootFloatIsPositive(table: seq<int>, log10: real -> real, x: real)
    requires IsLog10Table(table) && IsLog10(log10) && x >= 1.0
    ensures Log10RootFloat(table, log10, 0.0, x) > 0.0
  {
    if x.Floor >= |table| {
      assert log10(1.0) < log10(x);
    }
  }
}

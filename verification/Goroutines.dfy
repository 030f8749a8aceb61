/** Counting goroutines by phase.  A protocol state maps each goroutine to its phase;
    the counters kept by the program are compared with the number of goroutines whose
    phase satisfies a predicate. */
module Goroutines {

  /** The goroutines whose phase satisfies `p`. */
  ghost function Where<P(!new)>(pc: map<nat, P>, p: P -> bool): set<nat> {
    set g | g in pc && p(pc[g])
  }

  /** Moving one goroutine changes each count by at most one. */
  lemma WhereUpdate<P(!new)>(pc: map<nat, P>, g: nat, v: P, p: P -> bool)
    ensures |Where(pc[g := v], p)|
            == |Where(pc, p)| - (if g in pc && p(pc[g]) then 1 else 0) + (if p(v) then 1 else 0)
  {
    var before, after := Where(pc, p), Where(pc[g := v], p);
    if p(v) {
      assert after == before + {g};
    } else {
      assert after == before - {g};
    }
  }

  lemma WhereMember<P(!new)>(pc: map<nat, P>, p: P -> bool, g: nat)
    requires g in pc && p(pc[g])
    ensures |Where(pc, p)| >= 1
  {
    assert g in Where(pc, p);
  }

  lemma WhereWitness<P(!new)>(pc: map<nat, P>, p: P -> bool) returns (g: nat)
    requires |Where(pc, p)| >= 1
    ensures g in pc && p(pc[g])
  {
    var w :| w in Where(pc, p);
    g := w;
  }
}

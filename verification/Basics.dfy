/** Definitions shared by all modules. */
module Basics {

  datatype Option<T> = None | Some(value: T)

  function Max(a: int, b: int): int { if a > b then a else b }
  function Min(a: int, b: int): int { if a < b then a else b }
  function MaxReal(a: real, b: real): real { if a > b then a else b }
  function MinReal(a: real, b: real): real { if a < b then a else b }
  function Ceil(x: real): int { -(-x).Floor }

  lemma CeilMonotone(x: real, y: real)
    requires x <= y
    ensures Ceil(x) <= Ceil(y)
  {}

  lemma CeilAtMost(x: real, k: int)
    ensures k >= Ceil(x) <==> k as real >= x
  {}

  /** Every SetLimit raises a limit below 1 to 1. */
  function AtLeastOne(limit: int): int { if limit < 1 then 1 else limit }
}

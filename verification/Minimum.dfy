/** MinimumMeasurement (measurements/minimum.go): zero stands for "no value". */
module Minimum {

  /** The value after adding a sample. */
  function Added(value: real, sample: real): real {
    if value == 0.0 || sample < value then sample else value
  }

  /** `m` is the smallest of the (positive) samples `xs`, and 0 when there is none. */
  ghost predicate IsMinimum(m: real, xs: seq<real>) {
    && (xs == [] <==> m == 0.0)
    && (xs != [] ==> m in xs)
    && forall i :: 0 <= i < |xs| ==> 0.0 < m <= xs[i]
  }

  lemma AddedIsMinimum(m: real, xs: seq<real>, x: real)
    requires IsMinimum(m, xs) && x > 0.0
    ensures IsMinimum(Added(m, x), xs + [x])
  {
    assert x in xs + [x];
  }

  class MinimumMeasurement {
    var value: real

    constructor ()
      ensures value == 0.0
    {
      value := 0.0;
    }

    /** Answers the new value, and whether it is the same as before. */
    method Add(sample: real) returns (v: real, same: bool)
      modifies this
      ensures value == Added(old(value), sample) && v == value && (same <==> value == old(value))
    {
      var oldValue := value;
      if oldValue == 0.0 || sample < oldValue {
        value := sample;
      }
      return value, oldValue == value;
    }

    method Reset()
      modifies this
      ensures value == 0.0
    {
      value := 0.0;
    }
  }
}

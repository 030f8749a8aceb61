/** Sums of reals, and small facts about products. */
module Reals {
  import opened Basics

  /** The point a fraction `w` of the way from `a` to `b`. */
  function Blend(a: real, b: real, w: real): real { a + w * (b - a) }

  function Sum(xs: seq<real>): real {
    if xs == [] then 0.0 else Sum(xs[..|xs| - 1]) + xs[|xs| - 1]
  }

  lemma ProductNonNegative(x: real, y: real)
    requires x >= 0.0 && y >= 0.0
    ensures x * y >= 0.0
  {}

  lemma ScaledDown(w: real, d: real)
    requires 0.0 <= w <= 1.0 && d >= 0.0
    ensures 0.0 <= w * d <= d
  {
    ProductNonNegative(w, d);
    ProductNonNegative(1.0 - w, d);
    assert (1.0 - w) * d == d - w * d;
  }

  lemma BlendDown(a: real, b: real, w: real)
    requires b <= a && 0.0 <= w <= 1.0
    ensures b <= Blend(a, b, w) <= a
  {
    ScaledDown(w, a - b);
  }

  lemma BlendReversed(a: real, b: real, w: real)
    ensures Blend(a, b, w) == Blend(b, a, 1.0 - w)
  {}

  lemma BlendBetween(a: real, b: real, w: real, lo: real, hi: real)
    requires lo <= a <= hi && lo <= b <= hi && 0.0 <= w <= 1.0
    ensures lo <= Blend(a, b, w) <= hi
    ensures a <= b ==> a <= Blend(a, b, w) <= b
    ensures b <= a ==> b <= Blend(a, b, w) <= a
  {
    if a <= b {
      BlendDown(b, a, 1.0 - w);
      BlendReversed(a, b, w);
    } else {
      BlendDown(a, b, w);
    }
  }

  lemma BlendLowers(a: real, b: real, w: real, step: real)
    requires w > 0.0 && b < a && step == w * (a - b)
    ensures Blend(a, b, w) < a
  {
    PositiveProduct(w, a - b, step);
    assert Blend(a, b, w) == a - step;
  }

  lemma BlendLowersIff(a: real, b: real, w: real)
    requires 0.0 <= w <= 1.0
    ensures Blend(a, b, w) < a <==> w > 0.0 && b < a
  {
    if w > 0.0 && b < a {
      BlendLowers(a, b, w, w * (a - b));
    } else if b >= a {
      ProductNonNegative(w, b - a);
    } else {
      assert Blend(a, b, 0.0) == a;
    }
  }

  /** The form in which the programs write it. */
  lemma BlendAsWritten(a: real, b: real, w: real)
    ensures (1.0 - w) * a + w * b == Blend(a, b, w)
  {}

  method Smooth(a: real, b: real, w: real) returns (r: real)
    ensures r == Blend(a, b, w)
  {
    BlendAsWritten(a, b, w);
    r := a * (1.0 - w) + b * w;
  }

  lemma ProductMonotone(x: real, y: real, k: real)
    requires x <= y && k >= 0.0
    ensures x * k <= y * k
  {
    ProductNonNegative(y - x, k);
    assert (y - x) * k == y * k - x * k;
  }

  lemma ScaledComparison(x: real, y: real, k: real)
    requires k > 0.0
    ensures x <= y <==> x * k <= y * k
  {
    if x <= y {
      ProductMonotone(x, y, k);
    } else {
      PositiveProduct(x - y, k, (x - y) * k);
      assert (x - y) * k == x * k - y * k;
    }
  }

  lemma RatioBetween(a: real, b: real)
    requires 0.0 <= a <= b && b > 0.0
    ensures 0.0 <= a / b <= 1.0
  {
    var r := a / b;
    assert r * b == a;
    if r < 0.0 {
      ProductNegative(r, b);
    } else if r > 1.0 {
      ProductPositive(r - 1.0, b);
    }
  }

  lemma InverseAtLeastOne(x: real)
    requires 0.0 < x <= 1.0
    ensures 1.0 / x >= 1.0
  {
    var r := 1.0 / x;
    assert r * x == 1.0;
    if r < 1.0 {
      ProductPositive(1.0 - r, x);
    }
  }

  lemma ProductNegative(x: real, y: real)
    requires x < 0.0 && y > 0.0
    ensures x * y < 0.0
  {}

  lemma ProductPositive(x: real, y: real)
    requires x > 0.0 && y > 0.0
    ensures x * y > 0.0
  {}

  /** ProductPositive for a product that has a name. */
  lemma PositiveProduct(x: real, y: real, z: real)
    requires x > 0.0 && y > 0.0 && z == x * y
    ensures z > 0.0
  {}

  lemma IntProductPositive(x: int, y: int)
    requires x >= 1 && y >= 1
    ensures x * y >= 1
  {}

  lemma CastProduct(x: int, y: int)
    ensures (x * y) as real == x as real * y as real
  {}

  lemma FloorAtMost(x: real, k: int)
    requires x <= k as real
    ensures x.Floor <= k
  {}

  /** A ratio kept between a half and 1, as both gradient algorithms do. */
  function ClampedRatio(base: real, short: real): real
    requires short > 0.0
  {
    MaxReal(0.5, MinReal(1.0, base / short))
  }

  /** It is the ratio where that is between a half and 1, a half where `short` is at least twice `base`, and
      1 where it is not more. */
  lemma ClampedRatioMeaning(base: real, short: real)
    requires short > 0.0
    ensures var g := ClampedRatio(base, short);
            && (g == 1.0 <==> short <= base) && (g == 0.5 <==> short >= 2.0 * base)
            && (base < short < 2.0 * base ==> g == base / short)
            && (base <= short <= 2.0 * base ==> g * short == base)
  {
    var ratio := base / short;
    RatioComparison(base, short, ratio, 1.0);
    RatioComparison(base, short, ratio, 0.5);
    assert ratio * short == base;
  }

  lemma RatioComparison(base: real, short: real, ratio: real, k: real)
    requires short > 0.0 && ratio == base / short
    ensures (ratio <= k <==> base <= k * short) && (ratio >= k <==> base >= k * short)
  {
    assert ratio * short == base;
    ScaledComparison(ratio, k, short);
    ScaledComparison(k, ratio, short);
  }

  /** `e` scaled by that ratio, case by case. */
  function Scaled(e: real, base: real, short: real): real
    requires short > 0.0
  {
    if short <= base then e else if short >= 2.0 * base then e / 2.0 else e * base / short
  }

  lemma ScaledByRatio(e: real, base: real, short: real)
    requires short > 0.0
    ensures e * ClampedRatio(base, short) == Scaled(e, base, short)
  {
    ClampedRatioMeaning(base, short);
    if base < short < 2.0 * base {
      assert e * (base / short) == e * base / short;
    }
  }
}

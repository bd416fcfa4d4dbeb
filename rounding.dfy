/**
 * `Math.round` of the non-negative ratios behind every percentage on screen,
 * computed exactly on integers instead of on IEEE doubles.
 */
module Rounding {
  import opened Collections

  /** `Math.round(num / den)` for `num >= 0`, `den > 0`: the floor of `num / den + 1/2`. */
  function RoundRatio(num: nat, den: nat): (r: nat)
    requires den > 0
    ensures 2 * den * r <= 2 * num + den < 2 * den * (r + 1)
  {
    (2 * num + den) / (2 * den)
  }

  /** `Math.round((part / whole) * 100)` for `whole > 0`. */
  function RoundedPercent(part: nat, whole: nat): (r: nat)
    requires whole > 0
  {
    RoundRatio(100 * part, whole)
  }

  /** A share of at most the whole rounds to at most 100 percent; the whole is exactly 100. */
  lemma RoundedPercentBounds(part: nat, whole: nat)
    requires whole > 0
    ensures part <= whole ==> RoundedPercent(part, whole) <= 100
    ensures part == whole ==> RoundedPercent(part, whole) == 100
    ensures part == 0 ==> RoundedPercent(part, whole) == 0
  {
    var r := RoundedPercent(part, whole);
    if part <= whole {
      MulMonotone(2 * whole, 100 * part, 100 * whole);
      if r > 100 {
        MulMonotone(2 * whole, 101, r);
      }
    }
    if part == whole {
      if r < 100 {
        MulMonotone(2 * whole, r + 1, 100);
      }
    }
    if part == 0 && r > 0 {
      MulMonotone(2 * whole, 1, r);
    }
  }

  /** More completions never round to a lower percentage. */
  lemma RoundedPercentMonotone(a: nat, b: nat, whole: nat)
    requires whole > 0 && a <= b
    ensures RoundedPercent(a, whole) <= RoundedPercent(b, whole)
  {
    var ra, rb := RoundedPercent(a, whole), RoundedPercent(b, whole);
    if ra > rb {
      MulMonotone(2 * whole, rb + 1, ra);
    }
  }

  /** A ratio between two whole bounds rounds to a value between them. */
  lemma RoundRatioBetween(num: nat, den: nat, lo: int, hi: int)
    requires den > 0
    requires lo * den <= num <= hi * den
    ensures lo <= RoundRatio(num, den) <= hi
  {
    var r := RoundRatio(num, den);
    if r > hi {
      MulMonotone(2 * den, hi + 1, r);
    }
    if r < lo {
      MulMonotone(2 * den, r + 1, lo);
    }
  }

  /** `Math.round(xs.reduce((sum, x) => sum + x, 0) / xs.length)` of non-negative values. */
  function RoundedMean(xs: seq<int>): (m: nat)
    requires xs != []
    requires forall k :: 0 <= k < |xs| ==> xs[k] >= 0
    ensures 2 * |xs| * m <= 2 * Sum(xs) + |xs| < 2 * |xs| * (m + 1)
    ensures m <= MaxOr(xs, 0)
  {
    var hi := MaxOr(xs, 0);
    assert forall k :: 0 <= k < |xs| ==> xs[k] <= hi by {
      forall k | 0 <= k < |xs| ensures xs[k] <= hi {
        assert xs[k] in xs;
      }
    }
    SumBounds(xs, 0, hi);
    RoundRatioBetween(Sum(xs), |xs|, 0, hi);
    RoundRatio(Sum(xs), |xs|)
  }

  /**
   * The threshold chain `>= 90`, `>= 75`, `>= 50`, `>= 25`, checked from the top:
   * 0 for the best band, 4 for below every threshold.
   */
  function Tier(rate: int): (t: nat)
    ensures t <= 4
    ensures t == 0 <==> rate >= 90
    ensures t == 1 <==> 75 <= rate < 90
    ensures t == 2 <==> 50 <= rate < 75
    ensures t == 3 <==> 25 <= rate < 50
    ensures t == 4 <==> rate < 25
  {
    if rate >= 90 then 0
    else if rate >= 75 then 1
    else if rate >= 50 then 2
    else if rate >= 25 then 3
    else 4
  }

  /** A higher rate never lands in a worse band. */
  lemma TierMonotone(a: int, b: int)
    requires a <= b
    ensures Tier(b) <= Tier(a)
  {
  }

  lemma MulMonotone(c: nat, x: int, y: int)
    requires x <= y
    ensures c * x <= c * y
  {
  }
}

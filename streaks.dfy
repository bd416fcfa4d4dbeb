/**
 * The two notions both trackers derive from a set of completed days: the
 * streak (how many consecutive days, counting back from today, are
 * completed) and the ascending, duplicate-free list of the completed days.
 */
module Streaks {
  import opened Dates
  import opened Collections

  /** The completed days up to and including `today`: what the backward walk can still visit. */
  function DaysUpTo(done: set<Day>, today: Day): set<Day> {
    set d | d in done && d <= today
  }

  /** `k` is the streak ending at `today`: the `k` days back from today are done, the one before is not. */
  predicate IsRun(done: set<Day>, today: Day, k: nat) {
    && (forall d :: today - k < d <= today ==> d in done)
    && today - k !in done
  }

  /** The length of the run of consecutive done days that ends at `today`. */
  function RunLength(done: set<Day>, today: Day): (k: nat)
    ensures IsRun(done, today, k)
    ensures k == 0 <==> today !in done
    decreases DaysUpTo(done, today)
  {
    if today in done then
      assert today in DaysUpTo(done, today) && today !in DaysUpTo(done, today - 1);
      assert DaysUpTo(done, today - 1) < DaysUpTo(done, today);
      1 + RunLength(done, today - 1)
    else 0
  }

  /** There is only one run length: the walk stops at the first gap. */
  lemma {:induction false} RunLengthUnique(done: set<Day>, today: Day, k: nat)
    requires IsRun(done, today, k)
    ensures k == RunLength(done, today)
    decreases k
  {
    if k > 0 {
      assert today in done;
      RunLengthUnique(done, today - 1, k - 1);
    }
  }

  /** The run ending at `today` depends only on which days up to `today` are done. */
  lemma RunLengthAgreesBelow(a: set<Day>, b: set<Day>, today: Day)
    requires forall d :: d <= today ==> (d in a <==> d in b)
    ensures RunLength(a, today) == RunLength(b, today)
  {
    var k := RunLength(a, today);
    assert today - k <= today;
    RunLengthUnique(b, today, k);
  }

  /** Changing one day outside the run and its closing gap leaves the run alone. */
  lemma RunLengthAwayFromRun(a: set<Day>, b: set<Day>, today: Day, t: Day)
    requires forall d :: d != t ==> (d in a <==> d in b)
    requires t > today || t < today - RunLength(a, today)
    ensures RunLength(b, today) == RunLength(a, today)
  {
    var k := RunLength(a, today);
    assert t != today - k;
    RunLengthUnique(b, today, k);
  }

  /** A done `today` extends the run ending yesterday by one. */
  lemma RunLengthStep(done: set<Day>, today: Day)
    requires today in done
    ensures RunLength(done, today) == 1 + RunLength(done, today - 1)
  {
  }

  // ---------------------------------------------------------------------------
  // The ascending list of done days
  // ---------------------------------------------------------------------------

  lemma HasElement(s: set<Day>)
    requires s != {}
    ensures exists y :: y in s
  {
    if forall y :: y !in s { assert false; }
  }

  lemma {:induction false} MinExists(s: set<Day>)
    requires s != {}
    ensures exists m :: m in s && forall x :: x in s ==> m <= x
    decreases s
  {
    HasElement(s);
    var y :| y in s;
    if s != {y} {
      MinExists(s - {y});
      var m :| m in s - {y} && forall x :: x in s - {y} ==> m <= x;
      var least := if y < m then y else m;
      forall x | x in s ensures least <= x {
        if x != y { assert x in s - {y}; }
      }
    }
  }

  /** The earliest day of a non-empty set. */
  function MinDay(s: set<Day>): (m: Day)
    requires s != {}
    ensures m in s && forall x :: x in s ==> m <= x
  {
    MinExists(s);
    var m :| m in s && forall x :: x in s ==> m <= x;
    m
  }

  /** The days of `s` in ascending order, each once (`keys.filter(...).sort()` on `full-date` keys). */
  function SortedDays(s: set<Day>): (r: seq<Day>)
    ensures StrictlyIncreasing(r)
    ensures forall d :: d in r <==> d in s
    ensures |r| == |s|
    decreases s
  {
    if s == {} then []
    else
      var m := MinDay(s);
      var rest := SortedDays(s - {m});
      assert forall k :: 0 <= k < |rest| ==> m < rest[k] by {
        forall k | 0 <= k < |rest| ensures m < rest[k] {
          assert rest[k] in s - {m};
        }
      }
      [m] + rest
  }

  /** A strictly increasing list holding exactly the days of `s` is `SortedDays(s)`: the order is forced. */
  lemma {:induction false} SortedDaysUnique(xs: seq<Day>, s: set<Day>)
    requires StrictlyIncreasing(xs)
    requires forall d :: d in xs <==> d in s
    ensures xs == SortedDays(s)
    decreases |xs|
  {
    if xs == [] {
      if s != {} {
        HasElement(s);
        assert false;
      }
    } else {
      TailHoldsRest(xs, s);
      SortedDaysUnique(xs[1..], s - {xs[0]});
      SortedDaysStep(xs, s);
    }
  }

  /** A list that starts with the least day and goes on with the rest in order is the ordered list. */
  lemma SortedDaysStep(xs: seq<Day>, s: set<Day>)
    requires StrictlyIncreasing(xs) && xs != []
    requires forall d :: d in xs <==> d in s
    requires xs[1..] == SortedDays(s - {xs[0]})
    ensures xs == SortedDays(s)
  {
    HeadIsMin(xs, s);
    SortedDaysUnfold(s);
    assert xs == [xs[0]] + xs[1..];
  }

  lemma SortedDaysUnfold(s: set<Day>)
    requires s != {}
    ensures SortedDays(s) == [MinDay(s)] + SortedDays(s - {MinDay(s)})
  {
  }

  lemma HeadIsMin(xs: seq<Day>, s: set<Day>)
    requires StrictlyIncreasing(xs) && xs != []
    requires forall d :: d in xs <==> d in s
    ensures s != {} && xs[0] == MinDay(s)
  {
    assert xs[0] in xs;
    var m := MinDay(s);
    assert m in xs;
    assert forall j :: 0 <= j < |xs| ==> xs[0] <= xs[j];
  }

  lemma TailHoldsRest(xs: seq<Day>, s: set<Day>)
    requires StrictlyIncreasing(xs) && xs != []
    requires forall d :: d in xs <==> d in s
    ensures StrictlyIncreasing(xs[1..])
    ensures forall d :: d in xs[1..] <==> d in s - {xs[0]}
  {
    var tail := xs[1..];
    forall d | d in tail ensures d in s - {xs[0]} {
      var j :| 0 <= j < |tail| && tail[j] == d;
      assert xs[j + 1] == d && xs[0] < xs[j + 1];
    }
    forall d | d in s - {xs[0]} ensures d in tail {
      assert d in xs;
      var j :| 0 <= j < |xs| && xs[j] == d;
      assert tail[j - 1] == d;
    }
  }
}

/**
 * Sequence operations the source gets from `Array.prototype`: `filter`,
 * `filter(...).length`, `includes`, the stable `sort` with a key comparator,
 * and `Math.max(...xs, floor)`.
 */
module Collections {

  // ---------------------------------------------------------------------------
  // filter and counting
  // ---------------------------------------------------------------------------

  /** `xs.filter(p)`. */
  function Filter<T>(xs: seq<T>, p: T -> bool): (r: seq<T>)
    ensures |r| <= |xs|
    ensures forall k :: 0 <= k < |r| ==> p(r[k]) && r[k] in xs
    ensures forall k :: 0 <= k < |xs| && p(xs[k]) ==> xs[k] in r
  {
    if xs == [] then []
    else if p(xs[|xs| - 1]) then Filter(xs[..|xs| - 1], p) + [xs[|xs| - 1]]
    else Filter(xs[..|xs| - 1], p)
  }

  /** `xs.filter(p).length`. */
  function CountWhere<T>(xs: seq<T>, p: T -> bool): (n: nat)
    ensures n <= |xs|
  {
    |Filter(xs, p)|
  }

  /** `a` is `b` with some elements left out and the rest kept in order. */
  predicate IsSubsequence<T(==)>(a: seq<T>, b: seq<T>) {
    if a == [] then true
    else if b == [] then false
    else if a[|a| - 1] == b[|b| - 1] then IsSubsequence(a[..|a| - 1], b[..|b| - 1])
    else IsSubsequence(a, b[..|b| - 1])
  }

  lemma {:induction false} SubsequenceOfPrefix<T>(a: seq<T>, b: seq<T>, x: T)
    requires IsSubsequence(a, b)
    ensures IsSubsequence(a, b + [x])
    decreases |a| + |b| + 1
  {
    var bx := b + [x];
    assert bx[..|bx| - 1] == b;
    if a != [] && a[|a| - 1] == x {
      // keep `x` out of the match and use the original match inside `b`
      SubsequenceWithoutLast(a, b);
      SubsequenceOfPrefix(a[..|a| - 1], b, x);
    }
  }

  lemma {:induction false} SubsequenceWithoutLast<T>(a: seq<T>, b: seq<T>)
    requires a != [] && IsSubsequence(a, b)
    ensures IsSubsequence(a[..|a| - 1], b)
    decreases |a| + |b|
  {
    if b != [] {
      var b' := b[..|b| - 1];
      if a[|a| - 1] == b[|b| - 1] {
        SubsequenceOfPrefix(a[..|a| - 1], b', b[|b| - 1]);
        assert b' + [b[|b| - 1]] == b;
      } else {
        SubsequenceWithoutLast(a, b');
        SubsequenceOfPrefix(a[..|a| - 1], b', b[|b| - 1]);
        assert b' + [b[|b| - 1]] == b;
      }
    }
  }

  /** A filter keeps the order of what it keeps. */
  lemma {:induction false} FilterIsSubsequence<T>(xs: seq<T>, p: T -> bool)
    ensures IsSubsequence(Filter(xs, p), xs)
  {
    if xs != [] {
      var init, last := xs[..|xs| - 1], xs[|xs| - 1];
      FilterIsSubsequence(init, p);
      if p(last) {
        var r := Filter(xs, p);
        assert r[..|r| - 1] == Filter(init, p);
      } else {
        SubsequenceOfPrefix(Filter(init, p), init, last);
        assert init + [last] == xs;
      }
    }
  }

  /** Always-true filters return the sequence itself. */
  lemma {:induction false} FilterAll<T>(xs: seq<T>, p: T -> bool)
    requires forall k :: 0 <= k < |xs| ==> p(xs[k])
    ensures Filter(xs, p) == xs
  {
    if xs != [] {
      FilterAll(xs[..|xs| - 1], p);
      assert xs[..|xs| - 1] + [xs[|xs| - 1]] == xs;
    }
  }

  /** Always-false filters return nothing. */
  lemma {:induction false} FilterNone<T>(xs: seq<T>, p: T -> bool)
    requires forall k :: 0 <= k < |xs| ==> !p(xs[k])
    ensures Filter(xs, p) == []
  {
    if xs != [] {
      FilterNone(xs[..|xs| - 1], p);
    }
  }

  /** Filtering by `p` and by its negation splits the sequence: the parts' multisets add up to it. */
  lemma {:induction false} FilterPartition<T>(xs: seq<T>, p: T -> bool, q: T -> bool)
    requires forall k :: 0 <= k < |xs| ==> q(xs[k]) == !p(xs[k])
    ensures multiset(Filter(xs, p)) + multiset(Filter(xs, q)) == multiset(xs)
    ensures CountWhere(xs, p) + CountWhere(xs, q) == |xs|
  {
    if xs != [] {
      var init, x := xs[..|xs| - 1], xs[|xs| - 1];
      FilterPartition(init, p, q);
      assert xs == init + [x];
      var a, b := Filter(init, p), Filter(init, q);
      assert multiset(a) + multiset(b) == multiset(init);
      assert multiset(xs) == multiset(init) + multiset{x};
      if p(x) {
        assert Filter(xs, p) == a + [x];
        assert Filter(xs, q) == b;
        assert multiset(a + [x]) == multiset(a) + multiset{x};
      } else {
        assert Filter(xs, p) == a;
        assert Filter(xs, q) == b + [x];
        assert multiset(b + [x]) == multiset(b) + multiset{x};
      }
    }
  }

  /** Counting with a weaker predicate never gives less. */
  lemma {:induction false} CountMonotone<T>(xs: seq<T>, p: T -> bool, q: T -> bool)
    requires forall k :: 0 <= k < |xs| ==> p(xs[k]) ==> q(xs[k])
    ensures CountWhere(xs, p) <= CountWhere(xs, q)
  {
    if xs != [] {
      CountMonotone(xs[..|xs| - 1], p, q);
    }
  }

  /** Filtering commutes with taking prefixes one element at a time. */
  lemma FilterSnoc<T>(xs: seq<T>, x: T, p: T -> bool)
    ensures Filter(xs + [x], p) == if p(x) then Filter(xs, p) + [x] else Filter(xs, p)
  {
    assert (xs + [x])[..|xs + [x]| - 1] == xs;
  }

  // ---------------------------------------------------------------------------
  // Stable sorting by an integer key
  // ---------------------------------------------------------------------------

  /** Non-decreasing in `key`. */
  predicate SortedBy<T>(xs: seq<T>, key: T -> int) {
    forall i, j :: 0 <= i < j < |xs| ==> key(xs[i]) <= key(xs[j])
  }

  /** Puts `x` after every element whose key is at most `key(x)`, so equal keys keep their order. */
  function InsertBy<T>(xs: seq<T>, x: T, key: T -> int): (r: seq<T>)
    ensures multiset(r) == multiset(xs) + multiset{x}
    ensures |r| == |xs| + 1
    ensures SortedBy(xs, key) ==> SortedBy(r, key)
  {
    if xs == [] || key(xs[|xs| - 1]) <= key(x) then xs + [x]
    else
      var init, last := xs[..|xs| - 1], xs[|xs| - 1];
      assert init + [last] == xs;
      var r := InsertBy(init, x, key);
      InsertBelow(init, x, last, r, key);
      r + [last]
  }

  lemma InsertBelow<T>(init: seq<T>, x: T, last: T, r: seq<T>, key: T -> int)
    requires multiset(r) == multiset(init) + multiset{x}
    requires key(x) < key(last)
    ensures SortedBy(init + [last], key) ==> forall k :: 0 <= k < |r| ==> key(r[k]) <= key(last)
  {
    forall k | 0 <= k < |r| && SortedBy(init + [last], key) ensures key(r[k]) <= key(last) {
      assert r[k] in multiset(r);
      if r[k] != x {
        assert r[k] in multiset(init);
        var j :| 0 <= j < |init| && init[j] == r[k];
        assert (init + [last])[j] == init[j] && (init + [last])[|init|] == last;
      }
    }
  }

  /**
   * `xs.sort((a, b) => key(a) - key(b))`: the stable sort the source uses,
   * modelled as insertion of each element in turn.
   */
  function SortBy<T>(xs: seq<T>, key: T -> int): (r: seq<T>)
    ensures multiset(r) == multiset(xs) && |r| == |xs|
    ensures SortedBy(r, key)
  {
    if xs == [] then []
    else
      var init := xs[..|xs| - 1];
      assert init + [xs[|xs| - 1]] == xs;
      InsertBy(SortBy(init, key), xs[|xs| - 1], key)
  }

  /** Two permutations of each other hold the same elements. */
  lemma SameMembers<T>(a: seq<T>, b: seq<T>)
    requires multiset(a) == multiset(b)
    ensures forall k :: 0 <= k < |b| ==> b[k] in a
    ensures forall x :: x in a ==> x in b
  {
    forall x ensures x in a <==> x in b {
      assert x in a <==> x in multiset(a);
      assert x in b <==> x in multiset(b);
    }
  }

  /** The first element of a sorted permutation has the least key. */
  lemma SortByFirstIsLeast<T>(xs: seq<T>, key: T -> int)
    requires xs != []
    ensures SortBy(xs, key)[0] in xs
    ensures forall k :: 0 <= k < |xs| ==> key(SortBy(xs, key)[0]) <= key(xs[k])
  {
    var r := SortBy(xs, key);
    assert r[0] in multiset(r);
    forall k | 0 <= k < |xs| ensures key(r[0]) <= key(xs[k]) {
      assert xs[k] in multiset(xs);
      assert xs[k] in r;
      var j :| 0 <= j < |r| && r[j] == xs[k];
      if j > 0 { assert key(r[0]) <= key(r[j]); }
    }
  }

  /** A sequence strictly increasing in its values: sorted and free of duplicates. */
  predicate StrictlyIncreasing(xs: seq<int>) {
    forall i, j :: 0 <= i < j < |xs| ==> xs[i] < xs[j]
  }

  /** The identity key: `sort()` on values that compare as themselves. */
  function Itself(): int -> int {
    (x: int) => x
  }

  /** Filtering a strictly increasing sequence leaves it strictly increasing. */
  lemma {:induction false} FilterKeepsIncreasing(xs: seq<int>, p: int -> bool)
    requires StrictlyIncreasing(xs)
    ensures StrictlyIncreasing(Filter(xs, p))
  {
    if xs != [] {
      var init, last := xs[..|xs| - 1], xs[|xs| - 1];
      FilterKeepsIncreasing(init, p);
      var f := Filter(init, p);
      forall k | 0 <= k < |f| ensures f[k] < last {
        var j :| 0 <= j < |init| && init[j] == f[k];
        assert xs[j] < xs[|xs| - 1];
      }
    }
  }

  /** A strictly increasing sequence holds each value at most once. */
  lemma {:induction false} IncreasingHasNoRepeats(xs: seq<int>, x: int)
    requires StrictlyIncreasing(xs)
    ensures multiset(xs)[x] <= 1
  {
    if xs != [] {
      var init, last := xs[..|xs| - 1], xs[|xs| - 1];
      IncreasingHasNoRepeats(init, x);
      assert init + [last] == xs;
      if x == last {
        assert forall j :: 0 <= j < |init| ==> init[j] < last by {
          forall j | 0 <= j < |init| ensures init[j] < last {
            assert xs[j] < xs[|xs| - 1];
          }
        }
        assert x !in init;
      }
    }
  }

  /** A value at two positions is counted twice. */
  lemma RepeatCountsTwice(xs: seq<int>, i: nat, j: nat)
    requires i < j < |xs| && xs[i] == xs[j]
    ensures multiset(xs)[xs[i]] >= 2
  {
    assert xs == xs[..j] + xs[j..];
    assert xs[i] in xs[..j];
    assert xs[j..][0] == xs[j];
  }

  /** Sorted and without repeated values means strictly increasing. */
  lemma SortedWithoutRepeats(xs: seq<int>)
    requires SortedBy(xs, Itself())
    requires forall x :: multiset(xs)[x] <= 1
    ensures StrictlyIncreasing(xs)
  {
    forall i, j | 0 <= i < j < |xs| ensures xs[i] < xs[j] {
      assert Itself()(xs[i]) <= Itself()(xs[j]);
      if xs[i] == xs[j] {
        RepeatCountsTwice(xs, i, j);
        assert false;
      }
    }
  }

  /** Counting with `p` where `p` holds exactly when one of two exclusive predicates does. */
  lemma {:induction false} CountSplit<T>(xs: seq<T>, p: T -> bool, q: T -> bool, r: T -> bool)
    requires forall k :: 0 <= k < |xs| ==> (p(xs[k]) <==> q(xs[k]) || r(xs[k]))
    requires forall k :: 0 <= k < |xs| ==> !(q(xs[k]) && r(xs[k]))
    ensures CountWhere(xs, p) == CountWhere(xs, q) + CountWhere(xs, r)
  {
    if xs != [] {
      CountSplit(xs[..|xs| - 1], p, q, r);
    }
  }

  // ---------------------------------------------------------------------------
  // reduce((sum, x) => sum + x, 0)
  // ---------------------------------------------------------------------------

  function Sum(xs: seq<int>): int {
    if xs == [] then 0 else Sum(xs[..|xs| - 1]) + xs[|xs| - 1]
  }

  /** A sum of values within bounds lies within the bounds times the count. */
  lemma {:induction false} SumBounds(xs: seq<int>, lo: int, hi: int)
    requires forall k :: 0 <= k < |xs| ==> lo <= xs[k] <= hi
    ensures lo * |xs| <= Sum(xs) <= hi * |xs|
  {
    if xs != [] {
      var n := |xs| - 1;
      SumBounds(xs[..n], lo, hi);
      assert lo * (n + 1) == lo * n + lo && hi * (n + 1) == hi * n + hi;
    }
  }

  // ---------------------------------------------------------------------------
  // Math.max(...xs, floor)
  // ---------------------------------------------------------------------------

  /** `Math.max(...xs, floor)`. */
  function MaxOr(xs: seq<int>, floor: int): (m: int)
    ensures m >= floor
    ensures forall x :: x in xs ==> x <= m
    ensures m == floor || m in xs
  {
    if xs == [] then floor
    else
      var rest := MaxOr(xs[..|xs| - 1], floor);
      assert forall x :: x in xs ==> x in xs[..|xs| - 1] || x == xs[|xs| - 1];
      if xs[|xs| - 1] > rest then xs[|xs| - 1] else rest
  }
}

// List.sort with a Comparator. Java's sort is stable, so for a comparator that
// keeps the Comparator contract its result is the stable insertion sort below.

module Sorting {

  /** The Comparator contract: the sign flips with the arguments and `<= 0` is transitive. */
  ghost predicate IsTotalPreorder<T(!new)>(cmp: (T, T) -> int)
  {
    (forall x: T, y: T :: cmp(x, y) >= 0 ==> cmp(y, x) <= 0)
    && (forall x: T, y: T, z: T :: cmp(x, y) <= 0 && cmp(y, z) <= 0 ==> cmp(x, z) <= 0)
  }

  predicate SortedBy<T>(s: seq<T>, cmp: (T, T) -> int)
  {
    forall i, j | 0 <= i < j < |s| :: cmp(s[i], s[j]) <= 0
  }

  /** Inserts `x` after every element of `r` that does not compare greater than it. */
  function InsertSorted<T>(x: T, r: seq<T>, cmp: (T, T) -> int): (q: seq<T>)
    ensures multiset(q) == multiset(r) + multiset{x}
    ensures |q| == |r| + 1
  {
    if |r| == 0 then [x]
    else if cmp(x, r[|r| - 1]) < 0 then
      assert r == r[..|r| - 1] + [r[|r| - 1]];
      InsertSorted(x, r[..|r| - 1], cmp) + [r[|r| - 1]]
    else r + [x]
  }

  /** Stable insertion sort. */
  function SortBy<T>(s: seq<T>, cmp: (T, T) -> int): (r: seq<T>)
    ensures multiset(r) == multiset(s)
    ensures |r| == |s|
  {
    if |s| == 0 then []
    else
      assert s == s[..|s| - 1] + [s[|s| - 1]];
      InsertSorted(s[|s| - 1], SortBy(s[..|s| - 1], cmp), cmp)
  }

  lemma AppendGreatest<T>(q: seq<T>, y: T, cmp: (T, T) -> int)
    requires SortedBy(q, cmp)
    requires forall k | 0 <= k < |q| :: cmp(q[k], y) <= 0
    ensures SortedBy(q + [y], cmp)
  {
    forall i, j | 0 <= i < j < |q| + 1 ensures cmp((q + [y])[i], (q + [y])[j]) <= 0 {
      if j < |q| {
        assert (q + [y])[i] == q[i] && (q + [y])[j] == q[j];
      }
    }
  }

  lemma {:induction false} InsertSortedSorted<T(!new)>(x: T, r: seq<T>, cmp: (T, T) -> int)
    requires IsTotalPreorder(cmp) && SortedBy(r, cmp)
    ensures SortedBy(InsertSorted(x, r, cmp), cmp)
    decreases |r|
  {
    if |r| > 0 {
      var last := r[|r| - 1];
      var init := r[..|r| - 1];
      if cmp(x, last) < 0 {
        InsertSortedSorted(x, init, cmp);
        var q := InsertSorted(x, init, cmp);
        forall k | 0 <= k < |q| ensures cmp(q[k], last) <= 0 {
          assert q[k] in multiset(q);
          if q[k] != x {
            assert q[k] in multiset(init);
            var m :| 0 <= m < |init| && init[m] == q[k];
            assert r[m] == q[k];
          }
        }
        AppendGreatest(q, last, cmp);
      } else {
        assert cmp(last, x) <= 0;
        forall k | 0 <= k < |r| ensures cmp(r[k], x) <= 0 {
          if k < |r| - 1 {
            assert cmp(r[k], last) <= 0;
          }
        }
        AppendGreatest(r, x, cmp);
      }
    }
  }

  /** The sort's result is ordered by the comparator and is a permutation of its input. */
  lemma {:induction false} SortBySorted<T(!new)>(s: seq<T>, cmp: (T, T) -> int)
    requires IsTotalPreorder(cmp)
    ensures SortedBy(SortBy(s, cmp), cmp)
    ensures multiset(SortBy(s, cmp)) == multiset(s)
    decreases |s|
  {
    if |s| > 0 {
      SortBySorted(s[..|s| - 1], cmp);
      InsertSortedSorted(s[|s| - 1], SortBy(s[..|s| - 1], cmp), cmp);
    }
  }
}

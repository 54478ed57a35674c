// Stream and collection steps used by the queries: filter, and listing the
// members of a set in some order.

module Streams {
  import Sorting

  /** stream().filter(p): the elements that pass, in their original order. */
  function Filter<T>(s: seq<T>, p: T -> bool): (r: seq<T>)
    ensures |r| <= |s|
    ensures forall i | 0 <= i < |r| :: r[i] in s && p(r[i])
    ensures forall i | 0 <= i < |s| :: p(s[i]) ==> s[i] in r
  {
    if s == [] then []
    else if p(s[0]) then [s[0]] + Filter(s[1..], p)
    else Filter(s[1..], p)
  }

  predicate Distinct<T(==)>(s: seq<T>)
  {
    forall i, j | 0 <= i < j < |s| :: s[i] != s[j]
  }

  /** A filter keeps the order: a sorted input gives a sorted output. */
  lemma {:induction false} FilterSorted<T>(s: seq<T>, p: T -> bool, cmp: (T, T) -> int)
    requires Sorting.SortedBy(s, cmp)
    ensures Sorting.SortedBy(Filter(s, p), cmp)
    decreases |s|
  {
    if s != [] {
      var tail := s[1..];
      assert Sorting.SortedBy(tail, cmp) by {
        forall i, j | 0 <= i < j < |tail| ensures cmp(tail[i], tail[j]) <= 0 {
          assert tail[i] == s[i + 1] && tail[j] == s[j + 1];
        }
      }
      FilterSorted(tail, p, cmp);
      if p(s[0]) {
        var q := Filter(tail, p);
        HeadBeforeRest(s, q, cmp);
        var r := [s[0]] + q;
        forall i, j | 0 <= i < j < |r| ensures cmp(r[i], r[j]) <= 0 {
          if i > 0 {
            assert r[i] == q[i - 1] && r[j] == q[j - 1];
          } else {
            assert r[j] == q[j - 1];
          }
        }
      }
    }
  }

  /** In a sorted list, the head comes before every element of the rest. */
  lemma HeadBeforeRest<T>(s: seq<T>, q: seq<T>, cmp: (T, T) -> int)
    requires Sorting.SortedBy(s, cmp) && s != []
    requires forall i | 0 <= i < |q| :: q[i] in s[1..]
    ensures forall i | 0 <= i < |q| :: cmp(s[0], q[i]) <= 0
  {
    forall i | 0 <= i < |q| ensures cmp(s[0], q[i]) <= 0 {
      var m :| 0 <= m < |s[1..]| && s[1..][m] == q[i];
      assert s[m + 1] == q[i];
    }
  }

  /** Filtering a list grown by one element at the end grows the filtered list the same way. */
  lemma {:induction false} FilterSnoc<T>(s: seq<T>, x: T, p: T -> bool)
    ensures Filter(s + [x], p) == Filter(s, p) + (if p(x) then [x] else [])
    decreases |s|
  {
    if s == [] {
      assert s + [x] == [x];
      assert [x][1..] == [];
    } else {
      assert (s + [x])[1..] == s[1..] + [x];
      FilterSnoc(s[1..], x, p);
    }
  }

  /** Nothing passes a filter that no element meets. */
  lemma {:induction false} FilterNone<T>(s: seq<T>, p: T -> bool)
    requires forall i | 0 <= i < |s| :: !p(s[i])
    ensures Filter(s, p) == []
    decreases |s|
  {
    if s != [] {
      FilterNone(s[1..], p);
    }
  }

  /** Appending a new element keeps a list free of repeats. */
  lemma DistinctSnoc<T>(s: seq<T>, x: T)
    requires Distinct(s) && x !in s
    ensures Distinct(s + [x])
  {
    var r := s + [x];
    forall i, j | 0 <= i < j < |r| ensures r[i] != r[j] {
      if j < |s| {
        assert r[i] == s[i] && r[j] == s[j];
      } else {
        assert r[i] == s[i];
      }
    }
  }

  /** A filter of a list without repeats has no repeats. */
  lemma {:induction false} FilterDistinct<T>(s: seq<T>, p: T -> bool)
    requires Distinct(s)
    ensures Distinct(Filter(s, p))
    decreases |s|
  {
    if s != [] {
      var tail := s[1..];
      assert Distinct(tail) by {
        forall i, j | 0 <= i < j < |tail| ensures tail[i] != tail[j] {
          assert tail[i] == s[i + 1] && tail[j] == s[j + 1];
        }
      }
      FilterDistinct(tail, p);
      if p(s[0]) {
        var q := Filter(tail, p);
        var r := [s[0]] + q;
        assert s[0] !in tail by {
          forall m | 0 <= m < |tail| ensures tail[m] != s[0] {
            assert tail[m] == s[m + 1];
          }
        }
        forall i, j | 0 <= i < j < |r| ensures r[i] != r[j] {
          if i > 0 {
            assert r[i] == q[i - 1] && r[j] == q[j - 1];
          } else {
            assert r[j] == q[j - 1] && q[j - 1] in tail;
          }
        }
      }
    }
  }

  /** A sequence without repeats holds as many elements as its set. */
  lemma {:induction false} DistinctCard<T>(s: seq<T>)
    requires Distinct(s)
    ensures |set x | x in s| == |s|
    decreases |s|
  {
    if s != [] {
      var tail := s[1..];
      assert Distinct(tail) by {
        forall i, j | 0 <= i < j < |tail| ensures tail[i] != tail[j] {
          assert tail[i] == s[i + 1] && tail[j] == s[j + 1];
        }
      }
      DistinctCard(tail);
      assert s[0] !in tail by {
        forall m | 0 <= m < |tail| ensures tail[m] != s[0] {
          assert tail[m] == s[m + 1];
        }
      }
      assert (set x | x in s) == (set x | x in tail) + {s[0]};
    }
  }

  /** The members of a set as a list without repeats, in an order the caller cannot rely on
      (the order of a datastore query or of a HashSet). */
  method ListOf<T>(s: set<T>) returns (r: seq<T>)
    ensures Distinct(r)
    ensures forall x :: x in r <==> x in s
    ensures |r| == |s|
  {
    r := [];
    var rest := s;
    while rest != {}
      invariant Distinct(r)
      invariant forall x :: x in r <==> x in s && x !in rest
      invariant rest <= s
      invariant |r| + |rest| == |s|
      decreases |rest|
    {
      var x :| x in rest;
      r := r + [x];
      rest := rest - {x};
    }
  }
}

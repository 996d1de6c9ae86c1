/** Filtering, and the stable sort both Postgres ORDER BY and Python's list.sort stand for here. */
module Sequences {
  /** r holds between every element and every later one. */
  ghost predicate Pairwise<T(!new)>(s: seq<T>, r: (T, T) -> bool) {
    forall i, k :: 0 <= i < k < |s| ==> r(s[i], s[k])
  }

  function Filter<T>(s: seq<T>, p: T -> bool): seq<T> {
    if s == [] then []
    else
      var before := Filter(s[..|s| - 1], p);
      if p(s[|s| - 1]) then before + [s[|s| - 1]] else before
  }

  function Map<T, U>(s: seq<T>, f: T -> U): (r: seq<U>)
    ensures |r| == |s|
    ensures forall i :: 0 <= i < |s| ==> r[i] == f(s[i])
  {
    seq(|s|, i requires 0 <= i < |s| => f(s[i]))
  }

  lemma PairwiseAppend<T(!new)>(s: seq<T>, x: T, r: (T, T) -> bool)
    requires Pairwise(s, r) && forall y :: y in s ==> r(y, x)
    ensures Pairwise(s + [x], r)
  {
    forall i, k | 0 <= i < k < |s + [x]| ensures r((s + [x])[i], (s + [x])[k]) {
      assert s[i] in s;
    }
  }

  lemma PairwiseSnoc<T(!new)>(s: seq<T>, x: T, r: (T, T) -> bool)
    ensures Pairwise(s + [x], r) <==> Pairwise(s, r) && forall y :: y in s ==> r(y, x)
  {
    var t := s + [x];
    if Pairwise(t, r) {
      forall i, k | 0 <= i < k < |s| ensures r(s[i], s[k]) {
        assert r(t[i], t[k]);
      }
      forall y | y in s ensures r(y, x) {
        var i :| 0 <= i < |s| && s[i] == y;
        assert r(t[i], t[|s|]);
      }
    } else if Pairwise(s, r) && forall y :: y in s ==> r(y, x) {
      PairwiseAppend(s, x, r);
    }
  }

  lemma {:induction false} FilterMembers<T>(s: seq<T>, p: T -> bool)
    ensures forall x :: x in Filter(s, p) <==> x in s && p(x)
  {
    if s != [] {
      FilterMembers(s[..|s| - 1], p);
      assert s == s[..|s| - 1] + [s[|s| - 1]];
    }
  }

  lemma {:induction false} FilterPairwise<T(!new)>(s: seq<T>, p: T -> bool, r: (T, T) -> bool)
    requires Pairwise(s, r)
    ensures Pairwise(Filter(s, p), r)
  {
    if s != [] {
      var before := s[..|s| - 1];
      assert Pairwise(before, r);
      FilterPairwise(before, p, r);
      FilterMembers(before, p);
      if !p(s[|s| - 1]) {
        return;
      }
      forall x | x in Filter(before, p) ensures r(x, s[|s| - 1]) {
        var i :| 0 <= i < |before| && before[i] == x;
        assert s[i] == x;
      }
      PairwiseAppend(Filter(before, p), s[|s| - 1], r);
    }
  }

  // Stable sorting

  ghost predicate TotalPreorder<T(!new)>(leq: (T, T) -> bool) {
    && (forall a, b :: leq(a, b) || leq(b, a))
    && (forall a, b, c :: leq(a, b) && leq(b, c) ==> leq(a, c))
  }

  function InsertLast<T>(s: seq<T>, x: T, leq: (T, T) -> bool): seq<T> {
    if s == [] || leq(s[|s| - 1], x) then s + [x]
    else InsertLast(s[..|s| - 1], x, leq) + [s[|s| - 1]]
  }

  function StableSort<T>(s: seq<T>, leq: (T, T) -> bool): seq<T> {
    if s == [] then []
    else InsertLast(StableSort(s[..|s| - 1], leq), s[|s| - 1], leq)
  }

  lemma {:induction false} InsertMembers<T>(s: seq<T>, x: T, leq: (T, T) -> bool)
    ensures multiset(InsertLast(s, x, leq)) == multiset(s) + multiset{x}
  {
    if s != [] {
      assert s == s[..|s| - 1] + [s[|s| - 1]];
      if !leq(s[|s| - 1], x) {
        InsertMembers(s[..|s| - 1], x, leq);
      }
    }
  }

  /** Sorting permutes. */
  lemma {:induction false} SortPermutes<T>(s: seq<T>, leq: (T, T) -> bool)
    ensures multiset(StableSort(s, leq)) == multiset(s)
  {
    if s != [] {
      SortPermutes(s[..|s| - 1], leq);
      InsertMembers(StableSort(s[..|s| - 1], leq), s[|s| - 1], leq);
      assert s == s[..|s| - 1] + [s[|s| - 1]];
    }
  }

  lemma SortMembers<T>(s: seq<T>, leq: (T, T) -> bool)
    ensures forall x :: x in StableSort(s, leq) <==> x in s
    ensures |StableSort(s, leq)| == |s|
  {
    SortPermutes(s, leq);
    assert forall x :: x in multiset(s) <==> x in s;
    assert forall x :: x in multiset(StableSort(s, leq)) <==> x in StableSort(s, leq);
    assert |multiset(StableSort(s, leq))| == |multiset(s)|;
  }

  lemma {:induction false} InsertSorted<T(!new)>(s: seq<T>, x: T, leq: (T, T) -> bool)
    requires TotalPreorder(leq) && Pairwise(s, leq)
    ensures Pairwise(InsertLast(s, x, leq), leq)
  {
    if s != [] && !leq(s[|s| - 1], x) {
      var before := s[..|s| - 1];
      InsertSorted(before, x, leq);
      InsertMembers(before, x, leq);
      var r := InsertLast(before, x, leq);
      forall y | y in r ensures leq(y, s[|s| - 1]) {
        assert y in multiset(r);
        assert y in before || y == x;
        assert y in before ==> exists i :: 0 <= i < |before| && s[i] == y;
      }
      PairwiseAppend(r, s[|s| - 1], leq);
    }
  }

  /** Sorting sorts. */
  lemma {:induction false} SortSorts<T(!new)>(s: seq<T>, leq: (T, T) -> bool)
    requires TotalPreorder(leq)
    ensures Pairwise(StableSort(s, leq), leq)
  {
    if s != [] {
      SortSorts(s[..|s| - 1], leq);
      InsertSorted(StableSort(s[..|s| - 1], leq), s[|s| - 1], leq);
    }
  }

  /** A sequence is its own sorting exactly when it is sorted already. */
  lemma SortedIffFixed<T(!new)>(s: seq<T>, leq: (T, T) -> bool)
    requires TotalPreorder(leq)
    ensures StableSort(s, leq) == s <==> Pairwise(s, leq)
  {
    SortSorts(s, leq);
    if Pairwise(s, leq) {
      SortFixesSorted(s, leq);
    }
  }

  lemma {:induction false} SortFixesSorted<T(!new)>(s: seq<T>, leq: (T, T) -> bool)
    requires Pairwise(s, leq)
    ensures StableSort(s, leq) == s
  {
    if s != [] {
      SortFixesSorted(s[..|s| - 1], leq);
      assert s == s[..|s| - 1] + [s[|s| - 1]];
    }
  }
}

/** The list operations the capture tools lean on: a stable sort, a filter and
    the two bisections, each with what callers may rely on. */
module Ordering {
  /** A total preorder. */
  ghost predicate Orders<T(!new)>(le: (T, T) -> bool) {
    && (forall a, b :: le(a, b) || le(b, a))
    && (forall a, b, c :: le(a, b) && le(b, c) ==> le(a, c))
  }

  ghost predicate SortedBy<T>(s: seq<T>, le: (T, T) -> bool) {
    forall i, j :: 0 <= i < j < |s| ==> le(s[i], s[j])
  }

  /** Where x goes in a sorted s: behind everything that may precede it. */
  function Insert<T>(s: seq<T>, x: T, le: (T, T) -> bool): seq<T> {
    if s == [] || le(s[|s| - 1], x) then s + [x] else Insert(s[..|s| - 1], x, le) + [s[|s| - 1]]
  }

  function Sort<T>(s: seq<T>, le: (T, T) -> bool): seq<T> {
    if s == [] then [] else Insert(Sort(s[..|s| - 1], le), s[|s| - 1], le)
  }

  lemma {:induction false} InsertAdds<T>(s: seq<T>, x: T, le: (T, T) -> bool)
    ensures multiset(Insert(s, x, le)) == multiset(s) + multiset{x}
  {
    if s != [] {
      assert s == s[..|s| - 1] + [s[|s| - 1]];
      InsertAdds(s[..|s| - 1], x, le);
    }
  }

  lemma {:induction false} InsertSorts<T(!new)>(s: seq<T>, x: T, le: (T, T) -> bool)
    requires Orders(le) && SortedBy(s, le)
    ensures multiset(Insert(s, x, le)) == multiset(s) + multiset{x}
    ensures SortedBy(Insert(s, x, le), le)
  {
    InsertAdds(s, x, le);
    if s != [] && !le(s[|s| - 1], x) {
      var front, last := s[..|s| - 1], s[|s| - 1];
      InsertSorts(front, x, le);
      var r := Insert(front, x, le);
      forall i | 0 <= i < |r| ensures le(r[i], last) {
        assert r[i] in multiset(r);
        assert r[i] == x || r[i] in front;
      }
    }
  }

  lemma {:induction false} SortSorts<T(!new)>(s: seq<T>, le: (T, T) -> bool)
    requires Orders(le)
    ensures multiset(Sort(s, le)) == multiset(s)
    ensures SortedBy(Sort(s, le), le)
  {
    if s != [] {
      var front, last := s[..|s| - 1], s[|s| - 1];
      assert s == front + [last];
      SortSorts(front, le);
      InsertSorts(Sort(front, le), last, le);
      hide Orders, SortedBy, Insert;
    }
  }

  lemma SortKeepsMembers<T(!new)>(s: seq<T>, le: (T, T) -> bool)
    requires Orders(le)
    ensures forall x :: x in Sort(s, le) <==> x in s
    ensures |Sort(s, le)| == |s|
  {
    SortSorts(s, le);
    assert |multiset(Sort(s, le))| == |multiset(s)|;
    forall x ensures x in Sort(s, le) <==> x in s {
      assert x in Sort(s, le) <==> x in multiset(Sort(s, le));
    }
  }

  function Filter<T>(s: seq<T>, keep: T -> bool): seq<T> {
    if s == [] then []
    else Filter(s[..|s| - 1], keep) + (if keep(s[|s| - 1]) then [s[|s| - 1]] else [])
  }

  lemma {:induction false} FilterKeepsMembers<T>(s: seq<T>, keep: T -> bool)
    ensures forall x :: x in Filter(s, keep) <==> x in s && keep(x)
  {
    if s != [] {
      FilterKeepsMembers(s[..|s| - 1], keep);
      assert s == s[..|s| - 1] + [s[|s| - 1]];
    }
  }

  lemma {:induction false} FilterOrigin<T>(s: seq<T>, keep: T -> bool, i: nat)
    requires i < |Filter(s, keep)|
    ensures exists j :: 0 <= j < |s| && s[j] == Filter(s, keep)[i]
  {
    var front, last := s[..|s| - 1], s[|s| - 1];
    if i < |Filter(front, keep)| {
      FilterOrigin(front, keep, i);
      var j :| 0 <= j < |front| && front[j] == Filter(front, keep)[i];
      assert s[j] == Filter(s, keep)[i];
    }
  }

  lemma {:induction false} FilterKeepsCount<T>(s: seq<T>, keep: T -> bool, x: T)
    ensures multiset(Filter(s, keep))[x] == if keep(x) then multiset(s)[x] else 0
  {
    if s != [] {
      FilterKeepsCount(s[..|s| - 1], keep, x);
      assert s == s[..|s| - 1] + [s[|s| - 1]];
    }
  }

  lemma {:induction false} FilterKeepsOrder<T>(s: seq<T>, keep: T -> bool, le: (T, T) -> bool)
    requires SortedBy(s, le)
    ensures SortedBy(Filter(s, keep), le)
  {
    if s != [] {
      var front, last := s[..|s| - 1], s[|s| - 1];
      FilterKeepsOrder(front, keep, le);
      var r := Filter(front, keep);
      forall i | 0 <= i < |r| ensures le(r[i], last) {
        FilterOrigin(front, keep, i);
      }
    }
  }

  lemma FilterSnoc<T>(s: seq<T>, x: T, keep: T -> bool)
    ensures Filter(s + [x], keep) == if keep(x) then Filter(s, keep) + [x] else Filter(s, keep)
  {
    assert (s + [x])[..|s|] == s;
  }

  lemma {:induction false} FilterHead<T>(s: seq<T>, keep: T -> bool, i: nat)
    requires i < |s| && keep(s[i]) && forall j :: 0 <= j < i ==> !keep(s[j])
    ensures Filter(s, keep) != [] && Filter(s, keep)[0] == s[i]
  {
    var front, last := s[..|s| - 1], s[|s| - 1];
    assert s == front + [last];
    FilterSnoc(front, last, keep);
    if i < |front| {
      FilterHead(front, keep, i);
    } else {
      NothingKept(front, keep);
    }
  }

  lemma {:induction false} NothingKept<T>(s: seq<T>, keep: T -> bool)
    requires forall j :: 0 <= j < |s| ==> !keep(s[j])
    ensures Filter(s, keep) == []
  {
    if s != [] { NothingKept(s[..|s| - 1], keep); }
  }

  /** Elements that rank equal keep their order. */
  lemma {:induction false} SortIsStable<T(!new)>(s: seq<T>, le: (T, T) -> bool, keep: T -> bool)
    requires forall a, b :: keep(a) && keep(b) ==> le(a, b)
    ensures Filter(Sort(s, le), keep) == Filter(s, keep)
  {
    if s != [] {
      var front, last := s[..|s| - 1], s[|s| - 1];
      assert s == front + [last];
      SortIsStable(front, le, keep);
      InsertIsStable(Sort(front, le), last, le, keep);
      FilterSnoc(Sort(front, le), last, keep);
      FilterSnoc(front, last, keep);
    }
  }

  lemma {:induction false} InsertIsStable<T(!new)>(s: seq<T>, x: T, le: (T, T) -> bool, keep: T -> bool)
    requires forall a, b :: keep(a) && keep(b) ==> le(a, b)
    ensures Filter(Insert(s, x, le), keep) == Filter(s + [x], keep)
  {
    if s != [] && !le(s[|s| - 1], x) {
      var front, last := s[..|s| - 1], s[|s| - 1];
      assert s == front + [last];
      InsertIsStable(front, x, le, keep);
      FilterSnoc(Insert(front, x, le), last, keep);
      FilterSnoc(s, x, keep);
      FilterSnoc(front, last, keep);
      FilterSnoc(front, x, keep);
    }
  }

  lemma {:induction false} FilterConcat<T>(a: seq<T>, b: seq<T>, keep: T -> bool)
    ensures Filter(a + b, keep) == Filter(a, keep) + Filter(b, keep)
  {
    if b == [] {
      assert a + b == a;
    } else {
      var front, last := b[..|b| - 1], b[|b| - 1];
      assert a + b == (a + front) + [last] && b == front + [last];
      FilterConcat(a, front, keep);
      FilterSnoc(a + front, last, keep);
      FilterSnoc(front, last, keep);
    }
  }

  lemma {:induction false} FiltersCommute<T>(s: seq<T>, p: T -> bool, q: T -> bool)
    ensures Filter(Filter(s, p), q) == Filter(Filter(s, q), p)
  {
    if s != [] {
      var front, last := s[..|s| - 1], s[|s| - 1];
      assert s == front + [last];
      FiltersCommute(front, p, q);
      FilterSnoc(front, last, p);
      FilterSnoc(front, last, q);
      FilterSnoc(Filter(front, p), last, q);
      FilterSnoc(Filter(front, q), last, p);
    }
  }

  /** Sorting and filtering commute. */
  lemma {:induction false} FilterSort<T(!new)>(s: seq<T>, le: (T, T) -> bool, keep: T -> bool)
    requires Orders(le)
    ensures Filter(Sort(s, le), keep) == Sort(Filter(s, keep), le)
  {
    if s != [] {
      var front, last := s[..|s| - 1], s[|s| - 1];
      assert s == front + [last];
      FilterSort(front, le, keep);
      SortSorts(front, le);
      FilterInsert(Sort(front, le), last, le, keep);
      FilterSnoc(front, last, keep);
      hide Orders, SortedBy, Insert;
      if keep(last) {
        assert Filter(s, keep)[..|Filter(front, keep)|] == Filter(front, keep);
      }
    }
  }

  lemma {:induction false} FilterInsert<T(!new)>(s: seq<T>, x: T, le: (T, T) -> bool, keep: T -> bool)
    requires Orders(le) && SortedBy(s, le)
    ensures Filter(Insert(s, x, le), keep) == if keep(x) then Insert(Filter(s, keep), x, le) else Filter(s, keep)
  {
    if s == [] {
      assert Insert(s, x, le) == [] + [x];
      FilterSnoc([], x, keep);
    } else {
      var front, last := s[..|s| - 1], s[|s| - 1];
      assert s == front + [last];
      FilterSnoc(front, last, keep);
      if le(last, x) {
        FilterSnoc(s, x, keep);
        LastKept(s, x, le, keep);
      } else {
        FilterInsert(front, x, le, keep);
        FilterSnoc(Insert(front, x, le), last, keep);
        if keep(last) { assert (Filter(front, keep) + [last])[..|Filter(front, keep)|] == Filter(front, keep); }
      }
    }
  }

  lemma LastKept<T(!new)>(s: seq<T>, x: T, le: (T, T) -> bool, keep: T -> bool)
    requires Orders(le) && SortedBy(s, le) && s != [] && le(s[|s| - 1], x)
    ensures var kept := Filter(s, keep); kept == [] || le(kept[|kept| - 1], x)
  {
    var kept := Filter(s, keep);
    if kept != [] {
      FilterOrigin(s, keep, |kept| - 1);
      var j :| 0 <= j < |s| && s[j] == kept[|kept| - 1];
      assert j == |s| - 1 || le(s[j], s[|s| - 1]);
    }
  }

  ghost predicate TellsApart<T>(s: seq<T>, le: (T, T) -> bool) {
    forall x, y :: x in s && y in s && le(x, y) && le(y, x) ==> x == y
  }

  /** Two sorted arrangements of the same elements agree where equally ranked
      elements are equal. */
  lemma {:induction false} SortedIsUnique<T>(a: seq<T>, b: seq<T>, le: (T, T) -> bool)
    requires SortedBy(a, le) && SortedBy(b, le) && multiset(a) == multiset(b)
    requires TellsApart(a, le)
    ensures a == b
  {
    SameLength(a, b);
    if a == [] {
    } else {
      hide SortedBy, TellsApart;
      SameLast(a, b, le);
      FrontCounts(a);
      FrontCounts(b);
      SortedFront(a, le);
      SortedFront(b, le);
      SortedIsUnique(a[..|a| - 1], b[..|b| - 1], le);
    }
  }

  lemma SameLength<T>(a: seq<T>, b: seq<T>)
    requires multiset(a) == multiset(b)
    ensures |a| == |b|
  {
    assert |a| == |multiset(a)| == |multiset(b)| == |b|;
  }

  lemma FrontCounts<T>(s: seq<T>)
    requires s != []
    ensures multiset(s[..|s| - 1]) == multiset(s) - multiset{s[|s| - 1]}
    ensures s == s[..|s| - 1] + [s[|s| - 1]]
  {
    assert s == s[..|s| - 1] + [s[|s| - 1]];
  }

  lemma SortedFront<T>(s: seq<T>, le: (T, T) -> bool)
    requires s != [] && SortedBy(s, le)
    ensures SortedBy(s[..|s| - 1], le)
    ensures TellsApart(s, le) ==> TellsApart(s[..|s| - 1], le)
  {}

  lemma SameLast<T>(a: seq<T>, b: seq<T>, le: (T, T) -> bool)
    requires SortedBy(a, le) && SortedBy(b, le) && multiset(a) == multiset(b) && |a| == |b| > 0
    requires TellsApart(a, le)
    ensures a[|a| - 1] == b[|b| - 1]
  {
    var x, y := a[|a| - 1], b[|b| - 1];
    assert x in multiset(b) && y in multiset(a);
    var i :| 0 <= i < |b| && b[i] == x;
    var j :| 0 <= j < |a| && a[j] == y;
  }

  ghost predicate Ascending(a: seq<int>) {
    forall i, j :: 0 <= i < j < |a| ==> a[i] <= a[j]
  }

  /** The first position whose value exceeds x. */
  method BisectRight(a: seq<int>, x: int) returns (r: nat)
    requires Ascending(a)
    ensures r <= |a|
    ensures forall i :: 0 <= i < r ==> a[i] <= x
    ensures forall i :: r <= i < |a| ==> x < a[i]
  {
    var lo, hi := 0, |a|;
    while lo < hi
      invariant 0 <= lo <= hi <= |a|
      invariant forall i :: 0 <= i < lo ==> a[i] <= x
      invariant forall i :: hi <= i < |a| ==> x < a[i]
    {
      var mid := (lo + hi) / 2;
      if x < a[mid] { hi := mid; } else { lo := mid + 1; }
    }
    r := lo;
  }

  /** The first position whose value is at least x. */
  method BisectLeft(a: seq<int>, x: int) returns (r: nat)
    requires Ascending(a)
    ensures r <= |a|
    ensures forall i :: 0 <= i < r ==> a[i] < x
    ensures forall i :: r <= i < |a| ==> x <= a[i]
  {
    var lo, hi := 0, |a|;
    while lo < hi
      invariant 0 <= lo <= hi <= |a|
      invariant forall i :: 0 <= i < lo ==> a[i] < x
      invariant forall i :: hi <= i < |a| ==> x <= a[i]
    {
      var mid := (lo + hi) / 2;
      if a[mid] < x { lo := mid + 1; } else { hi := mid; }
    }
    r := lo;
  }
}

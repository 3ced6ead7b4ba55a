/**
  The two list primitives the options page leans on: `Array.prototype.filter`
  and `Array.prototype.sort` with a comparator, over schedule lists. A
  comparator is given as "may come before", a total preorder.
 */
module Sorting {
  import opened Schedules

  /** `le(a, b)`: `a` may be placed before `b`. */
  type Cmp = (Schedule, Schedule) -> bool

  ghost predicate Total(le: Cmp) {
    forall a, b :: le(a, b) || le(b, a)
  }

  ghost predicate Transitive(le: Cmp) {
    forall a, b, c :: le(a, b) && le(b, c) ==> le(a, c)
  }

  ghost predicate SortedBy(xs: seq<Schedule>, le: Cmp) {
    forall i, j :: 0 <= i < j < |xs| ==> le(xs[i], xs[j])
  }

  /** `x` placed before the first element it may precede. */
  function Insert(x: Schedule, ys: seq<Schedule>, le: Cmp): (r: seq<Schedule>)
    ensures multiset(r) == multiset(ys) + multiset{x}
    decreases |ys|
  {
    if |ys| == 0 then [x]
    else if le(x, ys[0]) then [x] + ys
    else
      var rest := Insert(x, ys[1..], le);
      assert ys == [ys[0]] + ys[1..];
      [ys[0]] + rest
  }

  /** `xs.slice(0).sort(cmp)`, as an insertion sort. */
  function SortBy(xs: seq<Schedule>, le: Cmp): (r: seq<Schedule>)
    ensures multiset(r) == multiset(xs)
    decreases |xs|
  {
    if |xs| == 0 then []
    else
      assert xs == [xs[0]] + xs[1..];
      Insert(xs[0], SortBy(xs[1..], le), le)
  }

  lemma {:induction false} InsertSorted(x: Schedule, ys: seq<Schedule>, le: Cmp)
    requires Total(le) && Transitive(le) && SortedBy(ys, le)
    ensures SortedBy(Insert(x, ys, le), le)
    decreases |ys|
  {
    if |ys| > 0 && !le(x, ys[0]) {
      var rest := Insert(x, ys[1..], le);
      InsertSorted(x, ys[1..], le);
      assert le(ys[0], x);
      forall z | z in rest
        ensures le(ys[0], z)
      {
        assert z in multiset(rest);
        if z != x {
          assert z in ys[1..];
        }
      }
      ConsSorted(ys[0], rest, le);
    }
  }

  /** A sorted list stays sorted under a head that may precede all of it. */
  lemma ConsSorted(h: Schedule, rest: seq<Schedule>, le: Cmp)
    requires SortedBy(rest, le) && forall z :: z in rest ==> le(h, z)
    ensures SortedBy([h] + rest, le)
  {
    var r := [h] + rest;
    forall i, j | 0 <= i < j < |r|
      ensures le(r[i], r[j])
    {
      if i == 0 {
        assert r[j] in rest;
      } else {
        assert r[i] == rest[i - 1] && r[j] == rest[j - 1];
      }
    }
  }

  /** Sorting puts the list in comparator order; with `SortBy`'s own contract,
      the result is a sorted permutation. */
  lemma {:induction false} SortBySorted(xs: seq<Schedule>, le: Cmp)
    requires Total(le) && Transitive(le)
    ensures SortedBy(SortBy(xs, le), le)
    decreases |xs|
  {
    if |xs| > 0 {
      SortBySorted(xs[1..], le);
      InsertSorted(xs[0], SortBy(xs[1..], le), le);
    }
  }

  /** `xs.filter(keep)`. */
  function Filter(xs: seq<Schedule>, keep: Schedule -> bool): (r: seq<Schedule>)
    ensures |r| <= |xs|
    ensures forall x :: x in r <==> x in xs && keep(x)
    decreases |xs|
  {
    if |xs| == 0 then []
    else
      var rest := Filter(xs[1..], keep);
      assert forall x :: x in xs <==> x == xs[0] || x in xs[1..];
      if keep(xs[0]) then [xs[0]] + rest else rest
  }

  /** Filtering splits over a concatenation: the kept elements stay in their order. */
  lemma {:induction false} FilterConcat(xs: seq<Schedule>, ys: seq<Schedule>, keep: Schedule -> bool)
    ensures Filter(xs + ys, keep) == Filter(xs, keep) + Filter(ys, keep)
    decreases |xs|
  {
    if |xs| == 0 {
      assert xs + ys == ys;
    } else {
      assert (xs + ys)[1..] == xs[1..] + ys;
      FilterConcat(xs[1..], ys, keep);
    }
  }

  /** A filter that keeps every element changes nothing. */
  lemma {:induction false} FilterKeepsAll(xs: seq<Schedule>, keep: Schedule -> bool)
    requires forall i :: 0 <= i < |xs| ==> keep(xs[i])
    ensures Filter(xs, keep) == xs
    decreases |xs|
  {
    if |xs| > 0 {
      FilterKeepsAll(xs[1..], keep);
    }
  }

  /** Filtering a sorted list leaves it sorted. */
  lemma {:induction false} FilterSorted(xs: seq<Schedule>, le: Cmp, keep: Schedule -> bool)
    requires SortedBy(xs, le)
    ensures SortedBy(Filter(xs, keep), le)
    decreases |xs|
  {
    if |xs| > 0 {
      var rest := Filter(xs[1..], keep);
      FilterSorted(xs[1..], le, keep);
      if keep(xs[0]) {
        forall z | z in rest
          ensures le(xs[0], z)
        {
          var j :| 1 <= j < |xs| && xs[j] == z;
        }
        ConsSorted(xs[0], rest, le);
      }
    }
  }
}

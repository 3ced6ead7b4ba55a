/** What the schedule list of the options page shows, and how it agrees with
    the background. */
module ListViewFacts {
  import opened Wrappers
  import opened Text
  import opened Schedules
  import opened Scheduler
  import opened SchedulerFacts
  import opened Sorting
  import opened Store
  import opened Forms
  import opened Reconcile
  import opened ReconcileFacts
  import opened ListView

  // ---------------------------------------------------------------------------
  // Next run and expiry

  /** The next-run line: never for an expired entry; otherwise a shown instant
      is the entry's earliest occurrence after `now`, and an entry with a
      (non-zero) next run shows it. */
  lemma DisplayedNextMeaning(s: Schedule, now: int)
    ensures IsExpired(s) ==> DisplayedNext(s, now) == Never
    ensures DisplayedNext(s, now).OpensAt? ==>
      var t := DisplayedNext(s, now).instant;
      && !IsExpired(s) && now < t && IsOccurrence(s, t)
      && forall u :: now < u < t ==> !IsOccurrence(s, u)
    ensures !IsExpired(s) && NextForSchedule(s, now).Some? && NextForSchedule(s, now).value != 0 ==>
      DisplayedNext(s, now) == OpensAt(NextForSchedule(s, now).value)
  {
    NextIsEarliestOccurrence(s, now);
  }

  /** The options page's calculator agrees with the background's for every
      entry at any instant from the epoch on; before the epoch they differ
      only on a `once` entry set to instant 0, which the page's `t && ...`
      rejects. A missing entry has no next run. */
  lemma NextLocalIsCalculator(s: Option<Schedule>, now: int)
    ensures s.Some? && now >= 0 ==> NextLocal(s, now) == NextForSchedule(s.value, now)
    ensures s.Some? && NextLocal(s, now) != NextForSchedule(s.value, now) ==>
      now < 0 && s.value.kind == Once && s.value.when == Some(0)
    ensures s.None? ==> NextLocal(s, now).None?
  {
  }

  /** An entry the list shows as expired, recurring and with a numeric run
      count, gets no alarm from a rebuild. */
  lemma ShownExpiredNotArmed(test: CapTest, snap: seq<Schedule>, alarms: map<string, int>, lastCheck: Option<int>, now: int, suppress: bool, k: int)
    requires UniqueIds(snap) && 0 <= k < |snap|
    requires snap[k].kind != Once && snap[k].runCount.Some?
    requires IsExpired(Normalize(snap[k]))
    ensures AlarmName(snap[k].id) !in Rebuild(test, snap, alarms, lastCheck, now, suppress).alarms
  {
    assert Normalize(snap[k]) == snap[k];
    ExhaustedNotArmed(test, snap, alarms, lastCheck, now, suppress, k);
  }

  // ---------------------------------------------------------------------------
  // Deleting

  /** Filtering with a test that implies the first filter's test undoes nothing of it. */
  lemma {:induction false} FilterNarrower(xs: seq<Schedule>, p: Schedule -> bool, q: Schedule -> bool)
    requires forall x :: q(x) ==> p(x)
    ensures Filter(Filter(xs, p), q) == Filter(xs, q)
    decreases |xs|
  {
    if |xs| > 0 {
      FilterNarrower(xs[1..], p, q);
    }
  }

  /** With distinct ids, deleting an entry removes exactly that one and keeps
      the others in order. */
  lemma DeleteByIdUnique(list: seq<Schedule>, i: int)
    requires UniqueIds(list) && 0 <= i < |list|
    ensures DeleteById(list, list[i].id) == list[..i] + list[i + 1..]
  {
    var id := list[i].id;
    var before, after := list[..i], list[i + 1..];
    assert list == before + ([list[i]] + after);
    FilterConcat(before, [list[i]] + after, OtherId(id));
    FilterConcat([list[i]], after, OtherId(id));
    assert Filter([list[i]], OtherId(id)) == [];
    forall j | 0 <= j < |before|
      ensures OtherId(id)(before[j])
    {
      assert before[j] == list[j];
    }
    FilterKeepsAll(before, OtherId(id));
    forall j | 0 <= j < |after|
      ensures OtherId(id)(after[j])
    {
      assert after[j] == list[i + 1 + j];
    }
    FilterKeepsAll(after, OtherId(id));
  }

  /** Deleting an id that no entry has changes nothing, so deleting twice is
      deleting once. */
  lemma DeleteByIdIdempotent(list: seq<Schedule>, id: string)
    ensures DeleteById(DeleteById(list, id), id) == DeleteById(list, id)
    ensures (forall j :: 0 <= j < |list| ==> list[j].id != id) ==> DeleteById(list, id) == list
  {
    var r := DeleteById(list, id);
    assert forall j :: 0 <= j < |r| ==> r[j] in r;
    FilterKeepsAll(r, OtherId(id));
    if forall j :: 0 <= j < |list| ==> list[j].id != id {
      FilterKeepsAll(list, OtherId(id));
    }
  }

  /** Deleting a window group removes every entry of it, keeps the rest in
      order, and leaves the single entries alone. */
  lemma DeleteGroupKeepsSingles(list: seq<Schedule>, group: string)
    requires |group| > 0
    ensures forall x :: x in DeleteGroup(list, group) ==> x.windowGroup != Some(group)
    ensures Filter(DeleteGroup(list, group), Ungrouped()) == Filter(list, Ungrouped())
    ensures forall g :: g != group ==> Filter(DeleteGroup(list, group), OfGroup(g)) == Filter(list, OfGroup(g))
  {
    FilterNarrower(list, OutsideGroup(Some(group)), Ungrouped());
    forall g | g != group
      ensures Filter(DeleteGroup(list, group), OfGroup(g)) == Filter(list, OfGroup(g))
    {
      FilterNarrower(list, OutsideGroup(Some(group)), OfGroup(g));
    }
  }

  // ---------------------------------------------------------------------------
  // Order and search

  lemma {:induction false} StrLeTotal(a: string, b: string)
    ensures StrLe(a, b) || StrLe(b, a)
    decreases |a|
  {
    if |a| > 0 && |b| > 0 && a[0] == b[0] {
      StrLeTotal(a[1..], b[1..]);
    }
  }

  lemma {:induction false} StrLeTransitive(a: string, b: string, c: string)
    requires StrLe(a, b) && StrLe(b, c)
    ensures StrLe(a, c)
    decreases |a|
  {
    if |a| > 0 && a[0] == b[0] && b[0] == c[0] {
      StrLeTransitive(a[1..], b[1..], c[1..]);
    }
  }

  /** Code-unit order is antisymmetric: it orders distinct ids strictly. */
  lemma {:induction false} StrLeAntisymmetric(a: string, b: string)
    requires StrLe(a, b) && StrLe(b, a)
    ensures a == b
    decreases |a|
  {
    if |a| > 0 {
      StrLeAntisymmetric(a[1..], b[1..]);
      assert a == [a[0]] + a[1..] && b == [b[0]] + b[1..];
    }
  }

  /** Every order of the selector is a total preorder, so sorting by it is well defined. */
  lemma PrecedesIsPreorder(o: Order, now: int)
    ensures Total(Precedes(o, now)) && Transitive(Precedes(o, now))
  {
    var le := Precedes(o, now);
    forall a, b
      ensures le(a, b) || le(b, a)
    {
      StrLeTotal(a.id, b.id);
    }
    forall a, b, c | le(a, b) && le(b, c)
      ensures le(a, c)
    {
      if o == CreatedAsc {
        StrLeTransitive(a.id, b.id, c.id);
      } else if o == CreatedDesc {
        StrLeTransitive(c.id, b.id, a.id);
      }
    }
  }

  /** The order value falls back to newest first. */
  lemma OrderFallback(value: string)
    requires value !in {"created-asc", "times-desc", "times-asc", "next-asc", "next-desc"}
    ensures OrderOf(value) == CreatedDesc
  {
  }

  /** The refreshed list is in the selected order. */
  lemma RefreshSorted(list: seq<Schedule>, orderValue: string, query: string, now: int)
    ensures SortedBy(Refresh(list, orderValue, query, now), Precedes(OrderOf(orderValue), now))
  {
    var le := Precedes(OrderOf(orderValue), now);
    PrecedesIsPreorder(OrderOf(orderValue), now);
    SortBySorted(list, le);
    var q := Trim(query);
    if |q| > 0 {
      FilterSorted(SortBy(list, le), le, MatchesQuery(Lower(q)));
    }
  }

  /** The refreshed list holds exactly the stored entries that match the
      search, whatever the order; a blank search keeps every entry, as many
      times as it is stored. */
  lemma RefreshMembers(list: seq<Schedule>, orderValue: string, query: string, now: int)
    ensures var q := Trim(query);
      forall x :: x in Refresh(list, orderValue, query, now) <==>
        x in list && (|q| == 0 || Contains(Lower(x.url), Lower(q)) || Contains(Lower(x.message), Lower(q)))
    ensures |Trim(query)| == 0 ==> multiset(Refresh(list, orderValue, query, now)) == multiset(list)
  {
    var sorted := SortBy(list, Precedes(OrderOf(orderValue), now));
    assert forall x :: x in sorted <==> x in multiset(sorted);
  }

  /** The search ignores case in the query. */
  lemma SearchIgnoresQueryCase(list: seq<Schedule>, query: string)
    ensures Search(list, Lower(query)) == Search(list, query) || |Trim(query)| == 0
  {
    var q := Trim(query);
    if |q| > 0 {
      LowerTrim(query);
      LowerIdempotent(q);
    }
  }

  /** Trimming commutes with lowering: no whitespace is a letter. */
  lemma {:induction false} LowerTrim(s: string)
    ensures Trim(Lower(s)) == Lower(Trim(s))
  {
    LowerTrimStart(s);
    LowerTrimEnd(TrimStart(s));
  }

  /** Lowering maps whitespace to whitespace and nothing else to it. */
  lemma LowerCharWhitespace(c: char)
    ensures IsWhitespace(LowerChar(c)) == IsWhitespace(c)
  {
  }

  lemma {:induction false} LowerTrimStart(s: string)
    ensures TrimStart(Lower(s)) == Lower(TrimStart(s))
    decreases |s|
  {
    var l := Lower(s);
    if |s| > 0 {
      LowerCharWhitespace(s[0]);
      assert l[0] == LowerChar(s[0]);
      if IsWhitespace(s[0]) {
        assert l[1..] == Lower(s[1..]);
        LowerTrimStart(s[1..]);
      }
    }
  }

  lemma {:induction false} LowerTrimEnd(s: string)
    ensures TrimEnd(Lower(s)) == Lower(TrimEnd(s))
    decreases |s|
  {
    var l := Lower(s);
    if |s| > 0 {
      LowerCharWhitespace(s[|s| - 1]);
      assert l[|s| - 1] == LowerChar(s[|s| - 1]);
      if IsWhitespace(s[|s| - 1]) {
        assert l[..|s| - 1] == Lower(s[..|s| - 1]);
        LowerTrimEnd(s[..|s| - 1]);
      }
    }
  }

  // ---------------------------------------------------------------------------
  // Grouping

  /** Each displayed group is a non-empty window group of the list, its
      members exactly the list's entries of that group (run counts made
      numeric), sorted by position, so its first member has the least window
      index; the groups are distinct. */
  lemma LayoutGroup(list: seq<Schedule>, i: int)
    requires 0 <= i < |Layout(list).keys|
    ensures var d := Layout(list);
      && |d.groups| == |d.keys| && |d.groups[i]| > 0
      && multiset(d.groups[i]) == multiset(Filter(NormalizeAll(list), OfGroup(d.keys[i])))
      && (forall y :: y in d.groups[i] ==> y.windowGroup == Some(d.keys[i]) && y in NormalizeAll(list))
      && SortedBy(d.groups[i], ByWindowIndex())
      && (forall j :: 0 <= j < |d.keys| && j != i ==> d.keys[j] != d.keys[i])
  {
    var d := Layout(list);
    var n := NormalizeAll(list);
    var members := Filter(n, OfGroup(d.keys[i]));
    GroupNonEmpty(n, d.keys[i]);
    GroupKeysDistinct(n);
    assert d.groups[i] == SortBy(members, ByWindowIndex());
    forall y | y in d.groups[i]
      ensures y.windowGroup == Some(d.keys[i]) && y in n
    {
      assert y in multiset(d.groups[i]);
      assert y in members;
    }
    SortBySorted(members, ByWindowIndex());
  }

  /** The representative of a group, its first member, has the least window index. */
  lemma RepresentativeFirst(list: seq<Schedule>, i: int)
    requires 0 <= i < |Layout(list).keys|
    ensures var g := Layout(list).groups[i];
      |g| > 0 && forall y :: y in g ==> g[0].windowIndex.GetOr(0) <= y.windowIndex.GetOr(0)
  {
    LayoutGroup(list, i);
    var g := Layout(list).groups[i];
    forall y | y in g
      ensures g[0].windowIndex.GetOr(0) <= y.windowIndex.GetOr(0)
    {
      var j :| 0 <= j < |g| && g[j] == y;
      if j > 0 {
        assert ByWindowIndex()(g[0], g[j]);
      }
    }
  }

  /** Every entry is displayed: in its window group when it has one, among the
      singles otherwise. */
  lemma LayoutCovers(list: seq<Schedule>, x: Schedule)
    requires x in NormalizeAll(list)
    ensures var d := Layout(list);
      && (!InGroup(x.windowGroup) ==> x in d.singles)
      && (InGroup(x.windowGroup) ==> exists i :: 0 <= i < |d.keys| && d.keys[i] == x.windowGroup.value && x in d.groups[i])
  {
    var d := Layout(list);
    var n := NormalizeAll(list);
    if InGroup(x.windowGroup) {
      var g := x.windowGroup.value;
      GroupKeysExact(n, g);
      var i :| 0 <= i < |d.keys| && d.keys[i] == g;
      assert x in Filter(n, OfGroup(g));
      assert x in multiset(d.groups[i]);
    }
  }

  /** The singles are exactly the entries outside any window group, in list order. */
  lemma LayoutSingles(list: seq<Schedule>)
    ensures forall y :: y in Layout(list).singles <==> y in NormalizeAll(list) && !InGroup(y.windowGroup)
    ensures forall y :: y in Layout(list).singles ==> y.runCount.Some?
  {
  }
}

/**
  The schedule list of the options page (options.js): the next-run line and
  the expiry badge of an entry, deleting an entry or a window group, the
  order and search of `refresh`, and the grouping of `renderSchedules`.
 */
module ListView {
  import opened Wrappers
  import opened Text
  import opened Schedules
  import opened Scheduler
  import opened Sorting
  import opened Store
  import opened Forms

  // ---------------------------------------------------------------------------
  // Next run and expiry

  /** `computeNextForScheduleLocal(s)` at instant `now`. A missing entry has no
      next run; a `once` entry has its instant when that is set, non-zero
      (`t && ...`) and after `now`. The recurring kinds are the same text as
      the background's calculator and share its model. */
  function NextLocal(s: Option<Schedule>, now: int): (r: Option<int>)
    ensures s.None? ==> r.None?
  {
    match s
    case None => None
    case Some(x) =>
      if x.kind == Once then
        if x.when.Some? && x.when.value != 0 && x.when.value > now then Some(x.when.value) else None
      else NextForSchedule(x, now)
  }

  /** The expiry test of the list, on an entry whose run count is already
      numeric: a `once` entry that ran, or a recurring one whose non-zero
      stop count is reached. */
  predicate IsExpired(s: Schedule) {
    if s.kind == Once then RunCount(s) >= 1 else StopAfterReached(s)
  }

  /** What the "next time will open" line shows. */
  datatype NextLine = Never | OpensAt(instant: int)

  /** The line for an entry: never when expired or when there is no next run
      (an instant of 0 counts as none), else the next run. */
  function DisplayedNext(s: Schedule, now: int): NextLine {
    if IsExpired(s) then Never
    else
      match NextLocal(Some(s), now)
      case Some(t) => if t != 0 then OpensAt(t) else Never
      case None => Never
  }

  // ---------------------------------------------------------------------------
  // Deleting

  /** Keeps the entries whose id differs from `id`. */
  function OtherId(id: string): Schedule -> bool {
    (x: Schedule) => x.id != id
  }

  /** Deleting one entry: every entry with its id goes. */
  function DeleteById(list: seq<Schedule>, id: string): (r: seq<Schedule>)
    ensures forall x :: x in r <==> x in list && x.id != id
  {
    Filter(list, OtherId(id))
  }

  /** Deleting a window group: every entry of the group goes. */
  function DeleteGroup(list: seq<Schedule>, group: string): (r: seq<Schedule>)
    ensures forall x :: x in r <==> x in list && x.windowGroup != Some(group)
  {
    Filter(list, OutsideGroup(Some(group)))
  }

  // ---------------------------------------------------------------------------
  // Order and search

  /** The values of the order selector; anything else falls back to newest first. */
  datatype Order = CreatedDesc | CreatedAsc | TimesDesc | TimesAsc | NextAsc | NextDesc

  function OrderOf(value: string): Order {
    if value == "created-asc" then CreatedAsc
    else if value == "times-desc" then TimesDesc
    else if value == "times-asc" then TimesAsc
    else if value == "next-asc" then NextAsc
    else if value == "next-desc" then NextDesc
    else CreatedDesc
  }

  /** `a.localeCompare(b) <= 0`, taken as code-unit lexicographic order. */
  predicate StrLe(a: string, b: string)
    decreases |a|
  {
    |a| == 0 || (|b| > 0 && (a[0] < b[0] || (a[0] == b[0] && StrLe(a[1..], b[1..]))))
  }

  /** The sort key of the `next` orders: the next run, with no next run as +Infinity. */
  function NextKey(s: Schedule, now: int): Option<int> {
    NextLocal(Some(s), now)
  }

  /** `x <= y` on keys where `None` is +Infinity (`Infinity - Infinity` is NaN,
      which the sort takes as equal). */
  predicate KeyLe(x: Option<int>, y: Option<int>) {
    y.None? || (x.Some? && x.value <= y.value)
  }

  /** The comparator of each order, as "may come before". */
  function Precedes(o: Order, now: int): Cmp {
    match o
    case CreatedDesc => (a: Schedule, b: Schedule) => StrLe(b.id, a.id)
    case CreatedAsc => (a: Schedule, b: Schedule) => StrLe(a.id, b.id)
    case TimesDesc => (a: Schedule, b: Schedule) => RunCount(b) <= RunCount(a)
    case TimesAsc => (a: Schedule, b: Schedule) => RunCount(a) <= RunCount(b)
    case NextAsc => (a: Schedule, b: Schedule) => KeyLe(NextKey(a, now), NextKey(b, now))
    case NextDesc => (a: Schedule, b: Schedule) => KeyLe(NextKey(b, now), NextKey(a, now))
  }

  /** The search test: the lowered URL or message includes the query. */
  function MatchesQuery(q: string): Schedule -> bool {
    (s: Schedule) => Contains(Lower(s.url), q) || Contains(Lower(s.message), q)
  }

  /** The search bar: a blank query keeps everything, otherwise the trimmed,
      lowered query filters. */
  function Search(list: seq<Schedule>, query: string): seq<Schedule> {
    var q := Trim(query);
    if |q| == 0 then list else Filter(list, MatchesQuery(Lower(q)))
  }

  /** The list `refresh` hands to the renderer. */
  function Refresh(list: seq<Schedule>, orderValue: string, query: string, now: int): seq<Schedule> {
    Search(SortBy(list, Precedes(OrderOf(orderValue), now)), query)
  }

  // ---------------------------------------------------------------------------
  // Grouping for display

  /** The entries as the renderer sees them, run counts made numeric. */
  function NormalizeAll(list: seq<Schedule>): (r: seq<Schedule>)
    ensures |r| == |list|
    ensures forall i :: 0 <= i < |list| ==> r[i] == Normalize(list[i])
  {
    seq(|list|, i requires 0 <= i < |list| => Normalize(list[i]))
  }

  /** The window groups of `list`, each once, in order of first appearance. */
  function GroupKeys(list: seq<Schedule>): seq<string> {
    if |list| == 0 then []
    else
      var keys := GroupKeys(list[..|list| - 1]);
      var g := list[|list| - 1].windowGroup;
      if InGroup(g) && g.value !in keys then keys + [g.value] else keys
  }

  /** Keeps the entries of window group `g`. */
  function OfGroup(g: string): Schedule -> bool {
    (x: Schedule) => x.windowGroup == Some(g)
  }

  /** Keeps the entries outside any window group. */
  function Ungrouped(): Schedule -> bool {
    (x: Schedule) => !InGroup(x.windowGroup)
  }

  /** The order inside a group: `(a.windowIndex || 0) - (b.windowIndex || 0)`. */
  function ByWindowIndex(): Cmp {
    (a: Schedule, b: Schedule) => a.windowIndex.GetOr(0) <= b.windowIndex.GetOr(0)
  }

  /** What the renderer lays out: the window groups (in first-appearance order,
      each sorted by position) and then the single entries. */
  datatype Display = Display(keys: seq<string>, groups: seq<seq<Schedule>>, singles: seq<Schedule>)

  /** The layout of `list`. */
  function Layout(list: seq<Schedule>): Display {
    var n := NormalizeAll(list);
    var keys := GroupKeys(n);
    Display(keys,
            seq(|keys|, i requires 0 <= i < |keys| => SortBy(Filter(n, OfGroup(keys[i])), ByWindowIndex())),
            Filter(n, Ungrouped()))
  }

  /** `list` has an entry of window group `g`. */
  predicate HasGroup(list: seq<Schedule>, g: string) {
    exists x :: x in list && x.windowGroup == Some(g)
  }

  /** The group keys are exactly the non-empty groups that occur. */
  lemma {:induction false} GroupKeysExact(list: seq<Schedule>, g: string)
    ensures g in GroupKeys(list) <==> |g| > 0 && HasGroup(list, g)
    decreases |list|
  {
    if |list| > 0 {
      var init := list[..|list| - 1];
      var last := list[|list| - 1];
      GroupKeysExact(init, g);
      assert list == init + [last];
      if HasGroup(list, g) && last.windowGroup != Some(g) {
        var x :| x in list && x.windowGroup == Some(g);
        assert x in init;
      }
      if HasGroup(init, g) {
        var x :| x in init && x.windowGroup == Some(g);
        assert x in list;
      }
    }
  }

  /** No group key appears twice. */
  lemma {:induction false} GroupKeysDistinct(list: seq<Schedule>)
    ensures forall a, b :: 0 <= a < b < |GroupKeys(list)| ==> GroupKeys(list)[a] != GroupKeys(list)[b]
    decreases |list|
  {
    if |list| > 0 {
      GroupKeysDistinct(list[..|list| - 1]);
    }
  }

  /** The renderer's grouping pass: the window groups gathered and each sorted
      by position, then laid out with the singles. */
  method GroupForDisplay(list: seq<Schedule>) returns (d: Display)
    ensures d == Layout(list)
  {
    var keys, groups, singles := Gather(list);
    ghost var n := NormalizeAll(list);
    assert forall g :: g in keys ==> g in groups && groups[g] == Filter(n, OfGroup(g));
    var rendered := SortGroups(NormalizeAll(list), keys, groups);
    d := Display(keys, rendered, singles);
  }

  /** The `forEach` over the list: entries of a window group go into a map
      keyed by group, first appearances recorded in order, the others into
      the singles. */
  method Gather(list: seq<Schedule>) returns (keys: seq<string>, groups: map<string, seq<Schedule>>, singles: seq<Schedule>)
    ensures Gathered(NormalizeAll(list), keys, groups, singles)
  {
    ghost var n := NormalizeAll(list);
    keys, groups, singles := [], map[], [];
    var i := 0;
    while i < |list|
      invariant 0 <= i <= |list|
      invariant Gathered(n[..i], keys, groups, singles)
    {
      var s := Normalize(list[i]);
      keys, groups, singles := GatherOne(n, i, s, keys, groups, singles);
      i := i + 1;
    }
    assert n[..|list|] == n;
  }

  /** The body of the `forEach`: file entry `s`, which is `n[i]`, under its
      group or among the singles. */
  method GatherOne(ghost n: seq<Schedule>, ghost i: int, s: Schedule,
                   keys0: seq<string>, groups0: map<string, seq<Schedule>>, singles0: seq<Schedule>)
    returns (keys: seq<string>, groups: map<string, seq<Schedule>>, singles: seq<Schedule>)
    requires 0 <= i < |n| && s == n[i]
    requires Gathered(n[..i], keys0, groups0, singles0)
    ensures Gathered(n[..i + 1], keys, groups, singles)
  {
    keys, groups, singles := keys0, groups0, singles0;
    if InGroup(s.windowGroup) {
      var g := s.windowGroup.value;
      if g !in groups {
        keys := keys + [g];
        groups := groups[g := []];
      }
      groups := groups[g := groups[g] + [s]];
    } else {
      singles := singles + [s];
    }
    GatherStep(n, i, keys0, groups0, singles0, keys, groups, singles);
  }

  /** The state of the gathering pass after the entries of `n`: the group keys,
      each group's members, and the singles. */
  ghost predicate Gathered(n: seq<Schedule>, keys: seq<string>, groups: map<string, seq<Schedule>>, singles: seq<Schedule>) {
    && keys == GroupKeys(n)
    && (forall g :: g in groups <==> g in keys)
    && (forall g :: g in groups ==> groups[g] == Filter(n, OfGroup(g)))
    && singles == Filter(n, Ungrouped())
  }

  /** One step of the gathering pass keeps `Gathered`. */
  lemma GatherStep(n: seq<Schedule>, i: int,
                   keys0: seq<string>, groups0: map<string, seq<Schedule>>, singles0: seq<Schedule>,
                   keys: seq<string>, groups: map<string, seq<Schedule>>, singles: seq<Schedule>)
    requires 0 <= i < |n|
    requires Gathered(n[..i], keys0, groups0, singles0)
    requires var s := n[i];
      if InGroup(s.windowGroup) then
        var g := s.windowGroup.value;
        && keys == (if g in groups0 then keys0 else keys0 + [g])
        && groups == groups0[g := (if g in groups0 then groups0[g] else []) + [s]]
        && singles == singles0
      else keys == keys0 && groups == groups0 && singles == singles0 + [s]
    ensures Gathered(n[..i + 1], keys, groups, singles)
  {
    KeysStep(n, i);
    FilterStep(n, i, Ungrouped());
    GroupsStep(n, i, keys, groups0, groups);
  }

  /** Sorting each group by position, in key order; an empty group shows nothing. */
  method SortGroups(n: seq<Schedule>, keys: seq<string>, groups: map<string, seq<Schedule>>) returns (rendered: seq<seq<Schedule>>)
    requires keys == GroupKeys(n)
    requires forall g :: g in keys ==> g in groups && groups[g] == Filter(n, OfGroup(g))
    ensures rendered == seq(|keys|, i requires 0 <= i < |keys| => SortBy(Filter(n, OfGroup(keys[i])), ByWindowIndex()))
  {
    ghost var target := seq(|keys|, i requires 0 <= i < |keys| => SortBy(Filter(n, OfGroup(keys[i])), ByWindowIndex()));
    rendered := [];
    var j := 0;
    while j < |keys|
      invariant 0 <= j <= |keys|
      invariant rendered == target[..j]
    {
      var members := groups[keys[j]];
      GroupNonEmpty(n, keys[j]);
      if |members| > 0 {
        assert SortBy(members, ByWindowIndex()) == target[j];
        TakeOneMore(target, j);
        rendered := rendered + [SortBy(members, ByWindowIndex())];
      } else {
        assert false;
      }
      j := j + 1;
    }
    assert target[..|keys|] == target;
  }

  /** A prefix one element longer is the prefix followed by that element. */
  lemma TakeOneMore(xs: seq<seq<Schedule>>, j: int)
    requires 0 <= j < |xs|
    ensures xs[..j + 1] == xs[..j] + [xs[j]]
  {
  }

  /** The group map after entry `i` holds the members of the prefix one entry longer. */
  lemma GroupsStep(n: seq<Schedule>, i: int, keys: seq<string>, before: map<string, seq<Schedule>>, after: map<string, seq<Schedule>>)
    requires 0 <= i < |n|
    requires forall g :: g in before <==> g in GroupKeys(n[..i])
    requires forall g :: g in before ==> before[g] == Filter(n[..i], OfGroup(g))
    requires keys == GroupKeys(n[..i + 1])
    requires after == if !InGroup(n[i].windowGroup) then before
      else var g := n[i].windowGroup.value;
        before[g := (if g in before then before[g] else []) + [n[i]]]
    ensures forall g :: g in after <==> g in keys
    ensures forall g :: g in after ==> after[g] == Filter(n[..i + 1], OfGroup(g))
  {
    KeysStep(n, i);
    forall h | h in after
      ensures after[h] == Filter(n[..i + 1], OfGroup(h))
    {
      FilterStep(n, i, OfGroup(h));
      if InGroup(n[i].windowGroup) && h == n[i].windowGroup.value {
        if h !in before {
          NewGroupEmpty(n, i, h);
          assert after[h] == [] + [n[i]];
        } else {
          assert after[h] == before[h] + [n[i]];
        }
      } else {
        GroupKeysExact(n[..i], h);
        assert !OfGroup(h)(n[i]);
        assert after[h] == before[h];
        assert Filter(n[..i + 1], OfGroup(h)) == Filter(n[..i], OfGroup(h)) + [];
      }
    }
  }

  /** Adding entry `i` to the prefix adds its group, if it is new. */
  lemma KeysStep(n: seq<Schedule>, i: int)
    requires 0 <= i < |n|
    ensures GroupKeys(n[..i + 1]) ==
      var keys := GroupKeys(n[..i]);
      var g := n[i].windowGroup;
      if InGroup(g) && g.value !in keys then keys + [g.value] else keys
  {
    assert n[..i + 1][..i] == n[..i];
  }

  /** Filtering a prefix one entry longer. */
  lemma FilterStep(n: seq<Schedule>, i: int, keep: Schedule -> bool)
    requires 0 <= i < |n|
    ensures Filter(n[..i + 1], keep) == Filter(n[..i], keep) + (if keep(n[i]) then [n[i]] else [])
  {
    assert n[..i + 1] == n[..i] + [n[i]];
    FilterConcat(n[..i], [n[i]], keep);
  }

  /** A group not yet among the keys of a prefix has no member in it. */
  lemma NewGroupEmpty(n: seq<Schedule>, i: int, g: string)
    requires 0 <= i <= |n| && |g| > 0 && g !in GroupKeys(n[..i])
    ensures Filter(n[..i], OfGroup(g)) == []
  {
    GroupKeysExact(n[..i], g);
    var before := Filter(n[..i], OfGroup(g));
    if |before| > 0 {
      assert before[0] in before;
      assert HasGroup(n[..i], g);
    }
  }

  /** Every group key has at least one member. */
  lemma GroupNonEmpty(n: seq<Schedule>, g: string)
    requires g in GroupKeys(n)
    ensures |Filter(n, OfGroup(g))| > 0
  {
    GroupKeysExact(n, g);
    var x :| x in n && x.windowGroup == Some(g);
    assert x in Filter(n, OfGroup(g));
  }
}

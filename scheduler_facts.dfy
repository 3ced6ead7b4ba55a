/**
  What the recurrence calculator promises: the next fire instant is the
  earliest occurrence after `now`, and the occurrences listed for a window are
  exactly the occurrences inside it, increasing, and bounded by the cap.
 */
module SchedulerFacts {
  import opened Wrappers
  import opened Calendar
  import opened Schedules
  import opened Scheduler

  ghost predicate Increasing(xs: seq<int>) {
    forall i, j :: 0 <= i < j < |xs| ==> xs[i] < xs[j]
  }

  /** Every element lies inside the window (start, end] and is an occurrence. */
  ghost predicate AllOccurInWindow(s: Schedule, xs: seq<int>, start: int, end: int) {
    forall k :: 0 <= k < |xs| ==> start < xs[k] <= end && IsOccurrence(s, xs[k])
  }

  lemma IncreasingConcat(a: seq<int>, b: seq<int>)
    requires Increasing(a) && Increasing(b)
    requires forall i, j :: 0 <= i < |a| && 0 <= j < |b| ==> a[i] < b[j]
    ensures Increasing(a + b)
  {
  }

  /** A non-empty sequence contains its first element. */
  lemma HeadIn(xs: seq<int>)
    requires |xs| > 0
    ensures xs[0] in xs
  {
  }

  /** Two increasing sequences with the same elements are the same sequence. */
  lemma {:induction false} IncreasingSameElements(x: seq<int>, y: seq<int>)
    requires Increasing(x) && Increasing(y)
    requires forall t :: t in x <==> t in y
    ensures x == y
    decreases |x|
  {
    if |x| == 0 {
      if |y| > 0 {
        HeadIn(y);
        assert false;
      }
    } else {
      assert x[0] in x;
      assert |y| > 0;
      assert y[0] in y;
      assert x[0] == y[0];
      forall t
        ensures t in x[1..] <==> t in y[1..]
      {
        if t in x[1..] {
          assert t in x && t != x[0];
        }
        if t in y[1..] {
          assert t in y && t != y[0];
        }
        assert t in x && t != x[0] ==> t in x[1..];
        assert t in y && t != y[0] ==> t in y[1..];
      }
      IncreasingSameElements(x[1..], y[1..]);
      assert x == [x[0]] + x[1..];
      assert y == [y[0]] + y[1..];
    }
  }

  // ---------------------------------------------------------------------------
  // Instants at a fixed time of day

  /** Two instants with the same time of day that differ lie whole days apart. */
  lemma SameTimeOfDayApart(t: int, u: int)
    requires t < u && TimeInDay(t) == TimeInDay(u)
    ensures t + MsPerDay <= u
  {
    DayAndTime(t);
    DayAndTime(u);
    assert DayOf(t) < DayOf(u);
  }

  lemma AtClockFacts(day: int, s: Schedule)
    ensures DayOf(AtClock(day, s)) == day
    ensures TimeInDay(AtClock(day, s)) == Offset(s)
    ensures day * MsPerDay <= AtClock(day, s) < (day + 1) * MsPerDay
  {
    DayOfInstant(day, Offset(s));
  }

  /** An instant whose time of day is the schedule's clock is `AtClock` of its day. */
  lemma AtClockOfDay(s: Schedule, t: int)
    requires TimeInDay(t) == Offset(s)
    ensures t == AtClock(DayOf(t), s)
  {
    DayAndTime(t);
  }

  /** `DailyFirst(s, start)` is the first instant after `start` at the schedule's clock. */
  lemma DailyFirstLeast(s: Schedule, start: int)
    ensures start < DailyFirst(s, start) <= start + MsPerDay
    ensures TimeInDay(DailyFirst(s, start)) == Offset(s)
    ensures forall t :: start < t && TimeInDay(t) == Offset(s) ==> DailyFirst(s, start) <= t
  {
    var d := DayOf(start);
    DayAndTime(start);
    AtClockFacts(d, s);
    AtClockFacts(d + 1, s);
    forall t | start < t && TimeInDay(t) == Offset(s)
      ensures DailyFirst(s, start) <= t
    {
      AtClockOfDay(s, t);
      DayOfMonotone(start, t);
      if DayOf(t) == d {
        assert t == AtClock(d, s);
      } else {
        assert AtClock(d + 1, s) <= AtClock(DayOf(t), s);
      }
    }
  }

  // ---------------------------------------------------------------------------
  // The daily run

  lemma {:induction false} DailyRunFacts(s: Schedule, cand: int, end: int, budget: nat)
    requires TimeInDay(cand) == Offset(s)
    ensures |DailyRun(cand, end, budget)| <= budget
    ensures Increasing(DailyRun(cand, end, budget))
    ensures forall k :: 0 <= k < |DailyRun(cand, end, budget)| ==>
      cand <= DailyRun(cand, end, budget)[k] <= end && TimeInDay(DailyRun(cand, end, budget)[k]) == Offset(s)
    decreases budget
  {
    if cand <= end && budget > 0 {
      DayAndTime(cand);
      DayOfInstant(DayOf(cand) + 1, TimeInDay(cand));
      DailyRunFacts(s, cand + MsPerDay, end, budget - 1);
      IncreasingConcat([cand], DailyRun(cand + MsPerDay, end, budget - 1));
    }
  }

  lemma {:induction false} DailyRunComplete(cand: int, end: int, budget: nat, t: int)
    requires cand <= t <= end && TimeInDay(t) == TimeInDay(cand)
    requires end < cand + budget * MsPerDay
    ensures t in DailyRun(cand, end, budget)
    decreases budget
  {
    if t != cand {
      SameTimeOfDayApart(cand, t);
      DayAndTime(cand);
      DayOfInstant(DayOf(cand) + 1, TimeInDay(cand));
      DailyRunComplete(cand + MsPerDay, end, budget - 1, t);
    }
  }

  // ---------------------------------------------------------------------------
  // The weekly run

  /** A run of at most `budget` instants, increasing, inside the window, and none before `lo`. */
  ghost predicate RunWithin(s: Schedule, xs: seq<int>, start: int, end: int, lo: int, budget: nat) {
    && |xs| <= budget
    && Increasing(xs)
    && AllOccurInWindow(s, xs, start, end)
    && forall k :: 0 <= k < |xs| ==> lo <= xs[k]
  }

  lemma {:induction false} WeeklyRunFacts(s: Schedule, day: int, start: int, end: int, budget: nat)
    requires s.kind == Weekly && s.days.Some?
    ensures RunWithin(s, WeeklyRun(s, day, start, end, budget), start, end, day * MsPerDay, budget)
    decreases budget
  {
    if day * MsPerDay <= end && budget > 0 {
      WeeklyRunFacts(s, day + 1, start, end, budget - 1);
      WeeklyRunExtend(s, day, start, end, budget);
    }
  }

  lemma WeeklyRunExtend(s: Schedule, day: int, start: int, end: int, budget: nat)
    requires s.kind == Weekly && s.days.Some? && day * MsPerDay <= end && budget > 0
    requires RunWithin(s, WeeklyRun(s, day + 1, start, end, budget - 1), start, end, (day + 1) * MsPerDay, budget - 1)
    ensures RunWithin(s, WeeklyRun(s, day, start, end, budget), start, end, day * MsPerDay, budget)
  {
    var occ := AtClock(day, s);
    var rest := WeeklyRun(s, day + 1, start, end, budget - 1);
    AtClockFacts(day, s);
    var head := if WeekdayOf(day) in s.days.value && start < occ <= end then [occ] else [];
    assert WeeklyRun(s, day, start, end, budget) == head + rest;
    RunCons(s, head, rest, start, end, day * MsPerDay, (day + 1) * MsPerDay);
  }

  /** One step of a run: at most one occurrence of the current period in front
      of a run that starts no earlier than the next period. */
  lemma RunCons(s: Schedule, head: seq<int>, rest: seq<int>, start: int, end: int, lo: int, mid: int)
    requires |head| <= 1
    requires forall k :: 0 <= k < |head| ==> lo <= head[k] < mid
    requires AllOccurInWindow(s, head, start, end)
    requires Increasing(rest) && AllOccurInWindow(s, rest, start, end)
    requires forall k :: 0 <= k < |rest| ==> mid <= rest[k]
    requires lo <= mid
    ensures Increasing(head + rest)
    ensures AllOccurInWindow(s, head + rest, start, end)
    ensures forall k :: 0 <= k < |head + rest| ==> lo <= (head + rest)[k]
  {
    IncreasingConcat(head, rest);
    var r := head + rest;
    forall k | 0 <= k < |r|
      ensures start < r[k] <= end && IsOccurrence(s, r[k]) && lo <= r[k]
    {
      if k < |head| {
        assert r[k] == head[k];
      } else {
        assert r[k] == rest[k - |head|];
      }
    }
  }

  lemma {:induction false} WeeklyRunComplete(s: Schedule, day: int, start: int, end: int, budget: nat, t: int)
    requires s.kind == Weekly && s.days.Some?
    requires start < t <= end && IsOccurrence(s, t)
    requires day <= DayOf(t) < day + budget
    ensures t in WeeklyRun(s, day, start, end, budget)
    decreases budget
  {
    AtClockOfDay(s, t);
    AtClockFacts(DayOf(t), s);
    if DayOf(t) != day {
      WeeklyRunComplete(s, day + 1, start, end, budget - 1, t);
    }
  }

  // ---------------------------------------------------------------------------
  // The monthly run

  lemma MonthStartLe(a: int, b: int)
    requires a <= b
    ensures MonthStart(a) <= MonthStart(b)
  {
    if a < b {
      MonthStartNext(a);
      MonthStartMonotone(a, b);
    }
  }

  /** The monthly fire instant of month `mi` lies in month `mi`, on the clamped day. */
  lemma MonthlyOccurrenceFacts(s: Schedule, mi: int)
    requires ValidMonthDay(s)
    ensures DayOf(MonthlyOccurrence(s, mi)) == MonthStart(mi) + ClampedDay(s, mi) - 1
    ensures MonthOfDay(DayOf(MonthlyOccurrence(s, mi))) == mi
    ensures TimeInDay(MonthlyOccurrence(s, mi)) == Offset(s)
    ensures MonthStart(mi) * MsPerDay <= MonthlyOccurrence(s, mi) < MonthStart(mi + 1) * MsPerDay
    ensures s.kind == Monthly ==> IsOccurrence(s, MonthlyOccurrence(s, mi))
  {
    var d := MonthStart(mi) + ClampedDay(s, mi) - 1;
    AtClockFacts(d, s);
    MonthStartNext(mi);
    MonthOfDayUnique(d, mi);
  }

  lemma {:induction false} MonthlyRunFacts(s: Schedule, mi: int, start: int, end: int, budget: nat)
    requires s.kind == Monthly && ValidMonthDay(s)
    ensures RunWithin(s, MonthlyRun(s, mi, start, end, budget), start, end, MonthStart(mi) * MsPerDay, budget)
    decreases budget
  {
    if MonthStart(mi) * MsPerDay <= end && budget > 0 {
      MonthlyRunFacts(s, mi + 1, start, end, budget - 1);
      MonthlyRunExtend(s, mi, start, end, budget);
    }
  }

  lemma MonthlyRunExtend(s: Schedule, mi: int, start: int, end: int, budget: nat)
    requires s.kind == Monthly && ValidMonthDay(s) && MonthStart(mi) * MsPerDay <= end && budget > 0
    requires RunWithin(s, MonthlyRun(s, mi + 1, start, end, budget - 1), start, end, MonthStart(mi + 1) * MsPerDay, budget - 1)
    ensures RunWithin(s, MonthlyRun(s, mi, start, end, budget), start, end, MonthStart(mi) * MsPerDay, budget)
  {
    var occ := MonthlyOccurrence(s, mi);
    var rest := MonthlyRun(s, mi + 1, start, end, budget - 1);
    MonthlyOccurrenceFacts(s, mi);
    MonthStartNext(mi);
    var head := if start < occ <= end then [occ] else [];
    assert MonthlyRun(s, mi, start, end, budget) == head + rest;
    RunCons(s, head, rest, start, end, MonthStart(mi) * MsPerDay, MonthStart(mi + 1) * MsPerDay);
  }

  lemma {:induction false} MonthlyRunComplete(s: Schedule, mi: int, start: int, end: int, budget: nat, t: int)
    requires s.kind == Monthly && ValidMonthDay(s)
    requires start < t <= end && IsOccurrence(s, t)
    requires mi <= MonthOfDay(DayOf(t)) < mi + budget
    ensures t in MonthlyRun(s, mi, start, end, budget)
    decreases budget
  {
    var mt := MonthOfDay(DayOf(t));
    MonthStartLe(mi, mt);
    DayAndTime(t);
    if mt != mi {
      MonthlyRunComplete(s, mi + 1, start, end, budget - 1, t);
    }
  }

  // ---------------------------------------------------------------------------
  // occurrencesBetween

  /**
    The cap does not cut the walk short: the loop reaches past `end` within
    `cap` iterations.
   */
  ghost predicate CapCovers(s: Schedule, start: int, end: int, cap: nat) {
    match s.kind
    case Daily => end < DailyFirst(s, start) + cap * MsPerDay
    case Weekly => end < (DayOf(start) + cap) * MsPerDay
    case Monthly => ValidMonthDay(s) ==> end < MonthStart(MonthOfDay(DayOf(start)) + cap) * MsPerDay
    case _ => true
  }

  /** Soundness: the listed instants are occurrences inside (start, end], in
      increasing order, and there are at most `cap` of them (a `once`
      schedule ignores the cap and yields at most one). */
  lemma OccurrencesSound(s: Schedule, start: int, end: int, cap: nat)
    ensures AllOccurInWindow(s, Occurrences(s, start, end, cap), start, end)
    ensures Increasing(Occurrences(s, start, end, cap))
    ensures s.kind != Once ==> |Occurrences(s, start, end, cap)| <= cap
    ensures s.kind == Once ==> |Occurrences(s, start, end, cap)| <= 1
  {
    match s.kind {
      case Once =>
      case Daily =>
        DailyFirstLeast(s, start);
        DailyRunFacts(s, DailyFirst(s, start), end, cap);
      case Weekly =>
        if HasDays(s) {
          WeeklyRunFacts(s, DayOf(start), start, end, cap);
        }
      case Monthly =>
        if ValidMonthDay(s) {
          MonthlyRunFacts(s, MonthOfDay(DayOf(start)), start, end, cap);
        }
      case Unrecognized =>
    }
  }

  /** Schedules that can never fire yield nothing. */
  lemma OccurrencesEmpty(s: Schedule, start: int, end: int, cap: nat)
    requires s.kind == Unrecognized || (s.kind == Weekly && !HasDays(s)) || (s.kind == Monthly && !ValidMonthDay(s))
      || end <= start
    ensures Occurrences(s, start, end, cap) == []
  {
    var r := Occurrences(s, start, end, cap);
    OccurrencesSound(s, start, end, cap);
    if |r| > 0 {
      HeadIn(r);
      assert false;
    }
  }

  /** Completeness: when the cap does not cut the walk short, every occurrence
      inside (start, end] is listed. */
  lemma OccurrencesComplete(s: Schedule, start: int, end: int, cap: nat, t: int)
    requires CapCovers(s, start, end, cap)
    requires start < t <= end && IsOccurrence(s, t)
    ensures t in Occurrences(s, start, end, cap)
  {
    match s.kind {
      case Once =>
      case Daily =>
        DailyFirstLeast(s, start);
        DailyRunComplete(DailyFirst(s, start), end, cap, t);
      case Weekly =>
        assert WeekdayOf(DayOf(t)) in s.days.value;
        DayOfMonotone(start, t);
        DayAndTime(t);
        WeeklyRunComplete(s, DayOf(start), start, end, cap, t);
      case Monthly =>
        var m0 := MonthOfDay(DayOf(start));
        var mt := MonthOfDay(DayOf(t));
        DayOfMonotone(start, t);
        MonthOfDayMonotone(DayOf(start), DayOf(t));
        DayAndTime(t);
        if m0 + cap <= mt {
          MonthStartLe(m0 + cap, mt);
        }
        MonthlyRunComplete(s, m0, start, end, cap, t);
    }
  }

  /** Under a covering cap, the listed instants are exactly the occurrences in
      the window, in increasing order: any increasing list of them equals it. */
  lemma OccurrencesExact(s: Schedule, start: int, end: int, cap: nat, xs: seq<int>)
    requires CapCovers(s, start, end, cap)
    requires Increasing(xs)
    requires forall t :: t in xs <==> start < t <= end && IsOccurrence(s, t)
    ensures Occurrences(s, start, end, cap) == xs
  {
    var occ := Occurrences(s, start, end, cap);
    OccurrencesSound(s, start, end, cap);
    forall t
      ensures t in occ <==> t in xs
    {
      if start < t <= end && IsOccurrence(s, t) {
        OccurrencesComplete(s, start, end, cap, t);
      }
    }
    IncreasingSameElements(occ, xs);
  }

  lemma CapCoversSplit(s: Schedule, a: int, b: int, c: int, cap: nat)
    requires a <= b <= c && CapCovers(s, a, c, cap)
    ensures CapCovers(s, a, b, cap) && CapCovers(s, b, c, cap)
  {
    match s.kind {
      case Daily =>
        DailyCapSplit(s, a, b, c, cap);
      case Weekly =>
        DayOfMonotone(a, b);
      case Monthly =>
        if ValidMonthDay(s) {
          MonthlyCapSplit(a, b, c, cap);
        }
      case _ =>
    }
  }

  lemma DailyCapSplit(s: Schedule, a: int, b: int, c: int, cap: nat)
    requires a <= b <= c && c < DailyFirst(s, a) + cap * MsPerDay
    ensures b < DailyFirst(s, a) + cap * MsPerDay && c < DailyFirst(s, b) + cap * MsPerDay
  {
    DailyFirstLeast(s, a);
    DailyFirstLeast(s, b);
  }

  lemma MonthlyCapSplit(a: int, b: int, c: int, cap: nat)
    requires a <= b <= c && c < MonthStart(MonthOfDay(DayOf(a)) + cap) * MsPerDay
    ensures b < MonthStart(MonthOfDay(DayOf(a)) + cap) * MsPerDay
    ensures c < MonthStart(MonthOfDay(DayOf(b)) + cap) * MsPerDay
  {
    DayOfMonotone(a, b);
    MonthOfDayMonotone(DayOf(a), DayOf(b));
    MonthStartLe(MonthOfDay(DayOf(a)) + cap, MonthOfDay(DayOf(b)) + cap);
  }

  /**
    Consecutive windows compose: the occurrences of (a, b] followed by those of
    (b, c] are those of (a, c]. Reconciling at `b` and again at `c` counts each
    missed occurrence once.
   */
  lemma OccurrencesSplit(s: Schedule, a: int, b: int, c: int, cap: nat)
    requires a <= b <= c && CapCovers(s, a, c, cap)
    ensures Occurrences(s, a, b, cap) + Occurrences(s, b, c, cap) == Occurrences(s, a, c, cap)
  {
    var x, y := Occurrences(s, a, b, cap), Occurrences(s, b, c, cap);
    CapCoversSplit(s, a, b, c, cap);
    OccurrencesSound(s, a, b, cap);
    OccurrencesSound(s, b, c, cap);
    IncreasingConcat(x, y);
    forall t
      ensures t in x + y <==> a < t <= c && IsOccurrence(s, t)
    {
      if a < t <= b && IsOccurrence(s, t) {
        OccurrencesComplete(s, a, b, cap, t);
      } else if b < t <= c && IsOccurrence(s, t) {
        OccurrencesComplete(s, b, c, cap, t);
      }
    }
    OccurrencesExact(s, a, c, cap, x + y);
  }

  /** The cap of 365 covers the one-day look-back window used on a first run. */
  lemma DefaultCapCoversADay(s: Schedule, now: int)
    ensures CapCovers(s, now - MsPerDay, now, DefaultCap)
  {
    var start := now - MsPerDay;
    DailyFirstLeast(s, start);
    DayAndTime(start);
    if s.kind == Monthly && ValidMonthDay(s) {
      var m0 := MonthOfDay(DayOf(start));
      MonthStartNext(m0 + 1);
      MonthStartMonotone(m0, m0 + 1);
      MonthStartLe(m0 + 2, m0 + DefaultCap);
      DayAndTime(now);
    }
  }

  // ---------------------------------------------------------------------------
  // computeNextForSchedule

  /** Moving `(d - dow + 7) % 7` days forward from `today` reaches the first
      day on or after `today` whose weekday is `d`. */
  lemma WeekdayForward(today: int, d: Weekday, du: int)
    requires today <= du && WeekdayOf(du) == d
    ensures WeekdayOf(today + (d - WeekdayOf(today) + 7) % 7) == d
    ensures WeekdayOf(today + (d - WeekdayOf(today) + 7) % 7 + 7) == d
    ensures var delta := (d - WeekdayOf(today) + 7) % 7;
      du == today + delta || today + delta + 7 <= du
  {
    var w := WeekdayOf(today);
    var q := (today + 4) / 7;
    var p := (du + 4) / 7;
    assert today + 4 == 7 * q + w;
    assert du + 4 == 7 * p + d;
    var delta := (d - w + 7) % 7;
    assert delta == (if d - w + 7 < 7 then d - w + 7 else d - w);
    var m := if d - w + 7 < 7 then p - q - 1 else p - q;
    assert du - today - delta == 7 * m;
    assert (today + delta + 4) == 7 * q + w + delta;
  }

  /** The weekly candidate of weekday `d` is the first instant after `now` at
      the schedule's clock on a day with weekday `d`, at most a week ahead. */
  lemma WeeklyCandidateLeast(s: Schedule, now: int, d: Weekday)
    ensures now < WeeklyCandidate(s, now, d) <= now + 7 * MsPerDay
    ensures TimeInDay(WeeklyCandidate(s, now, d)) == Offset(s)
    ensures WeekdayOf(DayOf(WeeklyCandidate(s, now, d))) == d
    ensures forall u :: now < u && TimeInDay(u) == Offset(s) && WeekdayOf(DayOf(u)) == d ==>
      WeeklyCandidate(s, now, d) <= u
  {
    var today := DayOf(now);
    var delta := (d - WeekdayOf(today) + 7) % 7;
    var c := AtClock(today + delta, s);
    DayAndTime(now);
    AtClockFacts(today + delta, s);
    AtClockFacts(today + delta + 7, s);
    WeekdayForward(today, d, today + delta);
    forall u | now < u && TimeInDay(u) == Offset(s) && WeekdayOf(DayOf(u)) == d
      ensures WeeklyCandidate(s, now, d) <= u
    {
      var du := DayOf(u);
      AtClockOfDay(s, u);
      DayOfMonotone(now, u);
      WeekdayForward(today, d, du);
      if du != today + delta {
        AtClockFacts(du, s);
      }
    }
  }

  lemma NextWeeklyLeast(s: Schedule, now: int)
    requires s.kind == Weekly && HasDays(s)
    ensures now < EarliestCandidate(s, now, s.days.value) <= now + 7 * MsPerDay
    ensures IsOccurrence(s, EarliestCandidate(s, now, s.days.value))
    ensures forall u :: now < u && IsOccurrence(s, u) ==> EarliestCandidate(s, now, s.days.value) <= u
  {
    var days := s.days.value;
    var r := EarliestCandidate(s, now, days);
    var i :| 0 <= i < |days| && r == WeeklyCandidate(s, now, days[i]);
    WeeklyCandidateLeast(s, now, days[i]);
    forall u | now < u && IsOccurrence(s, u)
      ensures r <= u
    {
      var j :| 0 <= j < |days| && days[j] == WeekdayOf(DayOf(u));
      WeeklyCandidateLeast(s, now, days[j]);
    }
  }

  /** Monthly fire instants increase with the month. */
  lemma MonthlyOccurrenceOrder(s: Schedule, a: int, b: int)
    requires ValidMonthDay(s) && a < b
    ensures MonthlyOccurrence(s, a) < MonthlyOccurrence(s, b)
  {
    MonthlyOccurrenceFacts(s, a);
    MonthlyOccurrenceFacts(s, b);
    MonthStartLe(a + 1, b);
  }

  /** The monthly next instant is after `now`, and is an occurrence. */
  lemma NextMonthlyIsOccurrence(s: Schedule, now: int)
    requires s.kind == Monthly && ValidMonthDay(s)
    ensures NextForSchedule(s, now).Some?
    ensures now < NextForSchedule(s, now).value
    ensures IsOccurrence(s, NextForSchedule(s, now).value)
  {
    var mi := MonthOfDay(DayOf(now));
    DayAndTime(now);
    MonthlyOccurrenceFacts(s, mi);
    MonthlyOccurrenceFacts(s, mi + 1);
  }

  /** No monthly occurrence after `now` precedes the monthly next instant. */
  lemma NextMonthlyBefore(s: Schedule, now: int, u: int)
    requires s.kind == Monthly && ValidMonthDay(s)
    requires now < u && IsOccurrence(s, u)
    ensures NextForSchedule(s, now).Some? && NextForSchedule(s, now).value <= u
  {
    var mi := MonthOfDay(DayOf(now));
    var mu := MonthOfDay(DayOf(u));
    MonthlyNext(s, now);
    assert u == MonthlyOccurrence(s, mu);
    DayOfMonotone(now, u);
    MonthOfDayMonotone(DayOf(now), DayOf(u));
    MonthlyOccurrenceBefore(s, mi, mu, now);
  }

  /** The monthly next instant: this month's fire instant, or next month's once it has passed. */
  lemma MonthlyNext(s: Schedule, now: int)
    requires s.kind == Monthly && ValidMonthDay(s)
    ensures var mi := MonthOfDay(DayOf(now));
      NextForSchedule(s, now) == Some(if MonthlyOccurrence(s, mi) <= now then MonthlyOccurrence(s, mi + 1) else MonthlyOccurrence(s, mi))
  {
  }

  /** A fire instant after `now` in month `mu` is no earlier than the first
      fire instant after `now` from month `mi` on. */
  lemma MonthlyOccurrenceBefore(s: Schedule, mi: int, mu: int, now: int)
    requires ValidMonthDay(s) && mi <= mu && now < MonthlyOccurrence(s, mu)
    ensures (if MonthlyOccurrence(s, mi) <= now then MonthlyOccurrence(s, mi + 1) else MonthlyOccurrence(s, mi))
      <= MonthlyOccurrence(s, mu)
  {
    if mu > mi + 1 {
      MonthlyOccurrenceOrder(s, mi + 1, mu);
      MonthlyOccurrenceOrder(s, mi, mu);
    } else if mu == mi + 1 {
      MonthlyOccurrenceOrder(s, mi, mu);
    }
  }

  /**
    The central property of `computeNextForSchedule`: its result is the
    earliest occurrence strictly after `now`, and it is `null` exactly when the
    schedule has no occurrence after `now`.
   */
  lemma NextIsEarliestOccurrence(s: Schedule, now: int)
    ensures NextForSchedule(s, now).Some? ==>
      && now < NextForSchedule(s, now).value
      && IsOccurrence(s, NextForSchedule(s, now).value)
      && forall u :: now < u < NextForSchedule(s, now).value ==> !IsOccurrence(s, u)
    ensures NextForSchedule(s, now).None? ==> forall u :: now < u ==> !IsOccurrence(s, u)
  {
    match s.kind {
      case Once =>
      case Daily =>
        DailyFirstLeast(s, now);
      case Weekly =>
        if HasDays(s) {
          NextWeeklyLeast(s, now);
        } else {
          forall u | now < u
            ensures !IsOccurrence(s, u)
          {
            assert s.days.None? || s.days.value == [];
          }
        }
      case Monthly =>
        if ValidMonthDay(s) {
          NextMonthlyIsOccurrence(s, now);
          forall u | now < u && IsOccurrence(s, u)
            ensures NextForSchedule(s, now).value <= u
          {
            NextMonthlyBefore(s, now, u);
          }
        }
      case Unrecognized =>
    }
  }

  /** A daily schedule fires within a day, a weekly one within a week. */
  lemma NextWithinPeriod(s: Schedule, now: int)
    ensures s.kind == Daily ==> NextForSchedule(s, now).Some? && NextForSchedule(s, now).value <= now + MsPerDay
    ensures s.kind == Weekly && HasDays(s) ==>
      NextForSchedule(s, now).Some? && NextForSchedule(s, now).value <= now + 7 * MsPerDay
  {
    if s.kind == Daily {
      DailyFirstLeast(s, now);
    } else if s.kind == Weekly && HasDays(s) {
      NextWeeklyLeast(s, now);
    }
  }

  /** A monthly schedule fires in the current month or the next one, on the
      requested day of the month clamped to that month's length, at its clock. */
  lemma NextMonthlyCalendar(s: Schedule, now: int)
    requires s.kind == Monthly && ValidMonthDay(s)
    ensures var r := NextForSchedule(s, now).value;
      var m := MonthOfDay(DayOf(r));
      && (m == MonthOfDay(DayOf(now)) || m == MonthOfDay(DayOf(now)) + 1)
      && DayOfMonth(DayOf(r)) == (if s.day.value < MonthLength(m) then s.day.value else MonthLength(m))
      && TimeInDay(r) == ClockOffset(ClockOf(s).hour, ClockOf(s).minute)
  {
    var mi := MonthOfDay(DayOf(now));
    MonthlyOccurrenceCalendar(s, mi);
    MonthlyOccurrenceCalendar(s, mi + 1);
  }

  /** The monthly fire instant of month `mi`, read back through the calendar. */
  lemma MonthlyOccurrenceCalendar(s: Schedule, mi: int)
    requires ValidMonthDay(s)
    ensures MonthOfDay(DayOf(MonthlyOccurrence(s, mi))) == mi
    ensures DayOfMonth(DayOf(MonthlyOccurrence(s, mi))) == ClampedDay(s, mi)
    ensures TimeInDay(MonthlyOccurrence(s, mi)) == Offset(s)
  {
    MonthlyOccurrenceFacts(s, mi);
  }

  /** No occurrence lies strictly between `now` and the next fire instant, and
      the next fire instant is the only one up to itself. */
  lemma OccurrencesUpToNext(s: Schedule, now: int, cap: nat)
    requires NextForSchedule(s, now).Some? && CapCovers(s, now, NextForSchedule(s, now).value, cap)
    ensures Occurrences(s, now, NextForSchedule(s, now).value, cap) == [NextForSchedule(s, now).value]
  {
    var t := NextForSchedule(s, now).value;
    NextIsEarliestOccurrence(s, now);
    OccurrencesExact(s, now, t, cap, [t]);
  }

  // ---------------------------------------------------------------------------
  // Worked examples

  /** A weekly Mon/Wed/Fri 12:00 schedule asked on a Wednesday at 11:00
      fires that same day at 12:00. */
  lemma WeeklySameDayExample(s: Schedule, now: int)
    requires s.kind == Weekly && s.days == Some([1, 3, 5]) && ClockOf(s) == Clock(12, 0)
    requires WeekdayOf(DayOf(now)) == 3 && TimeInDay(now) == 11 * MsPerHour
    ensures NextForSchedule(s, now) == Some(AtClock(DayOf(now), s))
  {
    DayAndTime(now);
    var today := DayOf(now);
    assert Offset(s) == 12 * MsPerHour;
    assert WeeklyCandidate(s, now, 3) == AtClock(today, s);
    assert WeeklyCandidate(s, now, 1) == AtClock(today + 5, s);
    assert WeeklyCandidate(s, now, 5) == AtClock(today + 2, s);
    assert [1, 3, 5][1..] == [3, 5];
    assert [3, 5][1..] == [5];
    assert EarliestCandidate(s, now, [5]) == AtClock(today + 2, s);
    assert EarliestCandidate(s, now, [3, 5]) == AtClock(today, s);
  }

  /** A daily 09:00 schedule last reconciled three days ago at 10:00 has
      missed exactly three occurrences by 10:00 today. */
  lemma DailyMissedThreeExample(s: Schedule, day: int)
    requires s.kind == Daily && ClockOf(s) == Clock(9, 0)
    ensures var now := day * MsPerDay + 10 * MsPerHour;
      Occurrences(s, now - 3 * MsPerDay, now, DefaultCap)
        == [AtClock(day - 2, s), AtClock(day - 1, s), AtClock(day, s)]
  {
    var now := day * MsPerDay + 10 * MsPerHour;
    var start := now - 3 * MsPerDay;
    DayOfInstant(day - 3, 10 * MsPerHour);
    assert DailyFirst(s, start) == AtClock(day - 2, s);
    assert DailyRun(AtClock(day, s) + MsPerDay, now, DefaultCap - 3) == [];
  }
}

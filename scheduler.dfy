/**
  The recurrence calculator of lib/scheduler.js (copied verbatim in
  background.js): the next fire instant of a schedule, and every fire instant
  inside a window (start, end].
 */
module Scheduler {
  import opened Wrappers
  import opened Calendar
  import opened Schedules

  /** The default iteration cap of `occurrencesBetween`. */
  const DefaultCap: nat := 365

  /** Milliseconds from midnight to the schedule's `hour:minute`. */
  function Offset(s: Schedule): (r: int)
    ensures 0 <= r < MsPerDay
  {
    ClockOffset(ClockOf(s).hour, ClockOf(s).minute)
  }

  /** Day `day` at the schedule's `hour:minute`. */
  function AtClock(day: int, s: Schedule): int {
    day * MsPerDay + Offset(s)
  }

  /** `Number(s.day)` is a number and neither 0 nor below 1. */
  predicate ValidMonthDay(s: Schedule) {
    s.day.Some? && s.day.value >= 1
  }

  /** `Array.isArray(s.days) && s.days.length > 0`. */
  predicate HasDays(s: Schedule) {
    s.days.Some? && |s.days.value| > 0
  }

  /** `Math.min(day, daysInMonth)` for the month with index `mi`. */
  function ClampedDay(s: Schedule, mi: int): (r: int)
    requires ValidMonthDay(s)
    ensures 1 <= r <= MonthLength(mi)
    ensures r == s.day.value || r == MonthLength(mi)
  {
    if s.day.value < MonthLength(mi) then s.day.value else MonthLength(mi)
  }

  /** The fire instant of a monthly schedule in the month with index `mi`. */
  function MonthlyOccurrence(s: Schedule, mi: int): int
    requires ValidMonthDay(s)
  {
    AtClock(MonthStart(mi) + ClampedDay(s, mi) - 1, s)
  }

  /**
    The reference definition: `t` is an instant at which schedule `s` is due.
    A weekly schedule is due at `hour:minute` on each listed weekday, a monthly
    one at `hour:minute` on the clamped day of every month.
   */
  predicate IsOccurrence(s: Schedule, t: int) {
    match s.kind
    case Once => s.when == Some(t)
    case Daily => TimeInDay(t) == Offset(s)
    case Weekly => s.days.Some? && TimeInDay(t) == Offset(s) && WeekdayOf(DayOf(t)) in s.days.value
    case Monthly => ValidMonthDay(s) && t == MonthlyOccurrence(s, MonthOfDay(DayOf(t)))
    case Unrecognized => false
  }

  /** The candidate of one listed weekday `d`: forward `(d - dow + 7) % 7` days
      to `hour:minute`, and one week further when that is not after `now`. */
  function WeeklyCandidate(s: Schedule, now: int, d: Weekday): int {
    var today := DayOf(now);
    var delta := (d - WeekdayOf(today) + 7) % 7;
    var c := AtClock(today + delta, s);
    if c <= now then c + 7 * MsPerDay else c
  }

  /** `Math.min(...days.map(candidate))`. */
  function EarliestCandidate(s: Schedule, now: int, days: seq<Weekday>): (r: int)
    requires |days| > 0
    ensures exists i :: 0 <= i < |days| && r == WeeklyCandidate(s, now, days[i])
    ensures forall i :: 0 <= i < |days| ==> r <= WeeklyCandidate(s, now, days[i])
  {
    if |days| == 1 then WeeklyCandidate(s, now, days[0])
    else
      var first := WeeklyCandidate(s, now, days[0]);
      var rest := EarliestCandidate(s, now, days[1..]);
      assert forall i :: 1 <= i < |days| ==> days[i] == days[1..][i - 1];
      if first <= rest then first else rest
  }

  /** `computeNextForSchedule(s)` evaluated at instant `now`. */
  function NextForSchedule(s: Schedule, now: int): Option<int> {
    match s.kind
    case Once =>
      if s.when.Some? && s.when.value > now then Some(s.when.value) else None
    case Daily =>
      var next := AtClock(DayOf(now), s);
      Some(if next <= now then next + MsPerDay else next)
    case Weekly =>
      if !HasDays(s) then None else Some(EarliestCandidate(s, now, s.days.value))
    case Monthly =>
      if !ValidMonthDay(s) then None
      else
        var mi := MonthOfDay(DayOf(now));
        var next := MonthlyOccurrence(s, mi);
        Some(if next <= now then MonthlyOccurrence(s, mi + 1) else next)
    case Unrecognized => None
  }

  /** The first daily candidate of `occurrencesBetween`: the start's day at
      `hour:minute`, or the next day when that is not after the start. */
  function DailyFirst(s: Schedule, start: int): int {
    var c := AtClock(DayOf(start), s);
    if c <= start then c + MsPerDay else c
  }

  /** What the daily loop pushes from cursor `cand` with `budget` iterations left. */
  function DailyRun(cand: int, end: int, budget: nat): seq<int>
    decreases budget
  {
    if cand <= end && budget > 0 then [cand] + DailyRun(cand + MsPerDay, end, budget - 1)
    else []
  }

  /** What the weekly loop pushes from the start of day `day`. */
  function WeeklyRun(s: Schedule, day: int, start: int, end: int, budget: nat): seq<int>
    requires s.days.Some?
    decreases budget
  {
    if day * MsPerDay <= end && budget > 0 then
      var occ := AtClock(day, s);
      (if WeekdayOf(day) in s.days.value && start < occ <= end then [occ] else [])
      + WeeklyRun(s, day + 1, start, end, budget - 1)
    else []
  }

  /** What the monthly loop pushes from the first day of month `mi`. */
  function MonthlyRun(s: Schedule, mi: int, start: int, end: int, budget: nat): seq<int>
    requires ValidMonthDay(s)
    decreases budget
  {
    if MonthStart(mi) * MsPerDay <= end && budget > 0 then
      var occ := MonthlyOccurrence(s, mi);
      (if start < occ <= end then [occ] else [])
      + MonthlyRun(s, mi + 1, start, end, budget - 1)
    else []
  }

  /** `occurrencesBetween(s, start, end, cap)` as a function of its inputs. */
  function Occurrences(s: Schedule, start: int, end: int, cap: nat): seq<int> {
    match s.kind
    case Once =>
      if s.when.Some? && start < s.when.value <= end then [s.when.value] else []
    case Monthly =>
      if !ValidMonthDay(s) then [] else MonthlyRun(s, MonthOfDay(DayOf(start)), start, end, cap)
    case Daily =>
      DailyRun(DailyFirst(s, start), end, cap)
    case Weekly =>
      if !HasDays(s) then [] else WeeklyRun(s, DayOf(start), start, end, cap)
    case Unrecognized => []
  }

  /** The daily loop of `occurrencesBetween`. */
  method DailyLoop(s: Schedule, startTs: int, endTs: int, cap: nat) returns (out: seq<int>)
    ensures out == DailyRun(DailyFirst(s, startTs), endTs, cap)
  {
    out := [];
    var cand := AtClock(DayOf(startTs), s);
    if cand <= startTs {
      cand := cand + MsPerDay;
    }
    var i := 0;
    while cand <= endTs && i < cap
      invariant 0 <= i <= cap
      invariant out + DailyRun(cand, endTs, cap - i) == DailyRun(DailyFirst(s, startTs), endTs, cap)
      decreases cap - i
    {
      Push(out, cand, DailyRun(cand + MsPerDay, endTs, cap - i - 1));
      out := out + [cand];
      cand := cand + MsPerDay;
      i := i + 1;
    }
  }

  /** The weekly loop of `occurrencesBetween`: one iteration per day. */
  method WeeklyLoop(s: Schedule, startTs: int, endTs: int, cap: nat) returns (out: seq<int>)
    requires s.days.Some?
    ensures out == WeeklyRun(s, DayOf(startTs), startTs, endTs, cap)
  {
    out := [];
    var days := s.days.value;
    var day := DayOf(startTs);
    var cand := day * MsPerDay;
    var i := 0;
    while cand <= endTs && i < cap
      invariant 0 <= i <= cap
      invariant cand == day * MsPerDay
      invariant out + WeeklyRun(s, day, startTs, endTs, cap - i) == WeeklyRun(s, DayOf(startTs), startTs, endTs, cap)
      decreases cap - i
    {
      ghost var rest := WeeklyRun(s, day + 1, startTs, endTs, cap - i - 1);
      var occ := AtClock(day, s);
      if WeekdayOf(day) in days && occ > startTs && occ <= endTs {
        Push(out, occ, rest);
        out := out + [occ];
      } else {
        Skip(out, rest);
      }
      day := day + 1;
      cand := day * MsPerDay;
      i := i + 1;
    }
  }

  /** The monthly loop of `occurrencesBetween`: one iteration per month. */
  method MonthlyLoop(s: Schedule, startTs: int, endTs: int, cap: nat) returns (out: seq<int>)
    requires ValidMonthDay(s)
    ensures out == MonthlyRun(s, MonthOfDay(DayOf(startTs)), startTs, endTs, cap)
  {
    out := [];
    var mi := MonthOfDay(DayOf(startTs));
    ghost var all := MonthlyRun(s, mi, startTs, endTs, cap);
    var cand := MonthStart(mi) * MsPerDay;
    var i := 0;
    while cand <= endTs && i < cap
      invariant 0 <= i <= cap
      invariant cand == MonthStart(mi) * MsPerDay
      invariant out + MonthlyRun(s, mi, startTs, endTs, cap - i) == all
      decreases cap - i
    {
      var occ := MonthlyOccurrence(s, mi);
      ghost var rest := MonthlyRun(s, mi + 1, startTs, endTs, cap - i - 1);
      MonthlyRunStep(s, mi, startTs, endTs, cap - i);
      if occ > startTs && occ <= endTs {
        Push(out, occ, rest);
        out := out + [occ];
      } else {
        Skip(out, rest);
      }
      mi := mi + 1;
      cand := MonthStart(mi) * MsPerDay;
      i := i + 1;
    }
    MonthlyRunDone(s, mi, startTs, endTs, cap - i);
  }

  /** Pushing `x` onto the output and then producing `rest` gives the same
      list as producing `[x] + rest` after the output. */
  lemma Push(out: seq<int>, x: int, rest: seq<int>)
    ensures out + ([x] + rest) == (out + [x]) + rest
  {
  }

  /** An iteration that pushes nothing leaves output plus remainder unchanged. */
  lemma Skip(out: seq<int>, rest: seq<int>)
    ensures out + ([] + rest) == out + rest
  {
  }

  /** One month of the monthly run, while the cursor is inside the window. */
  lemma MonthlyRunStep(s: Schedule, mi: int, start: int, end: int, budget: nat)
    requires ValidMonthDay(s) && MonthStart(mi) * MsPerDay <= end && budget > 0
    ensures MonthlyRun(s, mi, start, end, budget)
      == (if start < MonthlyOccurrence(s, mi) <= end then [MonthlyOccurrence(s, mi)] else [])
         + MonthlyRun(s, mi + 1, start, end, budget - 1)
  {
  }

  /** The monthly run is empty once the cursor passes the end or the budget is spent. */
  lemma MonthlyRunDone(s: Schedule, mi: int, start: int, end: int, budget: nat)
    requires ValidMonthDay(s) && !(MonthStart(mi) * MsPerDay <= end && budget > 0)
    ensures MonthlyRun(s, mi, start, end, budget) == []
  {
  }

  /**
    `occurrencesBetween`: walks a cursor forward from the window start one
    day (daily, weekly) or one month (monthly) at a time, pushing the
    instants inside (start, end], for at most `cap` iterations.
   */
  method OccurrencesBetween(s: Schedule, startTs: int, endTs: int, cap: nat) returns (out: seq<int>)
    ensures out == Occurrences(s, startTs, endTs, cap)
  {
    out := [];
    match s.kind {
      case Once =>
        if s.when.Some? && s.when.value > startTs && s.when.value <= endTs {
          out := [s.when.value];
        }
      case Monthly =>
        if ValidMonthDay(s) {
          out := MonthlyLoop(s, startTs, endTs, cap);
        }
      case Daily =>
        out := DailyLoop(s, startTs, endTs, cap);
      case Weekly =>
        if HasDays(s) {
          out := WeeklyLoop(s, startTs, endTs, cap);
        }
      case Unrecognized =>
    }
  }
}

/**
  The stored reminder record ("schedule") shared by the background worker
  and the options page, and the numeric coercions both apply to it.
 */
module Schedules {
  import opened Wrappers
  import opened Calendar

  /** The `type` field. `Unrecognized` stands for any other string. */
  datatype Kind = Once | Daily | Weekly | Monthly | Unrecognized

  /** A parsed `HH:MM` time of day. */
  datatype Clock = Clock(hour: Hour, minute: Minute)

  /**
    One stored schedule. Optional fields are `None` when the property is absent;
    `runCount`, `lastRun`, `day`, `stopAfter` and `windowIndex` are `None` also
    when the stored value is not a number. `when` is the already-parsed instant
    of a `once` schedule.
   */
  datatype Schedule = Schedule(
    id: string,
    url: string,
    openIn: string,
    openInBackground: bool,
    kind: Kind,
    message: string,
    runCount: Option<int>,
    lastRun: Option<int>,
    when: Option<int>,
    time: Option<Clock>,
    days: Option<seq<Weekday>>,
    day: Option<int>,
    stopAfter: Option<int>,
    windowGroup: Option<string>,
    windowIndex: Option<int>)

  /** `Number(s.runCount) || 0`. */
  function RunCount(s: Schedule): int {
    s.runCount.GetOr(0)
  }

  /** `Number(s.lastRun) || 0`. */
  function LastRun(s: Schedule): int {
    s.lastRun.GetOr(0)
  }

  /** `(s.time || '00:00')`, parsed. */
  function ClockOf(s: Schedule): Clock {
    s.time.GetOr(Clock(0, 0))
  }

  /** `s.stopAfter && Number(s.runCount) >= Number(s.stopAfter)`: a set, non-zero
      limit that the stored run count (a comparison with NaN is false) has reached. */
  predicate StopAfterReached(s: Schedule) {
    && s.stopAfter.Some? && s.stopAfter.value != 0
    && s.runCount.Some? && s.runCount.value >= s.stopAfter.value
  }

  /** Ids are pairwise distinct, as `uid()` makes them. */
  ghost predicate UniqueIds(list: seq<Schedule>) {
    forall i, j :: 0 <= i < j < |list| ==> list[i].id != list[j].id
  }
}

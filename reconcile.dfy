/**
  Alarm reconciliation in the background worker (background.js): rebuilding
  the alarm table while catching up on missed occurrences, and handling one
  fired alarm. The platform's alarm table is a map from alarm name to fire
  instant; opening a tab is recorded as an `Opened` value.
 */
module Reconcile {
  import opened Wrappers
  import opened Calendar
  import opened Text
  import opened Schedules
  import opened Scheduler
  import opened Store
  import opened Messages

  const AlarmPrefix: string := "openwhen_"

  /** `makeAlarmName(id)`. */
  function AlarmName(id: string): (r: string)
    ensures StartsWith(r, AlarmPrefix) && r[|AlarmPrefix|..] == id
  {
    AlarmPrefix + id
  }

  /** The id an alarm name stands for: `name.replace('openwhen_', '')` once
      `name.startsWith('openwhen_')`, and nothing otherwise. */
  function IdOfAlarm(name: string): Option<string> {
    if StartsWith(name, AlarmPrefix) then Some(name[|AlarmPrefix|..]) else None
  }

  /** `lastCheck || (now - 1000*60*60*24)`: a missing or zero last check looks
      back one day. */
  function WindowStart(lastCheck: Option<int>, now: int): int {
    if lastCheck.Some? && lastCheck.value != 0 then lastCheck.value else now - 1000 * 60 * 60 * 24
  }

  /** The `{delivered, fallback}` result of `openScheduleNow`. */
  datatype Delivery = Delivery(delivered: bool, fallback: bool)

  predicate Confirmed(d: Delivery) {
    d.delivered || d.fallback
  }

  /** A tab opened for a schedule, with the text of its notification. */
  datatype Opened = Opened(id: string, url: string, openIn: string, openInBackground: bool, body: string)

  /** What `openScheduleNow` reports: nothing opened without a URL, otherwise
      the notification fallback. */
  function OpenScheduleNow(s: Schedule): (d: Delivery)
    ensures Confirmed(d) <==> |s.url| > 0
    ensures !d.delivered
  {
    if |s.url| == 0 then Delivery(false, false) else Delivery(false, true)
  }

  function OpenedTab(s: Schedule, opts: DeliveryOpts): Opened {
    Opened(s.id, s.url, s.openIn, s.openInBackground, BuildMessage(s.message, opts))
  }

  /** The updater `prev => ({...prev, runCount: (Number(prev.runCount) || 0) + n, lastRun: now})`. */
  function BumpRuns(n: nat, now: int): Updater {
    (prev: Schedule) => Some(prev.(runCount := Some(RunCount(prev) + n), lastRun := Some(now)))
  }

  /** A record after an atomic `BumpRuns(n, now)`. */
  function Bumped(s: Schedule, n: nat, now: int): (r: Schedule)
    ensures r == s.(runCount := Some(RunCount(s) + n), lastRun := Some(now))
  {
    Normalize(Applied(s, BumpRuns(n, now)))
  }

  /** The alarm table with every `openwhen_` alarm cleared. */
  function ClearOurs(alarms: map<string, int>): (r: map<string, int>)
    ensures forall n :: n in r <==> n in alarms && !StartsWith(n, AlarmPrefix)
    ensures forall n :: n in r ==> r[n] == alarms[n]
  {
    map n | n in alarms && !StartsWith(n, AlarmPrefix) :: alarms[n]
  }

  /** `chrome.alarms.create(name, {when: at})` when `at` is set. */
  function Arm(alarms: map<string, int>, name: string, at: Option<int>): map<string, int> {
    if at.Some? then alarms[name := at.value] else alarms
  }

  /** `const next = computeNextForSchedule(s); if(next) ...`. */
  function ArmTime(s: Schedule, now: int): Option<int> {
    match NextForSchedule(s, now)
    case Some(t) => if t != 0 then Some(t) else None
    case None => None
  }

  /**
    Which record the stop-after test of an arming step reads. `Snapshot` is the
    test as written at background.js:165 and :200,
    `s.stopAfter && Number(s.runCount) >= Number(s.stopAfter)` on the snapshot
    taken before the pass bumped the run count. `Current` is the same condition
    on the record as the pass leaves it, which keeps an entry within its cap.
   */
  datatype CapTest = Snapshot | Current

  predicate Arms(test: CapTest, snapshot: Schedule, current: Schedule) {
    match test
    case Snapshot => !StopAfterReached(snapshot)
    case Current => !StopAfterReached(current)
  }

  /** The state a reconciliation pass threads through its loop. */
  datatype Pass = Pass(stored: seq<Schedule>, alarms: map<string, int>, tabs: seq<Opened>)

  function Missed(s: Schedule, windowStart: int, now: int): seq<int> {
    Occurrences(s, windowStart, now, DefaultCap)
  }

  /** The late delivery options of a non-empty list of missed instants. */
  function LateOpts(missed: seq<int>): DeliveryOpts
    requires |missed| > 0
  {
    DeliveryOpts(true, |missed|, Some(missed[|missed| - 1]))
  }

  /**
    The catch-up part of one loop turn: with missed occurrences and no
    suppression, open the schedule late; when the open is confirmed, add the
    missed count to the stored run count and clear its alarm. The second
    component is the record as it now stands.
   */
  function CatchUp(p: Pass, s: Schedule, windowStart: int, now: int, suppress: bool): (Pass, Schedule) {
    var missed := Missed(s, windowStart, now);
    if |missed| == 0 || suppress then (p, s)
    else
      var tabs := if |s.url| > 0 then p.tabs + [OpenedTab(s, LateOpts(missed))] else p.tabs;
      if !Confirmed(OpenScheduleNow(s)) then (p.(tabs := tabs), s)
      else
        var o := Atomic(p.stored, s.id, BumpRuns(|missed|, now));
        (Pass(o.stored, p.alarms - {AlarmName(s.id)}, tabs),
         if o.reply.Updated? then o.reply.schedule else s)
  }

  /** One turn of the reverse loop of `rebuildAlarms` for snapshot entry `s`. */
  function Step(test: CapTest, p: Pass, s: Schedule, windowStart: int, now: int, suppress: bool): Pass {
    var (q, current) := CatchUp(p, s, windowStart, now, suppress);
    if Arms(test, s, current) then q.(alarms := Arm(q.alarms, AlarmName(s.id), ArmTime(s, now))) else q
  }

  /** The pass after the loop has visited snapshot indices `|snap| - 1` down to `j`. */
  function Processed(test: CapTest, p0: Pass, snap: seq<Schedule>, j: nat, windowStart: int, now: int, suppress: bool): Pass
    requires j <= |snap|
    decreases |snap| - j
  {
    if j == |snap| then p0
    else Step(test, Processed(test, p0, snap, j + 1, windowStart, now, suppress), snap[j], windowStart, now, suppress)
  }

  /** Visiting index `j` extends the pass over the later indices by one step. */
  lemma ProcessedUnfold(test: CapTest, p0: Pass, snap: seq<Schedule>, j: nat, windowStart: int, now: int, suppress: bool)
    requires j < |snap|
    ensures Processed(test, p0, snap, j, windowStart, now, suppress)
      == Step(test, Processed(test, p0, snap, j + 1, windowStart, now, suppress), snap[j], windowStart, now, suppress)
  {
  }

  /** `new Map(stored.map(x => [String(x.id), x])).get(id)`: the last entry with the id. */
  function LastById(list: seq<Schedule>, id: string): (r: Option<Schedule>)
    ensures r.None? <==> forall i :: 0 <= i < |list| ==> list[i].id != id
    ensures r.Some? ==>
      exists i :: && 0 <= i < |list| && list[i] == r.value && list[i].id == id
                  && forall j :: i < j < |list| ==> list[j].id != id
  {
    if |list| == 0 then None
    else if list[|list| - 1].id == id then Some(list[|list| - 1])
    else LastById(list[..|list| - 1], id)
  }

  function Max(a: int, b: int): int {
    if a >= b then a else b
  }

  /** One entry of `persistMerged`: the local entry, with the larger run count
      and the later last run of it and its stored copy. */
  function MergeCounters(local: Schedule, stored: seq<Schedule>): Schedule {
    var base := LastById(stored, local.id);
    var runA := if base.Some? then RunCount(base.value) else 0;
    var lastA := if base.Some? then LastRun(base.value) else 0;
    var last := Max(lastA, LastRun(local));
    local.(runCount := Some(Max(runA, RunCount(local))), lastRun := if last == 0 then None else Some(last))
  }

  /** `persistMerged(localSchedules)` against the list stored now. */
  function PersistMerged(local: seq<Schedule>, stored: seq<Schedule>): (r: seq<Schedule>)
    ensures |r| == |local|
    ensures forall i :: 0 <= i < |local| ==> r[i] == MergeCounters(local[i], stored)
  {
    seq(|local|, i requires 0 <= i < |local| => MergeCounters(local[i], stored))
  }

  /** The outcome of a rebuild: stored list, alarm table and opened tabs. */
  datatype Rebuilt = Rebuilt(stored: seq<Schedule>, alarms: map<string, int>, tabs: seq<Opened>)

  /** `rebuildAlarms` as a function of the stored snapshot, the alarm table and
      the last check; `test` chooses the record its stop-after test reads. */
  function Rebuild(test: CapTest, snap: seq<Schedule>, alarms: map<string, int>, lastCheck: Option<int>, now: int, suppress: bool): Rebuilt {
    var p := Processed(test, Pass(snap, ClearOurs(alarms), []), snap, 0, WindowStart(lastCheck, now), now, suppress);
    Rebuilt(WriteAllGuarded(p.stored, PersistMerged(snap, p.stored)), p.alarms, p.tabs)
  }

  /** The outcome of one fired alarm. */
  datatype AlarmFired = AlarmFired(stored: seq<Schedule>, alarms: map<string, int>, lastCheck: Option<int>, tab: Option<Opened>)

  /**
    The `onAlarm` handler for alarm `name`, which the platform has already
    removed from the table: an alarm without the `openwhen_` prefix or for an
    id no longer stored changes nothing; otherwise the run count goes up by one,
    the tab opens, a `once` alarm is cleared, the last check moves to `now`, and
    a recurring schedule is armed again unless `test` finds it at its cap.
   */
  function FireAlarm(test: CapTest, stored: seq<Schedule>, alarms: map<string, int>, lastCheck: Option<int>, name: string, now: int): AlarmFired {
    var left := alarms - {name};
    match IdOfAlarm(name)
    case None => AlarmFired(stored, left, lastCheck, None)
    case Some(id) =>
      match FindById(stored, id)
      case None => AlarmFired(stored, left, lastCheck, None)
      case Some(s) =>
        var o := Atomic(stored, s.id, BumpRuns(1, now));
        var current := if o.reply.Updated? then o.reply.schedule else s;
        var tab := if |s.url| > 0 then Some(OpenedTab(s, OnTime)) else None;
        var cleared := if s.kind == Once then left - {AlarmName(s.id)} else left;
        var rearmed :=
          if s.kind != Once && Arms(test, s, current) then Arm(cleared, AlarmName(s.id), ArmTime(s, now))
          else cleared;
        AlarmFired(o.stored, rearmed, Some(now), tab)
  }

  /** The background worker's persistent state: the serialized store, the
      `last_check` key and the platform alarm table. */
  class Background {
    const store: WriteQueue
    var lastCheck: Option<int>
    var alarms: map<string, int>

    ghost predicate Valid()
      reads this, store
    {
      store.Valid() && !store.processing
    }

    constructor (initial: seq<Schedule>)
      ensures Valid() && fresh(store)
      ensures store.stored == initial && lastCheck == None && alarms == map[]
    {
      store := new WriteQueue(initial);
      lastCheck := None;
      alarms := map[];
    }

    /**
      `rebuildAlarms`: clear this extension's alarms, walk the snapshot from the
      last entry to the first catching up on missed occurrences and arming the
      next fire instant, persist the snapshot with merged counters, and move the
      last check to `now`.
     */
    method RebuildAlarms(now: int, suppressLate: bool) returns (tabs: seq<Opened>)
      requires Valid()
      modifies this, store
      ensures Valid()
      ensures var r := Rebuild(Snapshot, old(store.stored), old(alarms), old(lastCheck), now, suppressLate);
        store.stored == r.stored && alarms == r.alarms && tabs == r.tabs
      ensures lastCheck == Some(now)
    {
      var schedules := store.stored;
      var windowStart := WindowStart(lastCheck, now);
      alarms := ClearOurs(alarms);
      tabs := VisitAll(schedules, windowStart, now, suppressLate);
      var merged := PersistMerged(schedules, store.stored);
      var _ := store.SetSchedules(merged);
      lastCheck := Some(now);
    }

    /** The reverse loop of `rebuildAlarms` over the snapshot `schedules`. */
    method VisitAll(schedules: seq<Schedule>, windowStart: int, now: int, suppressLate: bool) returns (tabs: seq<Opened>)
      requires Valid()
      modifies this, store
      ensures Valid()
      ensures Pass(store.stored, alarms, tabs)
        == Processed(Snapshot, Pass(old(store.stored), old(alarms), []), schedules, 0, windowStart, now, suppressLate)
    {
      tabs := [];
      ghost var p0 := Pass(store.stored, alarms, []);
      var i := |schedules|;
      while i > 0
        invariant 0 <= i <= |schedules|
        invariant Valid()
        invariant Pass(store.stored, alarms, tabs) == Processed(Snapshot, p0, schedules, i, windowStart, now, suppressLate)
        decreases i
      {
        i := i - 1;
        ProcessedUnfold(Snapshot, p0, schedules, i, windowStart, now, suppressLate);
        tabs := Visit(schedules[i], windowStart, now, suppressLate, tabs);
      }
    }

    /** One turn of the loop of `rebuildAlarms`: catch up on `s`, then arm its
        next fire instant unless the snapshot `s` had reached its cap. */
    method Visit(s: Schedule, windowStart: int, now: int, suppressLate: bool, tabs0: seq<Opened>) returns (tabs: seq<Opened>)
      requires Valid()
      modifies this, store
      ensures Valid()
      ensures Pass(store.stored, alarms, tabs)
        == Step(Snapshot, Pass(old(store.stored), old(alarms), tabs0), s, windowStart, now, suppressLate)
    {
      tabs := tabs0;
      var missed := OccurrencesBetween(s, windowStart, now, DefaultCap);
      var current := s;
      if |missed| > 0 && !suppressLate {
        var opts := DeliveryOpts(true, |missed|, Some(missed[|missed| - 1]));
        var res := OpenScheduleNow(s);
        if |s.url| > 0 {
          tabs := tabs + [OpenedTab(s, opts)];
        }
        if res.delivered || res.fallback {
          var reply := store.UpdateScheduleAtomic(s.id, BumpRuns(|missed|, now));
          if reply.Updated? {
            current := reply.schedule;
          }
          alarms := alarms - {AlarmName(s.id)};
          lastCheck := Some(now);
        }
      }
      ghost var caught := CatchUp(Pass(old(store.stored), old(alarms), tabs0), s, windowStart, now, suppressLate);
      assert caught == (Pass(store.stored, alarms, tabs), current);
      if !StopAfterReached(s) {
        var next := NextForSchedule(s, now);
        if next.Some? && next.value != 0 {
          alarms := alarms[AlarmName(s.id) := next.value];
        }
      }
    }

    /** The `chrome.alarms.onAlarm` listener, for an alarm the platform has
        just fired and removed. */
    method OnAlarm(name: string, now: int) returns (tab: Option<Opened>)
      requires Valid()
      modifies this, store
      ensures Valid()
      ensures var r := FireAlarm(Snapshot, old(store.stored), old(alarms), old(lastCheck), name, now);
        store.stored == r.stored && alarms == r.alarms && lastCheck == r.lastCheck && tab == r.tab
    {
      alarms := alarms - {name};
      tab := None;
      if !StartsWith(name, AlarmPrefix) {
        return;
      }
      var id := name[|AlarmPrefix|..];
      var schedules := store.stored;
      var found := FindById(schedules, id);
      if found.None? {
        return;
      }
      var s := found.value;
      var reply := store.UpdateScheduleAtomic(s.id, BumpRuns(1, now));
      var current := if reply.Updated? then reply.schedule else s;
      if |s.url| > 0 {
        tab := Some(OpenedTab(s, OnTime));
      }
      if s.kind == Once {
        alarms := alarms - {AlarmName(s.id)};
      }
      lastCheck := Some(now);
      ghost var cleared := alarms;
      if s.kind != Once && !StopAfterReached(s) {
        var next := NextForSchedule(s, now);
        if next.Some? && next.value != 0 {
          alarms := alarms[AlarmName(s.id) := next.value];
        }
      }
      assert IdOfAlarm(name) == Some(id);
      assert alarms == if s.kind != Once && Arms(Snapshot, s, current) then Arm(cleared, AlarmName(s.id), ArmTime(s, now)) else cleared;
    }
  }
}

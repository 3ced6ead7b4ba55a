/**
  What a rebuild and a fired alarm do to the stored list, the alarm table and
  the opened tabs, for a stored list whose ids are distinct.
 */
module ReconcileFacts {
  import opened Wrappers
  import opened Calendar
  import opened Text
  import opened Schedules
  import opened Scheduler
  import opened SchedulerFacts
  import opened Store
  import opened Messages
  import opened Reconcile

  /** The alarm of an id names that id again. */
  lemma AlarmNameRoundTrip(id: string)
    ensures IdOfAlarm(AlarmName(id)) == Some(id)
  {
  }

  /** A name stands for an id exactly when it carries the prefix, and then it
      is that id's alarm name. */
  lemma IdOfAlarmInverse(name: string)
    ensures IdOfAlarm(name).None? <==> !StartsWith(name, AlarmPrefix)
    ensures IdOfAlarm(name).Some? ==> AlarmName(IdOfAlarm(name).value) == name
  {
    if StartsWith(name, AlarmPrefix) {
      assert name == name[..|AlarmPrefix|] + name[|AlarmPrefix|..];
    }
  }

  /** Distinct ids have distinct alarms. */
  lemma AlarmNameInjective(a: string, b: string)
    ensures AlarmName(a) == AlarmName(b) <==> a == b
  {
    if AlarmName(a) == AlarmName(b) {
      assert a == AlarmName(a)[|AlarmPrefix|..];
    }
  }

  /** Entry `s` is opened late during a rebuild: it missed an occurrence, late
      opens are not suppressed, and it has a URL. */
  predicate Fires(s: Schedule, windowStart: int, now: int, suppress: bool) {
    |Missed(s, windowStart, now)| > 0 && !suppress && |s.url| > 0
  }

  /** The stored record of snapshot entry `s` once the rebuild loop has visited it. */
  function Caught(s: Schedule, windowStart: int, now: int, suppress: bool): Schedule {
    if Fires(s, windowStart, now, suppress) then Bumped(s, |Missed(s, windowStart, now)|, now) else s
  }

  /** The alarm the rebuild loop leaves for snapshot entry `s`: its next time,
      when the stop-after test `test` passes. */
  function FinalArm(test: CapTest, s: Schedule, windowStart: int, now: int, suppress: bool): Option<int> {
    if Arms(test, s, Caught(s, windowStart, now, suppress)) then ArmTime(s, now) else None
  }

  /** The tab a rebuild opens for `s` when it fires. */
  function LateTab(s: Schedule, windowStart: int, now: int): Opened
    requires |Missed(s, windowStart, now)| > 0
  {
    OpenedTab(s, LateOpts(Missed(s, windowStart, now)))
  }

  /** When only index `j` holds `id`, the lookups find it. */
  lemma FindOnly(list: seq<Schedule>, id: string, j: int)
    requires 0 <= j < |list| && list[j].id == id
    requires forall k :: 0 <= k < |list| && k != j ==> list[k].id != id
    ensures FindById(list, id) == Some(list[j])
    ensures LastById(list, id) == Some(list[j])
  {
  }

  /** Visited entries `k` are `caught[k]`, the others are as in the snapshot. */
  ghost predicate StoredInv(snap: seq<Schedule>, caught: seq<Schedule>, stored: seq<Schedule>, j: nat) {
    && j <= |snap| == |caught| && |stored| == |snap|
    && (forall k :: 0 <= k < j ==> stored[k] == snap[k])
    && (forall k :: j <= k < |snap| ==> stored[k] == caught[k])
  }

  /** The caught-up record of every snapshot entry. */
  function CaughtAll(snap: seq<Schedule>, windowStart: int, now: int, suppress: bool): (r: seq<Schedule>)
    ensures |r| == |snap|
    ensures forall k :: 0 <= k < |snap| ==> r[k] == Caught(snap[k], windowStart, now, suppress)
  {
    seq(|snap|, k requires 0 <= k < |snap| => Caught(snap[k], windowStart, now, suppress))
  }

  /** Each visited entry `k` has alarm `arms[k]`, names without the prefix are
      those of `base`, and every prefixed name is a visited entry's. */
  ghost predicate AlarmInv(snap: seq<Schedule>, arms: seq<Option<int>>, base: map<string, int>, alarms: map<string, int>, j: nat) {
    && j <= |snap| == |arms|
    && ArmedAsVisited(snap, arms, alarms, j)
    && OursVisited(snap, alarms, j)
    && ForeignAsBase(base, alarms)
  }

  /** Each visited entry `k` has alarm `arms[k]`. */
  ghost predicate ArmedAsVisited(snap: seq<Schedule>, arms: seq<Option<int>>, alarms: map<string, int>, j: nat)
    requires |snap| == |arms|
  {
    && (forall k :: j <= k < |snap| ==> (AlarmName(snap[k].id) in alarms <==> arms[k].Some?))
    && (forall k :: j <= k < |snap| && arms[k].Some? ==> alarms[AlarmName(snap[k].id)] == arms[k].value)
  }

  /** Every prefixed alarm is a visited entry's. */
  ghost predicate OursVisited(snap: seq<Schedule>, alarms: map<string, int>, j: nat) {
    forall n :: n in alarms && StartsWith(n, AlarmPrefix) ==>
      exists k :: j <= k < |snap| && AlarmName(snap[k].id) == n
  }

  /** Alarms without the prefix are those of `base`. */
  ghost predicate ForeignAsBase(base: map<string, int>, alarms: map<string, int>) {
    && (forall n :: !StartsWith(n, AlarmPrefix) ==> (n in alarms <==> n in base))
    && (forall n :: n in alarms && !StartsWith(n, AlarmPrefix) ==> alarms[n] == base[n])
  }

  /** `r` differs from `alarms` at most at `name`. */
  ghost predicate OnlyAt(alarms: map<string, int>, r: map<string, int>, name: string) {
    && (forall n :: n != name ==> (n in r <==> n in alarms))
    && (forall n :: n != name && n in r ==> r[n] == alarms[n])
  }

  /** The final arm of every snapshot entry. */
  function FinalArms(test: CapTest, snap: seq<Schedule>, windowStart: int, now: int, suppress: bool): (r: seq<Option<int>>)
    ensures |r| == |snap|
    ensures forall k :: 0 <= k < |snap| ==> r[k] == FinalArm(test, snap[k], windowStart, now, suppress)
  {
    seq(|snap|, k requires 0 <= k < |snap| => FinalArm(test, snap[k], windowStart, now, suppress))
  }

  /** Every tab is the late tab of a visited entry that fired. */
  ghost predicate TabsInv(snap: seq<Schedule>, tabs: seq<Opened>, j: nat, windowStart: int, now: int, suppress: bool) {
    && j <= |snap|
    && (forall t :: t in tabs ==>
          exists k :: && j <= k < |snap| && Fires(snap[k], windowStart, now, suppress)
                      && t == LateTab(snap[k], windowStart, now))
    && (suppress ==> tabs == [])
  }

  /** The loop state after visiting indices `|snap| - 1` down to `j`, starting
      from the snapshot and the alarm table `base`. */
  ghost predicate Invariant(test: CapTest, snap: seq<Schedule>, base: map<string, int>, p: Pass, j: nat, windowStart: int, now: int, suppress: bool) {
    && StoredInv(snap, CaughtAll(snap, windowStart, now, suppress), p.stored, j)
    && AlarmInv(snap, FinalArms(test, snap, windowStart, now, suppress), base, p.alarms, j)
    && TabsInv(snap, p.tabs, j, windowStart, now, suppress)
  }

  /** The catch-up half of one loop turn, at index `j`. */
  lemma CatchUpAt(snap: seq<Schedule>, p: Pass, j: int, windowStart: int, now: int, suppress: bool)
    requires UniqueIds(snap) && 0 <= j < |snap| && |p.stored| == |snap|
    requires p.stored[j] == snap[j]
    requires forall k :: 0 <= k < |snap| ==> p.stored[k].id == snap[k].id
    ensures var (q, current) := CatchUp(p, snap[j], windowStart, now, suppress);
      && current == Caught(snap[j], windowStart, now, suppress)
      && |q.stored| == |snap| && q.stored[j] == current
      && (forall k :: 0 <= k < |snap| && k != j ==> q.stored[k] == p.stored[k])
      && q.alarms == (if Fires(snap[j], windowStart, now, suppress) then p.alarms - {AlarmName(snap[j].id)} else p.alarms)
      && q.tabs == (if Fires(snap[j], windowStart, now, suppress) then p.tabs + [LateTab(snap[j], windowStart, now)] else p.tabs)
  {
    var s := snap[j];
    var missed := Missed(s, windowStart, now);
    if Fires(s, windowStart, now, suppress) {
      FindOnly(p.stored, s.id, j);
      AtomicFound(p.stored, s.id, BumpRuns(|missed|, now), j);
    }
  }

  /** A whole loop turn at index `j`. */
  lemma StepAt(test: CapTest, snap: seq<Schedule>, p: Pass, j: int, windowStart: int, now: int, suppress: bool)
    requires UniqueIds(snap) && 0 <= j < |snap| && |p.stored| == |snap|
    requires p.stored[j] == snap[j]
    requires forall k :: 0 <= k < |snap| ==> p.stored[k].id == snap[k].id
    ensures var r := Step(test, p, snap[j], windowStart, now, suppress);
      var cleared := if Fires(snap[j], windowStart, now, suppress) then p.alarms - {AlarmName(snap[j].id)} else p.alarms;
      var arm := FinalArm(test, snap[j], windowStart, now, suppress);
      && |r.stored| == |snap| && r.stored[j] == Caught(snap[j], windowStart, now, suppress)
      && (forall k :: 0 <= k < |snap| && k != j ==> r.stored[k] == p.stored[k])
      && r.alarms == (if arm.Some? then cleared[AlarmName(snap[j].id) := arm.value] else cleared)
      && r.tabs == (if Fires(snap[j], windowStart, now, suppress) then p.tabs + [LateTab(snap[j], windowStart, now)] else p.tabs)
  {
    CatchUpAt(snap, p, j, windowStart, now, suppress);
  }

  /** The visited entries have other ids than entry `j - 1`, hence other alarm names. */
  lemma OtherNames(snap: seq<Schedule>, j: nat)
    requires UniqueIds(snap) && 0 < j <= |snap|
    ensures forall k :: j <= k < |snap| ==> AlarmName(snap[k].id) != AlarmName(snap[j - 1].id)
  {
    forall k | j <= k < |snap|
      ensures AlarmName(snap[k].id) != AlarmName(snap[j - 1].id)
    {
      AlarmNameInjective(snap[k].id, snap[j - 1].id);
    }
  }

  lemma AlarmsKeep(snap: seq<Schedule>, arms: seq<Option<int>>, base: map<string, int>, alarms: map<string, int>, j: nat, fires: bool)
    requires UniqueIds(snap) && 0 < j <= |snap|
    requires AlarmInv(snap, arms, base, alarms, j)
    ensures var name := AlarmName(snap[j - 1].id);
      var cleared := if fires then alarms - {name} else alarms;
      AlarmInv(snap, arms, base, if arms[j - 1].Some? then cleared[name := arms[j - 1].value] else cleared, j - 1)
  {
    var name := AlarmName(snap[j - 1].id);
    var cleared := if fires then alarms - {name} else alarms;
    var r := if arms[j - 1].Some? then cleared[name := arms[j - 1].value] else cleared;
    assert OnlyAt(alarms, r, name);
    assert name in r <==> arms[j - 1].Some?;
    assert arms[j - 1].Some? ==> r[name] == arms[j - 1].value;
    ArmedKeep(snap, arms, alarms, r, j);
    OursKeep(snap, alarms, r, j);
    ForeignKeep(base, alarms, r, name);
  }

  lemma ArmedKeep(snap: seq<Schedule>, arms: seq<Option<int>>, alarms: map<string, int>, r: map<string, int>, j: nat)
    requires UniqueIds(snap) && 0 < j <= |snap| == |arms|
    requires ArmedAsVisited(snap, arms, alarms, j)
    requires OnlyAt(alarms, r, AlarmName(snap[j - 1].id))
    requires AlarmName(snap[j - 1].id) in r <==> arms[j - 1].Some?
    requires arms[j - 1].Some? ==> r[AlarmName(snap[j - 1].id)] == arms[j - 1].value
    ensures ArmedAsVisited(snap, arms, r, j - 1)
  {
    OtherNames(snap, j);
    forall k | j - 1 <= k < |snap|
      ensures AlarmName(snap[k].id) in r <==> arms[k].Some?
      ensures arms[k].Some? ==> r[AlarmName(snap[k].id)] == arms[k].value
    {
      if k >= j {
        assert AlarmName(snap[k].id) != AlarmName(snap[j - 1].id);
      }
    }
  }

  lemma OursKeep(snap: seq<Schedule>, alarms: map<string, int>, r: map<string, int>, j: nat)
    requires 0 < j <= |snap|
    requires OursVisited(snap, alarms, j)
    requires OnlyAt(alarms, r, AlarmName(snap[j - 1].id))
    ensures OursVisited(snap, r, j - 1)
  {
    var name := AlarmName(snap[j - 1].id);
    forall n | n in r && StartsWith(n, AlarmPrefix)
      ensures exists k :: j - 1 <= k < |snap| && AlarmName(snap[k].id) == n
    {
      if n == name {
        assert AlarmName(snap[j - 1].id) == n;
      } else {
        assert n in alarms;
        var k :| j <= k < |snap| && AlarmName(snap[k].id) == n;
        assert j - 1 <= k;
      }
    }
  }

  lemma ForeignKeep(base: map<string, int>, alarms: map<string, int>, r: map<string, int>, name: string)
    requires StartsWith(name, AlarmPrefix)
    requires ForeignAsBase(base, alarms)
    requires OnlyAt(alarms, r, name)
    ensures ForeignAsBase(base, r)
  {
    forall n | !StartsWith(n, AlarmPrefix)
      ensures n in r <==> n in base
      ensures n in r ==> r[n] == base[n]
    {
      assert n != name;
    }
  }

  lemma TabsKeep(snap: seq<Schedule>, tabs: seq<Opened>, j: nat, windowStart: int, now: int, suppress: bool)
    requires 0 < j <= |snap|
    requires TabsInv(snap, tabs, j, windowStart, now, suppress)
    ensures TabsInv(snap,
      if Fires(snap[j - 1], windowStart, now, suppress) then tabs + [LateTab(snap[j - 1], windowStart, now)] else tabs,
      j - 1, windowStart, now, suppress)
  {
    var r := if Fires(snap[j - 1], windowStart, now, suppress) then tabs + [LateTab(snap[j - 1], windowStart, now)] else tabs;
    forall t | t in r
      ensures exists k :: && j - 1 <= k < |snap| && Fires(snap[k], windowStart, now, suppress)
                          && t == LateTab(snap[k], windowStart, now)
    {
      if t !in tabs {
        assert Fires(snap[j - 1], windowStart, now, suppress) && t == LateTab(snap[j - 1], windowStart, now);
      } else {
        var k :| && j <= k < |snap| && Fires(snap[k], windowStart, now, suppress)
                 && t == LateTab(snap[k], windowStart, now);
        assert j - 1 <= k;
      }
    }
  }

  lemma StoredKeeps(snap: seq<Schedule>, caught: seq<Schedule>, stored: seq<Schedule>, next: seq<Schedule>, j: nat)
    requires 0 < j <= |snap|
    requires StoredInv(snap, caught, stored, j)
    requires |next| == |snap| && next[j - 1] == caught[j - 1]
    requires forall k :: 0 <= k < |snap| && k != j - 1 ==> next[k] == stored[k]
    ensures StoredInv(snap, caught, next, j - 1)
  {
  }

  /** One loop turn keeps the invariant, one index further down. */
  lemma StepKeeps(test: CapTest, snap: seq<Schedule>, base: map<string, int>, p: Pass, j: nat, windowStart: int, now: int, suppress: bool)
    requires UniqueIds(snap) && 0 < j <= |snap|
    requires Invariant(test, snap, base, p, j, windowStart, now, suppress)
    ensures Invariant(test, snap, base, Step(test, p, snap[j - 1], windowStart, now, suppress), j - 1, windowStart, now, suppress)
  {
    var caught := CaughtAll(snap, windowStart, now, suppress);
    var arms := FinalArms(test, snap, windowStart, now, suppress);
    var fires := Fires(snap[j - 1], windowStart, now, suppress);
    assert forall k :: 0 <= k < |snap| ==> p.stored[k].id == snap[k].id;
    var r := Step(test, p, snap[j - 1], windowStart, now, suppress);
    StepAt(test, snap, p, j - 1, windowStart, now, suppress);
    StoredKeeps(snap, caught, p.stored, r.stored, j);
    AlarmsKeep(snap, arms, base, p.alarms, j, fires);
    TabsKeep(snap, p.tabs, j, windowStart, now, suppress);
  }

  /** The invariant holds at every point of the loop. */
  lemma {:induction false} ProcessedKeeps(test: CapTest, snap: seq<Schedule>, base: map<string, int>, j: nat, windowStart: int, now: int, suppress: bool)
    requires UniqueIds(snap) && j <= |snap|
    requires forall n :: n in base ==> !StartsWith(n, AlarmPrefix)
    ensures Invariant(test, snap, base, Processed(test, Pass(snap, base, []), snap, j, windowStart, now, suppress), j, windowStart, now, suppress)
    decreases |snap| - j
  {
    if j < |snap| {
      ProcessedKeeps(test, snap, base, j + 1, windowStart, now, suppress);
      StepKeeps(test, snap, base, Processed(test, Pass(snap, base, []), snap, j + 1, windowStart, now, suppress), j + 1, windowStart, now, suppress);
    }
  }

  /** The loop of a rebuild ends in the invariant at index 0. */
  lemma RebuildLoop(test: CapTest, snap: seq<Schedule>, alarms: map<string, int>, lastCheck: Option<int>, now: int, suppress: bool)
    requires UniqueIds(snap)
    ensures var ws := WindowStart(lastCheck, now);
      Invariant(test, snap, ClearOurs(alarms), Processed(test, Pass(snap, ClearOurs(alarms), []), snap, 0, ws, now, suppress), 0, ws, now, suppress)
  {
    ProcessedKeeps(test, snap, ClearOurs(alarms), 0, WindowStart(lastCheck, now), now, suppress);
  }

  /** The stored list at the end of the loop of a rebuild is the caught-up snapshot. */
  lemma RebuildStored(test: CapTest, snap: seq<Schedule>, alarms: map<string, int>, lastCheck: Option<int>, now: int, suppress: bool)
    requires UniqueIds(snap)
    ensures var ws := WindowStart(lastCheck, now);
      StoredInv(snap, CaughtAll(snap, ws, now, suppress), Processed(test, Pass(snap, ClearOurs(alarms), []), snap, 0, ws, now, suppress).stored, 0)
  {
    RebuildLoop(test, snap, alarms, lastCheck, now, suppress);
  }

  /**
    The merge before persisting works entry by entry on the local list: each
    merged entry keeps the local entry's id, place and fields, and takes the
    larger run count and the later last run of the local entry and the stored
    entry with its id (the last such entry, as a `Map` keeps it; 0 when none).
    The last run is absent exactly when both are 0, and the merge never lowers
    a counter on either side.
   */
  lemma PersistMergedMax(local: seq<Schedule>, stored: seq<Schedule>, i: int)
    requires 0 <= i < |local|
    ensures var r := PersistMerged(local, stored);
      var base := LastById(stored, local[i].id);
      var runA := if base.Some? then RunCount(base.value) else 0;
      var lastA := if base.Some? then LastRun(base.value) else 0;
      && |r| == |local|
      && r[i].(runCount := local[i].runCount, lastRun := local[i].lastRun) == local[i]
      && r[i].runCount.Some?
      && RunCount(r[i]) >= runA && RunCount(r[i]) >= RunCount(local[i])
      && (RunCount(r[i]) == runA || RunCount(r[i]) == RunCount(local[i]))
      && LastRun(r[i]) >= lastA && LastRun(r[i]) >= LastRun(local[i])
      && (LastRun(r[i]) == lastA || LastRun(r[i]) == LastRun(local[i]))
      && (r[i].lastRun.None? <==> LastRun(r[i]) == 0)
  {
  }

  /** Merging an entry with its stored copy after `m` runs were added to that copy. */
  lemma MergeBumped(s: Schedule, stored: seq<Schedule>, m: nat, now: int)
    requires LastById(stored, s.id) == Some(if m > 0 then Bumped(s, m, now) else s)
    ensures var r := MergeCounters(s, stored);
      && r.(runCount := s.runCount, lastRun := s.lastRun) == s
      && r.runCount == Some(RunCount(s) + m)
      && LastRun(r) == (if m > 0 then Max(now, LastRun(s)) else LastRun(s))
  {
  }

  /** A list with the snapshot's ids, which are distinct, has the id of entry
      `k` nowhere else. */
  lemma DistinctFrom(snap: seq<Schedule>, stored: seq<Schedule>, k: int, windowStart: int, now: int, suppress: bool)
    requires UniqueIds(snap) && 0 <= k < |snap|
    requires StoredInv(snap, CaughtAll(snap, windowStart, now, suppress), stored, 0)
    ensures forall i :: 0 <= i < |snap| && i != k ==> stored[i].id != snap[k].id
    ensures stored[k] == Caught(snap[k], windowStart, now, suppress)
  {
    forall i | 0 <= i < |snap| && i != k
      ensures stored[i].id != snap[k].id
    {
      assert stored[i] == Caught(snap[i], windowStart, now, suppress);
    }
  }

  /** The persisted entry `k`, when the stored copy at `k` received `m` runs. */
  lemma PersistedAt(snap: seq<Schedule>, stored: seq<Schedule>, m: nat, now: int, k: int)
    requires 0 <= k < |snap| && |stored| == |snap|
    requires forall i :: 0 <= i < |snap| && i != k ==> stored[i].id != snap[k].id
    requires stored[k] == (if m > 0 then Bumped(snap[k], m, now) else snap[k])
    ensures var r := WriteAllGuarded(stored, PersistMerged(snap, stored));
      && |r| == |snap|
      && r[k].(runCount := snap[k].runCount, lastRun := snap[k].lastRun) == snap[k]
      && r[k].runCount == Some(RunCount(snap[k]) + m)
      && LastRun(r[k]) == (if m > 0 then Max(now, LastRun(snap[k])) else LastRun(snap[k]))
  {
    FindOnly(stored, snap[k].id, k);
    MergeBumped(snap[k], stored, m, now);
    var merged := PersistMerged(snap, stored);
    assert WriteAllGuarded(stored, merged) == merged;
    assert merged[k] == MergeCounters(snap[k], stored);
  }

  /** The persisted entry `k` of a caught-up snapshot. */
  lemma CaughtPersisted(snap: seq<Schedule>, stored: seq<Schedule>, k: int, windowStart: int, now: int, suppress: bool)
    requires UniqueIds(snap) && 0 <= k < |snap|
    requires StoredInv(snap, CaughtAll(snap, windowStart, now, suppress), stored, 0)
    ensures var r := WriteAllGuarded(stored, PersistMerged(snap, stored));
      var m := if Fires(snap[k], windowStart, now, suppress) then |Missed(snap[k], windowStart, now)| else 0;
      && |r| == |snap|
      && r[k].(runCount := snap[k].runCount, lastRun := snap[k].lastRun) == snap[k]
      && r[k].runCount == Some(RunCount(snap[k]) + m)
      && LastRun(r[k]) == (if m > 0 then Max(now, LastRun(snap[k])) else LastRun(snap[k]))
  {
    var m := if Fires(snap[k], windowStart, now, suppress) then |Missed(snap[k], windowStart, now)| else 0;
    DistinctFrom(snap, stored, k, windowStart, now, suppress);
    if Fires(snap[k], windowStart, now, suppress) {
      assert stored[k] == Bumped(snap[k], m, now);
    } else {
      assert stored[k] == snap[k];
    }
    PersistedAt(snap, stored, m, now, k);
  }

  /**
    After a rebuild every entry keeps its place and all its fields but the
    counters; an entry opened late has its run count raised by the number of
    occurrences it missed and its last run moved to `now` (or kept, if later);
    every other entry keeps its counters, with an absent run count stored as 0.
   */
  lemma RebuildCounters(test: CapTest, snap: seq<Schedule>, alarms: map<string, int>, lastCheck: Option<int>, now: int, suppress: bool, k: int)
    requires UniqueIds(snap) && 0 <= k < |snap|
    ensures var ws := WindowStart(lastCheck, now);
      var r := Rebuild(test, snap, alarms, lastCheck, now, suppress);
      var m := if Fires(snap[k], ws, now, suppress) then |Missed(snap[k], ws, now)| else 0;
      && |r.stored| == |snap|
      && r.stored[k].(runCount := snap[k].runCount, lastRun := snap[k].lastRun) == snap[k]
      && r.stored[k].runCount.Some?
      && RunCount(r.stored[k]) == RunCount(Caught(snap[k], ws, now, suppress))
      && LastRun(r.stored[k]) == (if m > 0 then Max(now, LastRun(snap[k])) else LastRun(snap[k]))
  {
    var ws := WindowStart(lastCheck, now);
    var p := Processed(test, Pass(snap, ClearOurs(alarms), []), snap, 0, ws, now, suppress);
    RebuildStored(test, snap, alarms, lastCheck, now, suppress);
    CaughtPersisted(snap, p.stored, k, ws, now, suppress);
    assert Rebuild(test, snap, alarms, lastCheck, now, suppress).stored == WriteAllGuarded(p.stored, PersistMerged(snap, p.stored));
  }

  /** A caught-up record carries the missed runs of a late open. */
  lemma CaughtRunCount(s: Schedule, windowStart: int, now: int, suppress: bool)
    ensures RunCount(Caught(s, windowStart, now, suppress))
      == RunCount(s) + (if Fires(s, windowStart, now, suppress) then |Missed(s, windowStart, now)| else 0)
  {
  }

  /** A rebuild adds to each entry's run count the occurrences it missed, when
      it was opened late, and nothing otherwise. */
  lemma RebuildAddsMissed(test: CapTest, snap: seq<Schedule>, alarms: map<string, int>, lastCheck: Option<int>, now: int, suppress: bool, k: int)
    requires UniqueIds(snap) && 0 <= k < |snap|
    ensures var ws := WindowStart(lastCheck, now);
      var r := Rebuild(test, snap, alarms, lastCheck, now, suppress);
      && |r.stored| == |snap|
      && RunCount(r.stored[k]) == RunCount(snap[k]) + (if Fires(snap[k], ws, now, suppress) then |Missed(snap[k], ws, now)| else 0)
  {
    RebuildCounters(test, snap, alarms, lastCheck, now, suppress, k);
    CaughtRunCount(snap[k], WindowStart(lastCheck, now), now, suppress);
  }

  /** After a rebuild, each entry's alarm is set exactly when its final arm is,
      to that instant; with the test as written, that is when the snapshot
      entry is under its cap and has a next time. */
  lemma RebuildArms(test: CapTest, snap: seq<Schedule>, alarms: map<string, int>, lastCheck: Option<int>, now: int, suppress: bool, k: int)
    requires UniqueIds(snap) && 0 <= k < |snap|
    ensures var ws := WindowStart(lastCheck, now);
      var r := Rebuild(test, snap, alarms, lastCheck, now, suppress);
      var arm := FinalArm(test, snap[k], ws, now, suppress);
      && (AlarmName(snap[k].id) in r.alarms <==> arm.Some?)
      && (arm.Some? ==> r.alarms[AlarmName(snap[k].id)] == arm.value)
    ensures test == Snapshot ==>
      (AlarmName(snap[k].id) in Rebuild(test, snap, alarms, lastCheck, now, suppress).alarms <==>
       !StopAfterReached(snap[k]) && ArmTime(snap[k], now).Some?)
  {
    RebuildLoop(test, snap, alarms, lastCheck, now, suppress);
  }

  /** A rebuild leaves alarms of other extensions' names as they were, and
      every `openwhen_` alarm it leaves belongs to a stored entry. */
  lemma RebuildOtherAlarms(test: CapTest, snap: seq<Schedule>, alarms: map<string, int>, lastCheck: Option<int>, now: int, suppress: bool, n: string)
    requires UniqueIds(snap)
    ensures var r := Rebuild(test, snap, alarms, lastCheck, now, suppress);
      && (!StartsWith(n, AlarmPrefix) ==> (n in r.alarms <==> n in alarms))
      && (!StartsWith(n, AlarmPrefix) && n in alarms ==> r.alarms[n] == alarms[n])
      && (StartsWith(n, AlarmPrefix) && n in r.alarms ==> exists k :: 0 <= k < |snap| && AlarmName(snap[k].id) == n)
  {
    RebuildLoop(test, snap, alarms, lastCheck, now, suppress);
  }

  /** Every tab a rebuild opens is the late tab of an entry that fired; with
      late opens suppressed it opens none. */
  lemma RebuildTabs(test: CapTest, snap: seq<Schedule>, alarms: map<string, int>, lastCheck: Option<int>, now: int, suppress: bool)
    requires UniqueIds(snap)
    ensures var ws := WindowStart(lastCheck, now);
      var r := Rebuild(test, snap, alarms, lastCheck, now, suppress);
      && (forall t :: t in r.tabs ==>
            exists k :: 0 <= k < |snap| && Fires(snap[k], ws, now, suppress) && t == LateTab(snap[k], ws, now))
      && (suppress ==> r.tabs == [])
  {
    RebuildLoop(test, snap, alarms, lastCheck, now, suppress);
  }

  /** With late opens suppressed, a rebuild opens nothing and changes no run count. */
  lemma SuppressKeepsCounts(test: CapTest, snap: seq<Schedule>, alarms: map<string, int>, lastCheck: Option<int>, now: int, k: int)
    requires UniqueIds(snap) && 0 <= k < |snap|
    ensures var r := Rebuild(test, snap, alarms, lastCheck, now, true);
      r.tabs == [] && RunCount(r.stored[k]) == RunCount(snap[k]) && LastRun(r.stored[k]) == LastRun(snap[k])
  {
    RebuildCounters(test, snap, alarms, lastCheck, now, true, k);
    RebuildTabs(test, snap, alarms, lastCheck, now, true);
  }

  /** An entry whose snapshot has already reached its stop-after count gets no alarm. */
  lemma ExhaustedNotArmed(test: CapTest, snap: seq<Schedule>, alarms: map<string, int>, lastCheck: Option<int>, now: int, suppress: bool, k: int)
    requires UniqueIds(snap) && 0 <= k < |snap|
    requires StopAfterReached(snap[k])
    ensures AlarmName(snap[k].id) !in Rebuild(test, snap, alarms, lastCheck, now, suppress).alarms
  {
    RebuildArms(test, snap, alarms, lastCheck, now, suppress, k);
  }

  /** With the corrected test, an armed entry with a positive stop-after count
      is stored with fewer runs than that count. */
  lemma RebuildRespectsCap(snap: seq<Schedule>, alarms: map<string, int>, lastCheck: Option<int>, now: int, suppress: bool, k: int)
    requires UniqueIds(snap) && 0 <= k < |snap|
    requires snap[k].stopAfter.Some? && snap[k].stopAfter.value > 0
    requires AlarmName(snap[k].id) in Rebuild(Current, snap, alarms, lastCheck, now, suppress).alarms
    ensures RunCount(Rebuild(Current, snap, alarms, lastCheck, now, suppress).stored[k]) < snap[k].stopAfter.value
  {
    RebuildArms(Current, snap, alarms, lastCheck, now, suppress, k);
    RebuildCounters(Current, snap, alarms, lastCheck, now, suppress, k);
  }

  /** An alarm a rebuild sets is the schedule's next occurrence after `now`. */
  lemma ArmIsNextOccurrence(test: CapTest, s: Schedule, windowStart: int, now: int, suppress: bool)
    requires FinalArm(test, s, windowStart, now, suppress).Some?
    ensures var t := FinalArm(test, s, windowStart, now, suppress).value;
      && now < t && IsOccurrence(s, t)
      && forall u :: now < u < t ==> !IsOccurrence(s, u)
  {
    NextIsEarliestOccurrence(s, now);
  }

  /** Without a last check, a rebuild catches up on every occurrence of the
      past day. */
  lemma FirstRebuildLooksBackADay(s: Schedule, now: int, t: int)
    requires now - MsPerDay < t <= now && IsOccurrence(s, t)
    ensures t in Missed(s, WindowStart(None, now), now)
  {
    DefaultCapCoversADay(s, now);
    OccurrencesComplete(s, now - MsPerDay, now, DefaultCap, t);
  }

  /** A fired alarm whose name is not this extension's, or whose id is no
      longer stored, only leaves the table. */
  lemma FireAlarmForeign(test: CapTest, stored: seq<Schedule>, alarms: map<string, int>, lastCheck: Option<int>, name: string, now: int)
    requires IdOfAlarm(name).None? || FindById(stored, IdOfAlarm(name).value).None?
    ensures FireAlarm(test, stored, alarms, lastCheck, name, now) == AlarmFired(stored, alarms - {name}, lastCheck, None)
  {
  }

  /** The alarm of a stored entry raises its run count by exactly one, sets its
      last run and the last check to `now`, leaves every other entry alone, and
      opens the entry's URL on time. */
  lemma FireAlarmCounts(test: CapTest, stored: seq<Schedule>, alarms: map<string, int>, lastCheck: Option<int>, now: int, k: int)
    requires UniqueIds(stored) && 0 <= k < |stored|
    ensures var s := stored[k];
      var r := FireAlarm(test, stored, alarms, lastCheck, AlarmName(s.id), now);
      && |r.stored| == |stored|
      && r.stored[k] == Bumped(s, 1, now)
      && RunCount(r.stored[k]) == RunCount(s) + 1
      && (forall i :: 0 <= i < |stored| && i != k ==> r.stored[i] == stored[i])
      && r.lastCheck == Some(now)
      && r.tab == (if |s.url| > 0 then Some(OpenedTab(s, OnTime)) else None)
  {
    var s := stored[k];
    AlarmNameRoundTrip(s.id);
    FindOnly(stored, s.id, k);
    AtomicFound(stored, s.id, BumpRuns(1, now), k);
  }

  /** The alarm table after the alarm of a stored entry: the fired alarm is
      gone, and it is set again when the entry passes the stop-after test. */
  lemma FireAlarmTable(test: CapTest, stored: seq<Schedule>, alarms: map<string, int>, lastCheck: Option<int>, now: int, k: int)
    requires UniqueIds(stored) && 0 <= k < |stored|
    ensures var s := stored[k];
      var name := AlarmName(s.id);
      FireAlarm(test, stored, alarms, lastCheck, name, now).alarms
        == if s.kind != Once && Arms(test, s, Bumped(s, 1, now)) then Arm(alarms - {name}, name, ArmTime(s, now))
           else alarms - {name}
  {
    FindOnly(stored, stored[k].id, k);
    FireAlarmTableOf(test, stored, alarms, lastCheck, now, stored[k]);
  }

  /** `FireAlarmTable` for the entry the lookup finds. */
  lemma FireAlarmTableOf(test: CapTest, stored: seq<Schedule>, alarms: map<string, int>, lastCheck: Option<int>, now: int, s: Schedule)
    requires FindById(stored, s.id) == Some(s)
    ensures var name := AlarmName(s.id);
      FireAlarm(test, stored, alarms, lastCheck, name, now).alarms
        == if s.kind != Once && Arms(test, s, Bumped(s, 1, now)) then Arm(alarms - {name}, name, ArmTime(s, now))
           else alarms - {name}
  {
    var name := AlarmName(s.id);
    AlarmNameRoundTrip(s.id);
    assert Atomic(stored, s.id, BumpRuns(1, now)).reply == Updated(Bumped(s, 1, now));
    assert (alarms - {name}) - {name} == alarms - {name};
  }

  /** The alarm of a stored entry touches no other alarm, and is set again
      exactly for a recurring entry that passes the stop-after test (on the
      snapshot as written, on the bumped record when corrected) and that has a
      next occurrence. */
  lemma FireAlarmRearms(test: CapTest, stored: seq<Schedule>, alarms: map<string, int>, lastCheck: Option<int>, now: int, k: int)
    requires UniqueIds(stored) && 0 <= k < |stored|
    ensures var s := stored[k];
      var name := AlarmName(s.id);
      var r := FireAlarm(test, stored, alarms, lastCheck, name, now);
      && (forall n :: n != name ==> (n in r.alarms <==> n in alarms))
      && (forall n :: n != name && n in alarms ==> r.alarms[n] == alarms[n])
      && (name in r.alarms <==> s.kind != Once && Arms(test, s, Bumped(s, 1, now)) && ArmTime(s, now).Some?)
      && (name in r.alarms ==> r.alarms[name] == ArmTime(s, now).value)
  {
    FireAlarmTable(test, stored, alarms, lastCheck, now, k);
  }

  /** A `once` entry is never armed again by its own alarm. */
  lemma OnceNeverRearmed(test: CapTest, stored: seq<Schedule>, alarms: map<string, int>, lastCheck: Option<int>, now: int, k: int)
    requires UniqueIds(stored) && 0 <= k < |stored| && stored[k].kind == Once
    ensures AlarmName(stored[k].id) !in FireAlarm(test, stored, alarms, lastCheck, AlarmName(stored[k].id), now).alarms
  {
    FireAlarmRearms(test, stored, alarms, lastCheck, now, k);
  }

  /** With the corrected test, an entry with a positive stop-after count is
      armed again only while its stored run count stays below that count. */
  lemma FireAlarmRespectsCap(stored: seq<Schedule>, alarms: map<string, int>, lastCheck: Option<int>, now: int, k: int)
    requires UniqueIds(stored) && 0 <= k < |stored|
    requires stored[k].stopAfter.Some? && stored[k].stopAfter.value > 0
    requires AlarmName(stored[k].id) in FireAlarm(Current, stored, alarms, lastCheck, AlarmName(stored[k].id), now).alarms
    ensures RunCount(FireAlarm(Current, stored, alarms, lastCheck, AlarmName(stored[k].id), now).stored[k]) < stored[k].stopAfter.value
  {
    FireAlarmRearms(Current, stored, alarms, lastCheck, now, k);
    FireAlarmCounts(Current, stored, alarms, lastCheck, now, k);
  }

  /**
    The arming test as written reads the snapshot taken before the bump: the
    alarm of a daily entry capped at one run that has not run yet brings its
    stored run count to the cap and still arms it again, so it opens a second
    time. The corrected test does not arm it.
   */
  lemma SnapshotCheckOverruns(s: Schedule, alarms: map<string, int>, lastCheck: Option<int>, now: int)
    requires s.kind == Daily && s.stopAfter == Some(1) && s.runCount == Some(0) && now >= 0
    ensures var r := FireAlarm(Snapshot, [s], alarms, lastCheck, AlarmName(s.id), now);
      && |r.stored| == 1 && RunCount(r.stored[0]) == 1 && StopAfterReached(r.stored[0])
      && ArmTime(s, now).Some?
      && AlarmName(s.id) in r.alarms && r.alarms[AlarmName(s.id)] == ArmTime(s, now).value
    ensures AlarmName(s.id) !in FireAlarm(Current, [s], alarms, lastCheck, AlarmName(s.id), now).alarms
  {
    NextIsEarliestOccurrence(s, now);
    FireAlarmCounts(Snapshot, [s], alarms, lastCheck, now, 0);
    FireAlarmRearms(Snapshot, [s], alarms, lastCheck, now, 0);
    FireAlarmRearms(Current, [s], alarms, lastCheck, now, 0);
  }
}

# OpenWhen scheduling core in Dafny

OpenWhen is a browser extension that opens URLs on a schedule. A schedule is
`once`, `daily`, `weekly` or `monthly`. Each one carries a URL, an optional
message, a run counter and an optional stop-after count. This project models
and proves properties of the parts that decide what happens:

- **Next-time calculator and occurrence enumerator** (`computeNextForSchedule`
  and `occurrencesBetween`). The model is over local milliseconds, with a
  proleptic Gregorian calendar (`calendar.dfy`, `scheduler.dfy`,
  `scheduler_facts.dfy`).
- **Background store** (`store.dfy`). This is the serialized write queue.
  It holds whole-list writes, guarded so an empty list never overwrites a
  non-empty store, and atomic per-id updates.
- **Reconciliation in the background worker** (`reconcile.dfy`,
  `reconcile_facts.dfy`, `message.dfy`):
  - `rebuildAlarms` clears this extension's alarms, catches up on missed
    occurrences, re-arms the next ones, merges counters and moves the last
    check;
  - the `onAlarm` listener;
  - the alarm-name codec;
  - the late-notice builder;
  - the delivery status of `openScheduleNow`.
- **Schedule list in the options page** (`urls.dfy`, `forms.dfy`,
  `forms_facts.dfy`, `sorting.dfy`, `listview.dfy`, `listview_facts.dfy`):
  - form validation and submission, both create and edit, for a single URL
    or a window of URLs;
  - URL normalization;
  - expiry and the "next time" line;
  - deleting one entry or one window group;
  - sorting, searching and grouping for display.

Shared pieces:

- `schedule.dfy` holds the schedule record.
- `text.dfy` holds the string helpers: trim, lowercase, substring, decimal
  digits.
- `wrappers.dfy` holds `Option`.

The stateful parts are classes:

- `Store.WriteQueue` has the stored list, the queue and the processing flag.
- `Reconcile.Background` has the store, the alarm table and the last check.

Their methods are proved equal to the pure functions (`Store.Atomic`,
`Store.RunJobs`, `Reconcile.Rebuild`, `Reconcile.FireAlarm`). Properties are
then proved about those functions. `Rebuild` and `FireAlarm` take a
`Reconcile.CapTest`: `Snapshot` is the stop-after test as the worker writes
it, reading the record from before the run count was bumped, and is what the
`Background` methods run; `Current` reads the bumped record and is the
corrected test of the finding below. The source's loops are methods with loop
invariants:

- the occurrence loops;
- the reverse walk of `rebuildAlarms`;
- the form's URL collection;
- building window entries;
- grouping for display.

## Model

| member | source | states |
|---|---|---|
| Scheduler.DailyLoop | lib/scheduler.js:17 | The daily enumeration loop yields exactly the daily run: each day at the clock time after the start, up to the end, at most `cap` of them |
| Scheduler.WeeklyLoop | lib/scheduler.js:18 | The weekly day-walk yields exactly the weekly run: each listed weekday at the clock time in the window, day by day, at most `cap` |
| Scheduler.MonthlyLoop | lib/scheduler.js:16 | The month walk yields exactly the monthly run: the clamped day of each month at the clock time in the window, at most `cap` |
| Scheduler.OccurrencesBetween | lib/scheduler.js:13-20 | `occurrencesBetween` equals the occurrence function, dispatching on the kind; `once` gives its instant when it lies in (start, end] |
| Scheduler.NextForSchedule | lib/scheduler.js:2-11 | Definition of `computeNextForSchedule`: the `once` instant if after now; today's clock time or the next day's; the least of the per-weekday candidates; the clamped day of this month or the next. Its meaning is proved by `NextIsEarliestOccurrence`, `NextWithinPeriod` and `NextMonthlyCalendar` |
| Scheduler.Occurrences | lib/scheduler.js:13-20 | Definition of `occurrencesBetween` by kind, over the capped daily, weekly and monthly runs; proved sound, complete and split-additive by `OccurrencesSound`, `OccurrencesComplete`, `OccurrencesExact` and `OccurrencesSplit` |
| SchedulerFacts.OccurrencesSound | lib/scheduler.js:13-20 | Every enumerated instant is an occurrence in (start, end]; the list is strictly increasing and has at most `cap` entries |
| SchedulerFacts.OccurrencesComplete | lib/scheduler.js:13-20 | When the cap does not cut the window short, every occurrence in (start, end] is enumerated |
| SchedulerFacts.OccurrencesExact | lib/scheduler.js:13-20 | When the cap covers the window, the enumeration is the unique increasing list of exactly the occurrences in the window |
| SchedulerFacts.OccurrencesSplit | lib/scheduler.js:13-20 | Enumerating (a, b] and then (b, c] gives the enumeration of (a, c] |
| SchedulerFacts.DefaultCapCoversADay | lib/scheduler.js:13 | The default cap of 365 never truncates a one-day window, so the first catch-up sees every occurrence of that day |
| SchedulerFacts.NextIsEarliestOccurrence | lib/scheduler.js:2-11 | The next time is an occurrence strictly after now, with no occurrence in between; no next time means there is no future occurrence |
| SchedulerFacts.NextWithinPeriod | lib/scheduler.js:6-7 | A daily next time is at most one day after now, and a weekly one at most seven days after |
| SchedulerFacts.NextMonthlyCalendar | lib/scheduler.js:9 | A monthly next time falls in the current or the next month, on the requested day clamped to the month's length, at the clock time |
| SchedulerFacts.OccurrencesUpToNext | lib/scheduler.js:2-20 | Enumerating the window from now up to the next time yields exactly the next time |
| SchedulerFacts.WeeklySameDayExample | lib/scheduler.js:7 | A weekly entry for Monday, Wednesday and Friday at 12:00, asked at 11:00 on a Wednesday, next opens at 12:00 that same day |
| SchedulerFacts.DailyMissedThreeExample | lib/scheduler.js:17 | A daily 09:00 entry, checked at 10:00 after three days, has missed exactly the three 09:00 instants, oldest first |
| Store.FindById | background.js:30 | The lookup is the first entry with the id, and it is absent exactly when no entry has that id |
| Store.ReplaceById | background.js:35 | The merged list keeps the length; entries with the id become the updated record, the others are unchanged |
| Store.Normalize | background.js:33 | The normalized record has a numeric run count (missing or non-numeric becomes 0) and is otherwise unchanged |
| Store.Atomic | background.js:25-41 | Definition of the atomic job: an absent id replies `null` and keeps the list; a present id is replaced by the normalized updater result (a throwing updater keeps the copy), which is the reply. Proved by `AtomicFound`, `AtomicMissing` and `AtomicThenFind` |
| Store.WriteAllGuarded | background.js:42-51 | Definition of the whole-list job: an empty list does not overwrite a non-empty store, anything else replaces it. Proved by `WriteAllStores` and `NeverEmptied` |
| Store.RunJob | background.js:24-52 | Definition of one drain turn: the head job is an atomic update or a whole-list write |
| Store.RunJobs | background.js:23-53 | Definition of the drain: the jobs applied one at a time in queue order. Proved by `RunJobsAppend` and `NeverEmptied`, and matched by `ProcessWriteQueue` |
| Store.Replies | background.js:19-56 | Each queued job gets exactly one reply |
| Store.WriteQueue.ResumeOne | background.js:23-53 | One turn of the drain loop takes the head job, applies it to the stored list and yields its reply; the eventual list is unchanged |
| Store.WriteQueue.ProcessWriteQueue | background.js:19-56 | Draining while idle runs every queued job in FIFO order and leaves the queue empty; a drain already in progress returns at once |
| Store.WriteQueue.Enqueue | background.js:15-17 | An enqueued job is eventually applied after every earlier one; while idle it is applied at once |
| Store.WriteQueue.SetSchedules | background.js:58 | A whole-list write stores the list unless it is empty and the store is not |
| Store.WriteQueue.UpdateScheduleAtomic | background.js:120 | An atomic update stores and replies exactly as the read-modify-write of one id |
| Store.RunJobsAppend | background.js:19-56 | Running two batches in turn is the same as running their concatenation |
| Store.FindAfterReplace | background.js:30-35 | After replacing a present id, looking it up yields the replacement |
| Store.AtomicFound | background.js:26-39 | An atomic update of a present id stores the list with that id replaced by the normalized updater result, and replies with that record |
| Store.AtomicThenFind | background.js:26-39 | After an atomic update, looking up the id yields the record that was replied |
| Store.AtomicMissing | background.js:31 | An atomic update of an absent id changes nothing and replies `null` |
| Store.WriteAllStores | background.js:44-50 | A non-empty write replaces the store; a non-empty store is never emptied; the store ends empty only if it was empty and the write was empty |
| Store.NeverEmptied | background.js:19-56 | No sequence of jobs empties a non-empty store |
| Text.TrimIdempotent | options.js:1099-1125 | Trimming twice is trimming once |
| Text.NatToStringRoundTrip | background.js:144 | The decimal rendering of a count reads back as the count |
| Messages.Notice | background.js:144 | The late notice starts with the `late — missed ` prefix and ends with a period |
| Messages.BuildMessage | background.js:144 | An on-time message is the stored message itself |
| Messages.LateMessageShape | background.js:144 | A late message is exactly the notice, followed by a space and the trailing-trimmed message when the message has visible text |
| Messages.LateCountReadsBack | background.js:144 | The number inside a notice for several missed occurrences reads back as the missed count |
| Reconcile.AlarmName | background.js:60 | An alarm name is the `openwhen_` prefix followed by the id |
| Reconcile.OpenScheduleNow | background.js:219-441 | Opening reports success (through the fallback) exactly when the entry has a URL; it never reports direct delivery |
| Reconcile.IdOfAlarm | background.js:190-191 | Definition of the alarm-name decoding: the rest of a name with the `openwhen_` prefix, nothing otherwise. Proved inverse to `AlarmName` by `AlarmNameRoundTrip` and `IdOfAlarmInverse` |
| Reconcile.WindowStart | background.js:150 | Definition of the window start: the last check when set and non-zero, else one day before now. Used by `FirstRebuildLooksBackADay` |
| Reconcile.CatchUp | background.js:155-163 | Definition of the catch-up half of a turn: a late open when occurrences were missed and late opens are not suppressed, and on confirmed delivery the missed count added atomically and the alarm cleared. Proved by `CaughtRunCount` and `RebuildAddsMissed` |
| Reconcile.Step | background.js:154-167 | Definition of one loop turn: catch up, then arm the next time when the chosen stop-after test passes. Proved by `RebuildArms` and `RebuildCounters` |
| Reconcile.Processed | background.js:153-168 | Definition of the reverse loop as repeated `Step`s from the last entry down to the first |
| Reconcile.MergeCounters | background.js:169 | Definition of one merged entry of `persistMerged`. Proved by `PersistMergedMax` |
| Reconcile.PersistMerged | background.js:169 | The merged list has the local list's length and merges each local entry with the stored list. Proved by `PersistMergedMax` |
| Reconcile.Rebuild | background.js:146-172 | Definition of `rebuildAlarms` for a chosen stop-after test: clear our alarms, run the reverse loop, write the merged list through the guarded write. Proved by the `Rebuild…` lemmas of `ReconcileFacts` |
| Reconcile.FireAlarm | background.js:189-202 | Definition of the `onAlarm` handler for a chosen stop-after test. Proved by `FireAlarmForeign`, `FireAlarmCounts`, `FireAlarmRearms` and `OnceNeverRearmed` |
| Reconcile.Background.RebuildAlarms | background.js:146-172 | The stored list, alarm table and opened tabs after a rebuild are those of `Rebuild` with the stop-after test as written (`Snapshot`) on the old state; the last check becomes now |
| Reconcile.Background.VisitAll | background.js:153-168 | The reverse walk over the snapshot has the effect of `Processed` with the test as written, from the last entry to the first |
| Reconcile.Background.Visit | background.js:154-167 | One turn catches up on the entry's missed occurrences and then arms its next time unless the snapshot entry had reached its cap, as `Step` with the test as written |
| Reconcile.Background.OnAlarm | background.js:189-202 | The stored list, alarm table, last check and opened tab after an alarm are those of `FireAlarm` with the test as written, which reads the snapshot from before the bump |
| ReconcileFacts.AlarmNameRoundTrip | background.js:60 | Decoding an alarm name yields its id |
| ReconcileFacts.IdOfAlarmInverse | background.js:190-191 | A name with the prefix is the alarm name of the id it decodes to |
| ReconcileFacts.AlarmNameInjective | background.js:60 | Distinct ids get distinct alarm names |
| ReconcileFacts.PersistMergedMax | background.js:169 | Each merged entry keeps the local entry's id, place and other fields and takes the larger run count and later last run of the local entry and its stored copy; the last run is absent exactly when that maximum is 0 |
| ReconcileFacts.RebuildCounters | background.js:158-169 | After a rebuild, each entry keeps its length and fields; its run count is caught up, and its last run moves to now when it was opened late |
| ReconcileFacts.CaughtRunCount | background.js:160 | Catching up adds the number of missed occurrences exactly when the late open happened |
| ReconcileFacts.RebuildAddsMissed | background.js:155-169 | A rebuild adds to each entry's run count its missed occurrences when opened late, and nothing otherwise |
| ReconcileFacts.RebuildArms | background.js:152-167 | For either stop-after test, an entry's alarm after a rebuild exists exactly when the test passes (on the snapshot as written, on the caught-up record when corrected) and the entry has a next time, and is set to that time |
| ReconcileFacts.RebuildOtherAlarms | background.js:152 | Alarms without the prefix are untouched, and every prefixed alarm left belongs to a stored entry |
| ReconcileFacts.RebuildTabs | background.js:156-158 | Every tab a rebuild opens is the late tab of an entry that missed occurrences; with late opens suppressed none is opened |
| ReconcileFacts.SuppressKeepsCounts | background.js:174-175 | A suppressed rebuild, as on install and startup, opens nothing and leaves every run count and last run unchanged |
| ReconcileFacts.ExhaustedNotArmed | background.js:165 | For either test, an entry whose snapshot has reached its stop-after count gets no alarm from a rebuild |
| ReconcileFacts.RebuildRespectsCap | background.js:165 | With the corrected test (`Current`), an entry a rebuild arms has a stored run count below its positive stop-after count; the test as written does not keep this |
| ReconcileFacts.ArmIsNextOccurrence | background.js:166-167 | An alarm a rebuild sets is the schedule's earliest occurrence after now |
| ReconcileFacts.FirstRebuildLooksBackADay | background.js:150 | Without a last check, a rebuild catches up on every occurrence of the past day |
| ReconcileFacts.FireAlarmForeign | background.js:190-194 | A fired alarm with a foreign name, or for an id no longer stored, only leaves the table |
| ReconcileFacts.FireAlarmCounts | background.js:196-199 | A stored entry's alarm raises its run count by exactly one, sets its last run and the last check to now, leaves the other entries alone and opens its URL on time |
| ReconcileFacts.FireAlarmRearms | background.js:198-200 | For either stop-after test, an alarm touches no other alarm, and is set again exactly for a recurring entry that passes the test (the snapshot as written, the bumped record when corrected) and has a next time, at that time |
| ReconcileFacts.OnceNeverRearmed | background.js:198-200 | A `once` entry is never re-armed by its own alarm |
| ReconcileFacts.FireAlarmRespectsCap | background.js:200 | With the corrected test (`Current`), an entry re-armed by its alarm has a stored run count below its positive stop-after count; the test as written does not keep this |
| ReconcileFacts.SnapshotCheckOverruns | background.js:200 | With the test as written, the alarm of a daily entry capped at one run and not yet run stores run count 1, reaching the cap, and still sets the alarm again at its next time; with the corrected test it is not set again |
| Sorting.Insert | options.js:780-796 | Insertion keeps the multiset of entries plus the new one |
| Sorting.SortBy | options.js:780-796 | The sorted list is a permutation of the input |
| Sorting.InsertSorted | options.js:780-796 | Inserting into a sorted list under a total preorder keeps it sorted |
| Sorting.SortBySorted | options.js:780-796 | Sorting under a total preorder yields a sorted list |
| Sorting.Filter | options.js:529-531 | The filtered list is no longer than the input and holds exactly the input entries the predicate keeps |
| Sorting.FilterConcat | options.js:529-531 | Filtering distributes over concatenation |
| Sorting.FilterKeepsAll | options.js:800-809 | A filter that keeps every entry returns the list unchanged |
| Sorting.FilterSorted | options.js:800-809 | Filtering a sorted list keeps it sorted |
| Urls.NormalizeUrl | options.js:1180-1188 | Normalization is empty exactly for empty input, and is either the input or `https://` followed by the input |
| Urls.NormalizeUrlCases | options.js:1180-1188 | A scheme or a leading `//` keeps the input; a dotted host or `localhost` without those gets `https://`; anything else is kept |
| Urls.NormalizeUrlIdempotent | options.js:1180-1188 | Normalizing twice is normalizing once |
| Urls.NormalizedShape | options.js:1180-1188 | A normalized non-empty URL has a scheme, starts with `//`, or is an input that looks like no host |
| Forms.IndexOfId | options.js:1281 | The index found is the first entry with the id, and there is none exactly when no entry has it |
| Forms.CollectWindowUrls | options.js:1114-1120 | The collected window URLs are the trimmed inputs that are not empty, in order |
| Forms.AppendWindowEntries | options.js:1242-1272 | The per-URL loop appends exactly the window entries: one for each URL that normalizes to something, in URL order, skipping the others |
| Forms.Validate | options.js:1099-1204 | The early-return validation yields the first rejection in the handler's order, or none |
| Forms.BuildWindow | options.js:1217-1273 | The window branch builds the next list of the submission |
| Forms.BuildSingle | options.js:1274-1338 | The single-URL branch builds the next list of the submission |
| Forms.Submit | options.js:1092-1396 | The submit handler either rejects or saves exactly the next list of the submission |
| Forms.Check | options.js:1099-1204 | Definition of the handler's early returns in their order. Proved by `AcceptedIff` and matched by `Validate` |
| Forms.NewEntry | options.js:1371-1392 | Definition of a new entry. Proved by `NewEntryShape` and `KindFieldsWellFormed` |
| Forms.WindowEntries | options.js:1332-1362 | Definition of the window entries of the first `count` URLs. Proved by `WindowEntriesMembers`, `WindowEntriesOrder`, `WindowEntriesCover` and `WindowEntriesOnePerUrl` |
| Forms.Edited | options.js:1283-1320 | Definition of the single-edit record: the base entry with the form's fields, no group and a numeric run count. Proved by `EditSingleFound` |
| Forms.EditSingle | options.js:1274-1326 | Definition of the single-URL edit: replace the first entry with the id in place, or append. Proved by `EditSingleFound` and `EditSingleMissing` |
| Forms.RemoveEdited | options.js:1217-1236 | Definition of removing the edited entry: its whole group, or the first entry with its id. Proved by `EditWindowGroup` and `EditWindowSingle` |
| Forms.NextList | options.js:1214-1394 | Definition of the list a valid submission writes, for create and edit in both modes. Proved by `CreateSingle`, `CreateWindow` and the `Edit…` lemmas |
| Forms.SubmitResult | options.js:1092-1396 | Definition of a submission: a rejection, or the next list. Proved by `AcceptedIff` and `RejectedWritesNothing` |
| Forms.NonEmptyTrimmed | options.js:1114-1118 | Definition of the collected window URLs. Proved by `CollectedAreTrimmed`, `CollectedSound` and `CollectedComplete` |
| FormsFacts.AcceptedIff | options.js:1099-1204 | A form is accepted exactly when it has its URLs, a valid future time for `once`, and at least one weekday for `weekly`; the invalid-URL alert can never fire after a URL was entered |
| FormsFacts.RejectedWritesNothing | options.js:1092-1204 | A rejected form saves no list |
| FormsFacts.KindFieldsWellFormed | options.js:1141-1204 | The kind fields copied from an accepted form make the entry well formed |
| FormsFacts.NewEntryShape | options.js:1332-1395 | A new entry carries the form's fields, starts at zero runs with no last run, and its message is trimmed |
| FormsFacts.WindowEntriesMembers | options.js:1242-1265 | Every window entry is built from one of the URLs under the group with its own index |
| FormsFacts.WindowEntriesOrder | options.js:1242-1272 | Each window entry carries a URL position below the URL count, and the positions strictly increase along the list, so the entries follow URL order |
| FormsFacts.WindowEntriesCover | options.js:1242-1272 | Every URL position that normalizes to something has a window entry |
| FormsFacts.WindowEntriesOnePerUrl | options.js:1332-1362 | When no URL is empty, as for collected URLs, there is exactly one window entry per URL, the k-th built from the k-th URL with window index k |
| FormsFacts.WindowEntriesWellFormed | options.js:1332-1363 | New window entries are well formed and belong to the new group |
| FormsFacts.CreateSingle | options.js:1363-1392 | Creating a single entry appends exactly one well-formed entry with the normalized URL to the list |
| FormsFacts.CreateWindow | options.js:1330-1362 | Creating a window keeps the list and appends exactly the window entries of the form's URLs: well-formed entries of the new group, each built from its own URL position, in URL order, one for every URL that normalizes to something |
| FormsFacts.EditSingleFound | options.js:1274-1338 | Editing a stored single entry replaces it in place, keeping its id, last run and a numeric run count and dropping its group |
| FormsFacts.EditSingleMissing | options.js:1321-1326 | Editing an id no longer stored appends a new entry instead |
| FormsFacts.EditWindowGroup | options.js:1217-1273 | Editing a grouped entry removes the whole old group and appends the new window entries; the other entries are kept in order |
| FormsFacts.EditWindowSingle | options.js:1217-1273 | Editing an ungrouped entry in window mode splices out that entry and appends the window entries |
| FormsFacts.CollectedAreTrimmed | options.js:1114-1120 | Every collected URL is trimmed and non-empty |
| FormsFacts.CollectedSound | options.js:1114-1120 | Every collected URL is the trim of some input |
| FormsFacts.CollectedComplete | options.js:1114-1120 | Every input with visible text contributes its trim |
| ListView.NextLocal | options.js:83-138 | A missing entry has no next run; a `once` entry needs a set, non-zero instant after now; the recurring kinds are the shared calculator |
| ListView.DeleteById | options.js:719-721 | Deleting by id keeps exactly the entries with other ids |
| ListView.DeleteGroup | options.js:529-531 | Deleting a group keeps exactly the entries of other groups or of none |
| ListView.IsExpired | options.js:575-578 | Definition of the expiry badge: a `once` entry that ran, or a recurring one whose set, non-zero stop count is reached (the same test as options.js:361-365). Used by `DisplayedNextMeaning` and `ShownExpiredNotArmed` |
| ListView.DisplayedNext | options.js:476-486 | Definition of the "next time" line: never when expired or without a next time. Proved by `DisplayedNextMeaning` |
| ListView.OrderOf | options.js:781-796 | Definition of the order selector, with every unknown value falling back to newest first. Proved by `OrderFallback` |
| ListView.Precedes | options.js:780-796 | Definition of the comparator of each order. Proved a total preorder by `PrecedesIsPreorder` |
| ListView.Search | options.js:798-810 | Definition of the search bar: a blank query keeps all, otherwise the URL or message must contain the trimmed, lowered query. Proved by `RefreshMembers` and `SearchIgnoresQueryCase` |
| ListView.Refresh | options.js:762-811 | Definition of `refresh`: sort by the chosen order, then search. Proved by `RefreshSorted` and `RefreshMembers` |
| ListView.Layout | options.js:327-357 | Definition of the display layout: groups in first-appearance order, each sorted by window index, then the singles. Proved by `LayoutGroup`, `LayoutCovers`, `LayoutSingles` and matched by `GroupForDisplay` |
| ListView.NormalizeAll | options.js:335-340 | Normalizing the list keeps its length and normalizes each entry's run count in place |
| ListView.GroupKeysExact | options.js:342-347 | A group key is listed exactly when some entry carries it |
| ListView.GroupKeysDistinct | options.js:342-347 | Group keys are listed once each, in order of first appearance |
| ListView.GroupForDisplay | options.js:327-357 | The grouping loop and the per-group sort give exactly the display layout of the list |
| ListView.Gather | options.js:335-350 | The gathering loop yields the keys in first-appearance order, each group's members in order, and the ungrouped entries |
| ListView.SortGroups | options.js:352-357 | Each rendered group is its members sorted by window index |
| ListViewFacts.DisplayedNextMeaning | options.js:476-478 | An expired entry shows "never"; a shown time is the earliest occurrence after now |
| ListViewFacts.NextLocalIsCalculator | options.js:83-90 | The options page's calculator, with its own `once` test, agrees with the background's at every instant from the epoch on; they can differ only before the epoch, for a `once` entry at instant 0 |
| ListViewFacts.ShownExpiredNotArmed | options.js:575-578 | For either stop-after test, an entry the list shows as expired gets no alarm from a rebuild |
| ListViewFacts.DeleteByIdUnique | options.js:719-721 | With unique ids, deleting the entry at index i is the list with that index spliced out |
| ListViewFacts.DeleteByIdIdempotent | options.js:719-721 | Deleting the same id twice is deleting it once |
| ListViewFacts.DeleteGroupKeepsSingles | options.js:529-531 | Deleting a group keeps every ungrouped entry and removes every member of that group |
| ListViewFacts.StrLeTotal | options.js:781-783 | Id order is total |
| ListViewFacts.StrLeTransitive | options.js:781-783 | Id order is transitive |
| ListViewFacts.StrLeAntisymmetric | options.js:781-783 | Id order is antisymmetric |
| ListViewFacts.PrecedesIsPreorder | options.js:780-796 | Every sort order is a total preorder |
| ListViewFacts.OrderFallback | options.js:793-796 | An unknown order value sorts newest first, like `created-desc` |
| ListViewFacts.RefreshSorted | options.js:762-811 | The refreshed list is sorted by the chosen order |
| ListViewFacts.RefreshMembers | options.js:762-811 | An entry is shown exactly when it is stored and matches the query; a blank query shows a permutation of the store |
| ListViewFacts.SearchIgnoresQueryCase | options.js:798-803 | Lowercasing the query first does not change the search result |
| ListViewFacts.LayoutGroup | options.js:342-357 | Each displayed group is non-empty, holds exactly that group's entries, all with the same key, sorted by window index; group keys are distinct |
| ListViewFacts.RepresentativeFirst | options.js:356-360 | A group's representative, its first entry, has the least window index in the group |
| ListViewFacts.LayoutCovers | options.js:327-357 | Every listed entry is displayed, in its group or among the singles |
| ListViewFacts.LayoutSingles | options.js:347-349 | The singles are exactly the ungrouped entries, each with a numeric run count |

## Left out

- Time is a number of local milliseconds with no time zone and no daylight-saving shifts. Parsing `when` strings and `HH:MM` text is not modelled: `when` is an instant or absent, and the clock is an hour and a minute.
- `Date.now()`, `Math.random()` and the id generator are parameters: `now`, `uid` and the group id.
- The async interleaving of storage callbacks, alarms and listeners is sequential. Each listener and each queue turn runs to completion, and the platform's storage is the `stored` field.
- `Store.WriteQueue.Enqueue`: a call made while a drain is running replies `Queued`. The job's later effect is stated through `Eventual`, because promise resolution is not modelled.
- Store updaters are the function form only. An updater that throws leaves the found copy unchanged. The patch-object form is not modelled, since no caller in the core uses it.
- `fetchAndResizeIcon`, notifications and toasts, `_sendMessageToTabWhenReady`, context menus and content scripts are not modelled. They are the browser's user interface. `Reconcile.OpenScheduleNow` keeps only the `{delivered, fallback}` result and the URL and message of the opened tab.
- `Reconcile.OpenScheduleNow`: the tab's window, pinning and injection steps are not modelled. `openScheduleNow` itself never returns `delivered: true`, so the model reports the fallback whenever there is a URL.
- The copies of the calculator at background.js:62-79 and options.js:83-138 share one model, `Scheduler.NextForSchedule`, for the recurring kinds, whose text is the same. `ListView.NextLocal` has its own `once` branch and a missing entry, and its `try`/`catch` has nothing to catch in the model.
- The options page saves its list straight to storage (options.js:13-19), not through `Store.WriteQueue`. The empty-list guard does not apply there: deleting the last entry empties the store. `Store.NeverEmptied` is about the worker's writes only.
- The `__next` field, the `source` field and popup tab selection are not modelled. The popup's selected tabs reach the model as the form's window URLs.
- `Text.Lower` lowercases ASCII letters only. `localeCompare` is modelled as code-unit order, `Text.StrLe`.
- `Sorting.SortBy` is an insertion sort. Its ensures state sortedness and the permutation, not stability. JavaScript's `sort` is stable.
- The `next-asc` and `next-desc` orders treat "no next time" as later than any time. In the source, comparing two absent times subtracts infinity from infinity.
- `Forms.Edited`: a run count stored as a numeric string is kept as its number. The source resets a non-number to 0 at options.js:1320.
- `ListViewFacts.ShownExpiredNotArmed` requires a numeric stored run count, because that is where the list's `Number(runCount)` and the worker's test agree.
- `ListView.IsExpired` reads a missing `stopAfter`, or a `stopAfter` of 0, as "no cap", as `s.stopAfter && …` does.
- Rendering into the DOM and alerts are not modelled. A rejection names the alert it stands for.

## Findings

| source | as written | input that shows it | evidently intended | confidence | as-written member | corrected member |
|---|---|---|---|---|---|---|
| background.js:200 (also background.js:165) | The stop-after test reads `s.runCount` from the snapshot taken before the run count was bumped, so it lags one run behind | A daily entry with `stopAfter` 1 and `runCount` 0: its alarm fires, the count becomes 1, and the alarm is still re-armed, so the entry opens a second time | An entry stops being armed once its stored run count reaches its stop-after count | not executed | ReconcileFacts.SnapshotCheckOverruns | ReconcileFacts.FireAlarmRespectsCap / ReconcileFacts.RebuildRespectsCap |

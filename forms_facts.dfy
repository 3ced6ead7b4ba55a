/** What the submit handler of the options page guarantees about what it writes. */
module FormsFacts {
  import opened Wrappers
  import opened Text
  import opened Schedules
  import opened Urls
  import opened Sorting
  import opened Store
  import opened Forms

  /** An entry as the handler writes it once the form passed its checks: a
      URL, a future instant for `once`, a time for the recurring types, at
      least one weekday for weekly, an accepted month day and stop count, and
      a numeric run count. */
  predicate WellFormed(s: Schedule, now: int) {
    && |s.url| > 0
    && (s.kind == Once ==> s.when.Some? && s.when.value > now && s.stopAfter.None?)
    && (s.kind != Once ==> s.when.None?)
    && (IsRecurring(s.kind) <==> s.time.Some?)
    && (s.kind == Weekly ==> s.days.Some? && |s.days.value| > 0)
    && (s.kind != Weekly ==> s.days.None?)
    && (s.day.Some? ==> s.kind == Monthly && 1 <= s.day.value <= 31)
    && (s.stopAfter.Some? ==> s.stopAfter.value > 0)
    && s.runCount.Some?
  }

  /** The form passes its checks exactly when it names at least one URL, has a
      future instant for `once` and a weekday for weekly; the check that the
      single URL normalizes to something can never fail. */
  lemma AcceptedIff(f: Form, now: int)
    ensures Check(f, now) != Some(InvalidUrl)
    ensures Check(f, now).None? <==>
      && (f.windowMode ==> |f.windowUrls| > 0)
      && (!f.windowMode ==> |Trim(f.urlInput)| > 0)
      && (f.kind == Once ==> f.when.At? && f.when.instant > now)
      && (f.kind == Weekly ==> |f.days| > 0)
  {
    if !f.windowMode {
      var u := Trim(f.urlInput);
      assert |u| > 0 ==> |NormalizeUrl(u)| > 0;
    }
    if f.kind == Once {
      match f.when
      case Blank =>
      case Unparsed =>
      case At(t) =>
    }
  }

  /** A rejected submission writes nothing, and it is rejected for the first check that fails. */
  lemma RejectedWritesNothing(list: seq<Schedule>, f: Form, now: int, editing: Option<string>, uid: nat -> string, group: string)
    ensures SubmitResult(list, f, now, editing, uid, group).Rejected? <==> Check(f, now).Some?
    ensures f.kind == Weekly && |f.days| == 0 ==> SubmitResult(list, f, now, editing, uid, group).Rejected?
    ensures f.kind == Once && f.when.At? && f.when.instant <= now ==> SubmitResult(list, f, now, editing, uid, group).Rejected?
  {
  }

  /** The type fields a passing form puts on an entry make it well formed. */
  lemma KindFieldsWellFormed(s: Schedule, f: Form, now: int)
    requires Check(f, now).None?
    requires s.kind == f.kind && |s.url| > 0 && s.runCount.Some?
    ensures WellFormed(WithKindFields(s, f), now)
    ensures WithKindFields(s, f).(when := s.when, time := s.time, days := s.days, day := s.day, stopAfter := s.stopAfter) == s
  {
  }

  /** A new entry keeps what it was built from, starts with no runs, and is well formed. */
  lemma NewEntryShape(f: Form, now: int, id: string, url: string, openIn: string, group: Option<string>, index: Option<int>)
    requires Check(f, now).None? && |url| > 0
    ensures var e := NewEntry(f, id, url, openIn, group, index);
      && e.id == id && e.url == url && e.openIn == openIn && e.kind == f.kind
      && e.openInBackground == f.openInBackground && e.message == Trim(f.message)
      && e.windowGroup == group && e.windowIndex == index
      && e.runCount == Some(0) && e.lastRun.None?
      && WellFormed(e, now)
  {
    KindFieldsWellFormed(Schedule(id, url, openIn, f.openInBackground, f.kind, Trim(f.message), Some(0), None,
                                  None, None, None, None, None, group, index), f, now);
  }

  /** `e` is the window entry built for some URL position below `count`
      whose URL normalizes to something. */
  predicate IsWindowEntry(f: Form, urls: seq<string>, uid: nat -> string, group: string, count: nat, e: Schedule)
    requires count <= |urls|
  {
    && e.windowIndex.Some? && 0 <= e.windowIndex.value < count
    && |NormalizeUrl(urls[e.windowIndex.value])| > 0
    && e == NewEntry(f, uid(e.windowIndex.value), NormalizeUrl(urls[e.windowIndex.value]), "window", Some(group), e.windowIndex)
  }

  /** Each window entry is the one built for its own URL position. */
  lemma {:induction false} WindowEntriesMembers(f: Form, urls: seq<string>, uid: nat -> string, group: string, count: nat)
    requires count <= |urls|
    ensures forall k :: 0 <= k < |WindowEntries(f, urls, uid, group, count)| ==>
      IsWindowEntry(f, urls, uid, group, count, WindowEntries(f, urls, uid, group, count)[k])
    decreases count
  {
    if count > 0 {
      WindowEntriesMembers(f, urls, uid, group, count - 1);
      MembersAppend(f, urls, uid, group, count, WindowEntries(f, urls, uid, group, count - 1), WindowEntryAt(f, urls, uid, group, count - 1));
    }
  }

  /** Appending the entry of position `count - 1` to entries of the earlier
      positions gives entries of the positions below `count`. */
  lemma MembersAppend(f: Form, urls: seq<string>, uid: nat -> string, group: string, count: nat, prev: seq<Schedule>, at: seq<Schedule>)
    requires 0 < count <= |urls|
    requires forall k :: 0 <= k < |prev| ==> IsWindowEntry(f, urls, uid, group, count - 1, prev[k])
    requires at == WindowEntryAt(f, urls, uid, group, count - 1)
    ensures forall k :: 0 <= k < |prev + at| ==> IsWindowEntry(f, urls, uid, group, count, (prev + at)[k])
  {
    var r := prev + at;
    forall k | 0 <= k < |r|
      ensures IsWindowEntry(f, urls, uid, group, count, r[k])
    {
      if k < |prev| {
        assert r[k] == prev[k];
        WindowEntryWiden(f, urls, uid, group, count, prev[k]);
      } else {
        assert r[k] == at[0];
        WindowEntryAtIs(f, urls, uid, group, count);
      }
    }
  }

  lemma WindowEntryWiden(f: Form, urls: seq<string>, uid: nat -> string, group: string, count: nat, e: Schedule)
    requires 0 < count <= |urls| && IsWindowEntry(f, urls, uid, group, count - 1, e)
    ensures IsWindowEntry(f, urls, uid, group, count, e)
  {
  }

  lemma WindowEntryAtIs(f: Form, urls: seq<string>, uid: nat -> string, group: string, count: nat)
    requires 0 < count <= |urls| && |WindowEntryAt(f, urls, uid, group, count - 1)| > 0
    ensures IsWindowEntry(f, urls, uid, group, count, WindowEntryAt(f, urls, uid, group, count - 1)[0])
  {
    var i := count - 1;
    var e := NewEntry(f, uid(i), NormalizeUrl(urls[i]), "window", Some(group), Some(i));
    assert WindowEntryAt(f, urls, uid, group, i) == [e];
    assert e.windowIndex.value == i;
  }

  /** The window index of `r[k]`, or -1 when it has none. */
  function PosAt(r: seq<Schedule>, k: int): int
    requires 0 <= k < |r|
  {
    r[k].windowIndex.GetOr(-1)
  }

  /** Every entry of `r` carries a position below `count`, each larger than the one before. */
  predicate IndexedInOrder(r: seq<Schedule>, count: nat) {
    && (forall k :: 0 <= k < |r| ==> r[k].windowIndex.Some? && r[k].windowIndex.value < count)
    && (forall k :: 0 < k < |r| ==> PosAt(r, k - 1) < PosAt(r, k))
  }

  /** Some entry of `r` carries position `i`. */
  predicate HasEntryAt(r: seq<Schedule>, i: nat) {
    exists k :: 0 <= k < |r| && r[k].windowIndex == Some(i)
  }

  /** The entry built for position `i`: one exactly when its URL normalizes
      to something, carrying `i` as its window index. */
  lemma WindowEntryAtShape(f: Form, urls: seq<string>, uid: nat -> string, group: string, i: nat)
    requires i < |urls|
    ensures |WindowEntryAt(f, urls, uid, group, i)| == (if |NormalizeUrl(urls[i])| > 0 then 1 else 0)
    ensures forall e :: e in WindowEntryAt(f, urls, uid, group, i) ==> e.windowIndex == Some(i)
  {
  }

  /** The window entries follow URL order: each carries a position below
      `count`, strictly increasing along the list. */
  lemma {:induction false} WindowEntriesOrder(f: Form, urls: seq<string>, uid: nat -> string, group: string, count: nat)
    requires count <= |urls|
    ensures IndexedInOrder(WindowEntries(f, urls, uid, group, count), count)
    decreases count
  {
    if count > 0 {
      WindowEntriesOrder(f, urls, uid, group, count - 1);
      WindowEntriesOrderStep(f, urls, uid, group, count);
    }
  }

  /** One more URL keeps the window entries in order. */
  lemma WindowEntriesOrderStep(f: Form, urls: seq<string>, uid: nat -> string, group: string, count: nat)
    requires 0 < count <= |urls|
    requires IndexedInOrder(WindowEntries(f, urls, uid, group, count - 1), count - 1)
    ensures IndexedInOrder(WindowEntries(f, urls, uid, group, count), count)
  {
    WindowEntryAtShape(f, urls, uid, group, count - 1);
    IndexedAppend(WindowEntries(f, urls, uid, group, count - 1), WindowEntryAt(f, urls, uid, group, count - 1), count);
  }

  /** Appending at most one entry of position `count - 1` keeps positions in order. */
  lemma IndexedAppend(prev: seq<Schedule>, at: seq<Schedule>, count: nat)
    requires count > 0 && IndexedInOrder(prev, count - 1)
    requires |at| <= 1 && forall e :: e in at ==> e.windowIndex == Some(count - 1)
    ensures IndexedInOrder(prev + at, count)
  {
    var r := prev + at;
    forall k | 0 <= k < |r|
      ensures r[k].windowIndex.Some? && r[k].windowIndex.value < count
      ensures k == |prev| ==> r[k].windowIndex.value == count - 1
    {
      if k < |prev| {
        assert r[k] == prev[k];
      } else {
        assert r[k] == at[0] && at[0] in at;
      }
    }
    forall k | 0 < k < |r|
      ensures PosAt(r, k - 1) < PosAt(r, k)
    {
      assert r[k - 1] == prev[k - 1] && PosAt(r, k - 1) == PosAt(prev, k - 1);
      if k < |prev| {
        assert r[k] == prev[k] && PosAt(r, k) == PosAt(prev, k);
      }
    }
  }

  /** Every URL position below `count` that normalizes to something gets a
      window entry. */
  lemma {:induction false} WindowEntriesCover(f: Form, urls: seq<string>, uid: nat -> string, group: string, count: nat)
    requires count <= |urls|
    ensures forall i :: 0 <= i < count && |NormalizeUrl(urls[i])| > 0 ==>
      HasEntryAt(WindowEntries(f, urls, uid, group, count), i)
    decreases count
  {
    if count > 0 {
      WindowEntriesCover(f, urls, uid, group, count - 1);
      WindowEntriesCoverStep(f, urls, uid, group, count);
    }
  }

  /** One more URL extends the covered positions by one. */
  lemma WindowEntriesCoverStep(f: Form, urls: seq<string>, uid: nat -> string, group: string, count: nat)
    requires 0 < count <= |urls|
    requires forall i :: 0 <= i < count - 1 && |NormalizeUrl(urls[i])| > 0 ==>
      HasEntryAt(WindowEntries(f, urls, uid, group, count - 1), i)
    ensures forall i :: 0 <= i < count && |NormalizeUrl(urls[i])| > 0 ==>
      HasEntryAt(WindowEntries(f, urls, uid, group, count), i)
  {
    WindowEntryAtShape(f, urls, uid, group, count - 1);
    CoverAppend(urls, WindowEntries(f, urls, uid, group, count - 1), WindowEntryAt(f, urls, uid, group, count - 1), count);
  }

  /** Appending the entry of position `count - 1`, when there is one, extends
      the covered positions to those below `count`. */
  lemma CoverAppend(urls: seq<string>, prev: seq<Schedule>, at: seq<Schedule>, count: nat)
    requires 0 < count <= |urls|
    requires forall i :: 0 <= i < count - 1 && |NormalizeUrl(urls[i])| > 0 ==> HasEntryAt(prev, i)
    requires |NormalizeUrl(urls[count - 1])| > 0 ==> |at| == 1 && at[0].windowIndex == Some(count - 1)
    ensures forall i :: 0 <= i < count && |NormalizeUrl(urls[i])| > 0 ==> HasEntryAt(prev + at, i)
  {
    var r := prev + at;
    forall i | 0 <= i < count && |NormalizeUrl(urls[i])| > 0
      ensures HasEntryAt(r, i)
    {
      if i < count - 1 {
        var k :| 0 <= k < |prev| && prev[k].windowIndex == Some(i);
        assert r[k] == prev[k];
      } else {
        assert r[|prev|] == at[0];
      }
    }
  }

  /** `e` is an entry of the new window group as a passing form builds it. */
  predicate IsNewWindowEntry(f: Form, now: int, group: string, e: Schedule) {
    && e.windowGroup == Some(group) && e.openIn == "window"
    && e.runCount == Some(0) && e.lastRun.None? && e.kind == f.kind
    && WellFormed(e, now)
  }

  /** Every window entry belongs to the new group, opens in a window, starts
      with no runs and is well formed. */
  lemma WindowEntriesWellFormed(f: Form, now: int, uid: nat -> string, group: string)
    requires Check(f, now).None?
    ensures forall k :: 0 <= k < |WindowEntries(f, f.windowUrls, uid, group, |f.windowUrls|)| ==>
      IsNewWindowEntry(f, now, group, WindowEntries(f, f.windowUrls, uid, group, |f.windowUrls|)[k])
  {
    var r := WindowEntries(f, f.windowUrls, uid, group, |f.windowUrls|);
    WindowEntriesMembers(f, f.windowUrls, uid, group, |f.windowUrls|);
    forall k | 0 <= k < |r|
      ensures IsNewWindowEntry(f, now, group, r[k])
    {
      assert IsWindowEntry(f, f.windowUrls, uid, group, |f.windowUrls|, r[k]);
      var i := r[k].windowIndex.value;
      NewEntryShape(f, now, uid(i), NormalizeUrl(f.windowUrls[i]), "window", Some(group), Some(i));
    }
  }

  /** Creating in single-URL mode appends one entry with the normalized URL
      and a fresh id, and leaves the list before it alone. */
  lemma CreateSingle(list: seq<Schedule>, f: Form, now: int, uid: nat -> string, group: string)
    requires Check(f, now).None? && !f.windowMode
    ensures var r := SubmitResult(list, f, now, None, uid, group);
      && r.Saved? && |r.list| == |list| + 1 && r.list[..|list|] == list
      && var e := r.list[|list|];
      && e.id == uid(0) && e.url == NormalizeUrl(Trim(f.urlInput)) && e.openIn == f.openIn
      && e.windowGroup.None? && e.runCount == Some(0) && e.lastRun.None?
      && WellFormed(e, now)
  {
    var url := NormalizeUrl(Trim(f.urlInput));
    NewEntryShape(f, now, uid(0), url, f.openIn, None, None);
    var r := SubmitResult(list, f, now, None, uid, group);
    assert r.list == list + [NewEntry(f, uid(0), url, f.openIn, None, None)];
    assert r.list[..|list|] == list;
  }

  /** With no URL that normalizes to nothing, as the collected URLs are, the
      window has exactly one entry per URL, in URL order, each built from its
      own URL and position. */
  lemma {:induction false} WindowEntriesOnePerUrl(f: Form, urls: seq<string>, uid: nat -> string, group: string, count: nat)
    requires count <= |urls|
    requires forall i :: 0 <= i < |urls| ==> |urls[i]| > 0
    ensures |WindowEntries(f, urls, uid, group, count)| == count
    ensures forall k :: 0 <= k < count ==>
      WindowEntries(f, urls, uid, group, count)[k]
        == NewEntry(f, uid(k), NormalizeUrl(urls[k]), "window", Some(group), Some(k))
    decreases count
  {
    if count > 0 {
      WindowEntriesOnePerUrl(f, urls, uid, group, count - 1);
      var prev := WindowEntries(f, urls, uid, group, count - 1);
      assert |NormalizeUrl(urls[count - 1])| > 0;
      var r := WindowEntries(f, urls, uid, group, count);
      assert r == prev + [NewEntry(f, uid(count - 1), NormalizeUrl(urls[count - 1]), "window", Some(group), Some(count - 1))];
      forall k | 0 <= k < count
        ensures r[k] == NewEntry(f, uid(k), NormalizeUrl(urls[k]), "window", Some(group), Some(k))
      {
        if k < count - 1 {
          assert r[k] == prev[k];
        }
      }
    }
  }

  /** Creating in window mode appends, after the untouched list, the window
      entries of the form's URLs: each is a well-formed entry of the new group
      built from its own URL position, the positions follow URL order, and
      every URL that normalizes to something has its entry. */
  lemma CreateWindow(list: seq<Schedule>, f: Form, now: int, uid: nat -> string, group: string)
    requires Check(f, now).None? && f.windowMode
    ensures var r := SubmitResult(list, f, now, None, uid, group);
      && r.Saved? && |r.list| >= |list| && r.list[..|list|] == list
      && r.list[|list|..] == WindowEntries(f, f.windowUrls, uid, group, |f.windowUrls|)
      && (forall k :: |list| <= k < |r.list| ==> IsNewWindowEntry(f, now, group, r.list[k]))
      && (forall k :: |list| <= k < |r.list| ==> IsWindowEntry(f, f.windowUrls, uid, group, |f.windowUrls|, r.list[k]))
      && IndexedInOrder(r.list[|list|..], |f.windowUrls|)
      && (forall i :: 0 <= i < |f.windowUrls| && |NormalizeUrl(f.windowUrls[i])| > 0 ==> HasEntryAt(r.list[|list|..], i))
  {
    var w := WindowEntries(f, f.windowUrls, uid, group, |f.windowUrls|);
    WindowEntriesWellFormed(f, now, uid, group);
    WindowEntriesMembers(f, f.windowUrls, uid, group, |f.windowUrls|);
    WindowEntriesOrder(f, f.windowUrls, uid, group, |f.windowUrls|);
    WindowEntriesCover(f, f.windowUrls, uid, group, |f.windowUrls|);
    var r := SubmitResult(list, f, now, None, uid, group);
    assert r.list == list + w;
    assert r.list[..|list|] == list;
    assert r.list[|list|..] == w;
    forall k | |list| <= k < |r.list|
      ensures IsNewWindowEntry(f, now, group, r.list[k])
      ensures IsWindowEntry(f, f.windowUrls, uid, group, |f.windowUrls|, r.list[k])
    {
      assert r.list[k] == w[k - |list|];
    }
  }

  /** A single-URL edit of an entry that exists replaces the first entry with
      the id in place: the id, the run count (made numeric) and the last run
      are kept, the window group is dropped, and nothing else moves. */
  lemma EditSingleFound(list: seq<Schedule>, f: Form, now: int, id: string, uid: nat -> string, group: string, i: int)
    requires Check(f, now).None? && !f.windowMode
    requires 0 <= i < |list| && list[i].id == id
    requires forall j :: 0 <= j < i ==> list[j].id != id
    ensures var r := SubmitResult(list, f, now, Some(id), uid, group);
      && r.Saved? && |r.list| == |list|
      && (forall j :: 0 <= j < |list| && j != i ==> r.list[j] == list[j])
      && var e := r.list[i];
      && e.id == list[i].id && e.lastRun == list[i].lastRun
      && e.runCount == Some(RunCount(list[i]))
      && e.url == NormalizeUrl(Trim(f.urlInput)) && e.openIn == f.openIn && e.kind == f.kind
      && e.windowGroup.None? && e.windowIndex.None?
      && WellFormed(e, now)
  {
    var url := NormalizeUrl(Trim(f.urlInput));
    var base := list[i].(url := url, openIn := f.openIn, openInBackground := f.openInBackground, kind := f.kind,
                         message := Trim(f.message), runCount := Some(RunCount(list[i])), windowGroup := None, windowIndex := None);
    KindFieldsWellFormed(base, f, now);
    assert IndexOfId(list, id) == Some(i);
  }

  /** A single-URL edit whose id is gone appends a new entry under that id (or a
      fresh one when the id is empty), with no runs. */
  lemma EditSingleMissing(list: seq<Schedule>, f: Form, now: int, id: string, uid: nat -> string, group: string)
    requires Check(f, now).None? && !f.windowMode
    requires forall j :: 0 <= j < |list| ==> list[j].id != id
    ensures var r := SubmitResult(list, f, now, Some(id), uid, group);
      && r.Saved? && |r.list| == |list| + 1 && r.list[..|list|] == list
      && var e := r.list[|list|];
      && e.id == (if |id| > 0 then id else uid(0))
      && e.runCount == Some(0) && e.lastRun.None? && e.windowGroup.None?
      && WellFormed(e, now)
  {
    var url := NormalizeUrl(Trim(f.urlInput));
    var eid := if |id| > 0 then id else uid(0);
    NewEntryShape(f, now, eid, url, f.openIn, None, None);
    var r := SubmitResult(list, f, now, Some(id), uid, group);
    assert r.list == list + [NewEntry(f, eid, url, f.openIn, None, None)];
    assert r.list[..|list|] == list;
  }

  /** A window-mode edit of an entry in a window group drops the whole group,
      keeps everything else in order, and appends the new entries; with a
      fresh group id, nothing of the old group is left. */
  lemma EditWindowGroup(list: seq<Schedule>, f: Form, now: int, id: string, uid: nat -> string, group: string, k: int)
    requires Check(f, now).None? && f.windowMode
    requires 0 <= k < |list| && list[k].id == id && InGroup(list[k].windowGroup)
    requires forall j :: 0 <= j < k ==> list[j].id != id
    ensures var r := SubmitResult(list, f, now, Some(id), uid, group);
      && r.Saved?
      && r.list == Filter(list, OutsideGroup(list[k].windowGroup)) + WindowEntries(f, f.windowUrls, uid, group, |f.windowUrls|)
      && (Some(group) != list[k].windowGroup ==> forall x :: x in r.list ==> x.windowGroup != list[k].windowGroup)
      && (forall x :: x in list && x.windowGroup != list[k].windowGroup ==> x in r.list)
  {
    var oldGroup := list[k].windowGroup;
    FirstWithId(list, id, k);
    var kept := Filter(list, OutsideGroup(oldGroup));
    var w := WindowEntries(f, f.windowUrls, uid, group, |f.windowUrls|);
    var r := SubmitResult(list, f, now, Some(id), uid, group);
    assert r.list == kept + w;
    if Some(group) != oldGroup {
      WindowEntriesWellFormed(f, now, uid, group);
      forall x | x in r.list
        ensures x.windowGroup != oldGroup
      {
        if x in kept {
          assert OutsideGroup(oldGroup)(x);
        } else {
          var j :| 0 <= j < |w| && w[j] == x;
        }
      }
    }
    forall x | x in list && x.windowGroup != oldGroup
      ensures x in r.list
    {
      assert OutsideGroup(oldGroup)(x);
      assert x in kept;
    }
  }

  /** A window-mode edit of an entry outside any group removes just that entry
      and appends the new ones. */
  lemma EditWindowSingle(list: seq<Schedule>, f: Form, now: int, id: string, uid: nat -> string, group: string, k: int)
    requires Check(f, now).None? && f.windowMode
    requires 0 <= k < |list| && list[k].id == id && !InGroup(list[k].windowGroup)
    requires forall j :: 0 <= j < k ==> list[j].id != id
    ensures var r := SubmitResult(list, f, now, Some(id), uid, group);
      && r.Saved?
      && r.list == list[..k] + list[k + 1..] + WindowEntries(f, f.windowUrls, uid, group, |f.windowUrls|)
  {
    FirstWithId(list, id, k);
    assert RemoveEdited(list, id) == list[..k] + list[k + 1..];
  }

  /** Both lookups by id find the first entry with that id. */
  lemma FirstWithId(list: seq<Schedule>, id: string, k: int)
    requires 0 <= k < |list| && list[k].id == id
    requires forall j :: 0 <= j < k ==> list[j].id != id
    ensures FindById(list, id) == Some(list[k]) && IndexOfId(list, id) == Some(k)
  {
    var b := FindById(list, id);
    var i :| 0 <= i < |list| && list[i] == b.value && list[i].id == id
             && forall j :: 0 <= j < i ==> list[j].id != id;
    assert i == k;
  }

  /** `v` is the trimmed value of some input, and not empty. */
  predicate Collected(inputs: seq<string>, v: string) {
    |v| > 0 && exists i :: 0 <= i < |inputs| && v == Trim(inputs[i])
  }

  /** Every collected URL is non-empty and already trimmed. */
  lemma {:induction false} CollectedAreTrimmed(inputs: seq<string>)
    ensures forall v :: v in NonEmptyTrimmed(inputs) ==> |v| > 0 && Trim(v) == v
    decreases |inputs|
  {
    if |inputs| > 0 {
      var init := inputs[..|inputs| - 1];
      CollectedAreTrimmed(init);
      TrimIdempotent(inputs[|inputs| - 1]);
    }
  }

  /** Every collected URL is the trimmed value of some input. */
  lemma {:induction false} CollectedSound(inputs: seq<string>)
    ensures forall v :: v in NonEmptyTrimmed(inputs) ==> Collected(inputs, v)
    decreases |inputs|
  {
    if |inputs| > 0 {
      var init := inputs[..|inputs| - 1];
      var last := Trim(inputs[|inputs| - 1]);
      CollectedSound(init);
      var r := NonEmptyTrimmed(inputs);
      assert r == NonEmptyTrimmed(init) + (if |last| > 0 then [last] else []);
      forall v | v in r
        ensures Collected(inputs, v)
      {
        if v in NonEmptyTrimmed(init) {
          assert Collected(init, v);
          var i :| 0 <= i < |init| && v == Trim(init[i]);
          assert init[i] == inputs[i];
        } else {
          assert v == last;
          assert v == Trim(inputs[|inputs| - 1]);
        }
      }
    }
  }

  /** Every input whose trimmed value is not empty is collected. */
  lemma {:induction false} CollectedComplete(inputs: seq<string>, i: int)
    requires 0 <= i < |inputs| && |Trim(inputs[i])| > 0
    ensures Trim(inputs[i]) in NonEmptyTrimmed(inputs)
    decreases |inputs|
  {
    var init := inputs[..|inputs| - 1];
    var last := Trim(inputs[|inputs| - 1]);
    assert NonEmptyTrimmed(inputs) == NonEmptyTrimmed(init) + (if |last| > 0 then [last] else []);
    if i < |init| {
      assert init[i] == inputs[i];
      CollectedComplete(init, i);
      assert Trim(inputs[i]) in NonEmptyTrimmed(init);
    } else {
      assert i == |inputs| - 1 && Trim(inputs[i]) == last;
    }
  }
}

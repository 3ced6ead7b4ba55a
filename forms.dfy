/**
  The options page's submit handler (options.js): validating the form and
  building the next schedule list for a create or an edit, in single-URL mode
  or window mode (one entry per URL, sharing a window group).
 */
module Forms {
  import opened Wrappers
  import opened Calendar
  import opened Text
  import opened Schedules
  import opened Urls
  import opened Sorting
  import opened Store

  /** The `when` field as parsed: empty, unparseable, or an instant. */
  datatype WhenInput = Blank | Unparsed | At(instant: int)

  /**
    The submitted form. `urlInput` is the raw single-URL field; `windowUrls`
    the collected URLs of window mode; `monthDay` and `stopAfter` are `None`
    when the field is not an integer.
   */
  datatype Form = Form(
    windowMode: bool,
    urlInput: string,
    windowUrls: seq<string>,
    openIn: string,
    openInBackground: bool,
    kind: Kind,
    message: string,
    when: WhenInput,
    time: Clock,
    days: seq<Weekday>,
    monthDay: Option<int>,
    stopAfter: Option<int>)

  /** Why a submission stops before writing anything. */
  datatype Rejection = NoWindowUrls | MissingUrl | MissingWhen | InvalidWhen | PastWhen | InvalidUrl | NoWeekdays

  /** A rejected submission writes nothing; a saved one writes `list`. */
  datatype Submission = Rejected(reason: Rejection) | Saved(list: seq<Schedule>)

  /** The checks of the handler, in order. */
  function Check(f: Form, now: int): Option<Rejection> {
    if f.windowMode && |f.windowUrls| == 0 then Some(NoWindowUrls)
    else if !f.windowMode && |Trim(f.urlInput)| == 0 then Some(MissingUrl)
    else if f.kind == Once && f.when.Blank? then Some(MissingWhen)
    else if f.kind == Once && f.when.Unparsed? then Some(InvalidWhen)
    else if f.kind == Once && f.when.At? && f.when.instant <= now then Some(PastWhen)
    else if !f.windowMode && |NormalizeUrl(Trim(f.urlInput))| == 0 then Some(InvalidUrl)
    else if f.kind == Weekly && |f.days| == 0 then Some(NoWeekdays)
    else None
  }

  /** `Number.isInteger(monthDay) && monthDay >= 1 && monthDay <= 31`. */
  predicate MonthDayAccepted(d: Option<int>) {
    d.Some? && 1 <= d.value <= 31
  }

  /** `Number.isInteger(stopAfter) && stopAfter > 0`. */
  predicate StopAfterAccepted(n: Option<int>) {
    n.Some? && n.value > 0
  }

  predicate IsRecurring(k: Kind) {
    k == Daily || k == Weekly || k == Monthly
  }

  /** `s` with its type fields replaced by the form's: `when` for `once`, `time`
      for the recurring types, `days` for weekly, an accepted `day` for monthly,
      an accepted `stopAfter` for anything but `once`. */
  function WithKindFields(s: Schedule, f: Form): Schedule {
    s.(when := KindWhen(f), time := KindTime(f), days := KindDays(f), day := KindDay(f), stopAfter := KindStopAfter(f))
  }

  function KindWhen(f: Form): Option<int> {
    if f.kind == Once && f.when.At? then Some(f.when.instant) else None
  }

  function KindTime(f: Form): Option<Clock> {
    if IsRecurring(f.kind) then Some(f.time) else None
  }

  function KindDays(f: Form): Option<seq<Weekday>> {
    if f.kind == Weekly then Some(f.days) else None
  }

  function KindDay(f: Form): Option<int> {
    if f.kind == Monthly && MonthDayAccepted(f.monthDay) then f.monthDay else None
  }

  function KindStopAfter(f: Form): Option<int> {
    if f.kind != Once && StopAfterAccepted(f.stopAfter) then f.stopAfter else None
  }

  /** A freshly created entry: no runs yet, and the form's type fields. */
  function NewEntry(f: Form, id: string, url: string, openIn: string, group: Option<string>, index: Option<int>): Schedule {
    Schedule(id, url, openIn, f.openInBackground, f.kind, Trim(f.message), Some(0), None,
             KindWhen(f), KindTime(f), KindDays(f), KindDay(f), KindStopAfter(f), group, index)
  }

  /** The window entry for `urls[i]`, if it normalizes to anything. */
  function WindowEntryAt(f: Form, urls: seq<string>, uid: nat -> string, group: string, i: nat): seq<Schedule>
    requires i < |urls|
  {
    var n := NormalizeUrl(urls[i]);
    if |n| == 0 then [] else [NewEntry(f, uid(i), n, "window", Some(group), Some(i))]
  }

  /** The window entries for the first `count` URLs. */
  function WindowEntries(f: Form, urls: seq<string>, uid: nat -> string, group: string, count: nat): seq<Schedule>
    requires count <= |urls|
  {
    if count == 0 then []
    else WindowEntries(f, urls, uid, group, count - 1) + WindowEntryAt(f, urls, uid, group, count - 1)
  }

  /** `findIndex(x => String(x.id) === id)`. */
  function IndexOfId(list: seq<Schedule>, id: string): (r: Option<nat>)
    ensures r.None? <==> forall i :: 0 <= i < |list| ==> list[i].id != id
    ensures r.Some? ==> r.value < |list| && list[r.value].id == id
    ensures r.Some? ==> forall j :: 0 <= j < r.value ==> list[j].id != id
  {
    if |list| == 0 then None
    else if list[0].id == id then Some(0)
    else
      var r := IndexOfId(list[1..], id);
      assert forall i :: 1 <= i < |list| ==> list[i] == list[1..][i - 1];
      if r.None? then None else Some(r.value + 1)
  }

  /** A `windowGroup` that is set and non-empty. */
  predicate InGroup(g: Option<string>) {
    g.Some? && |g.value| > 0
  }

  /** The edited entry of a single-URL edit: the base record with the form's
      fields, no window group, and a numeric run count. */
  function Edited(base: Schedule, f: Form, url: string): Schedule {
    WithKindFields(
      base.(url := url, openIn := f.openIn, openInBackground := f.openInBackground, kind := f.kind,
            message := Trim(f.message), runCount := Some(RunCount(base)), windowGroup := None, windowIndex := None),
      f)
  }

  /** The list after a single-URL edit of `editingId`. */
  function EditSingle(list: seq<Schedule>, f: Form, editingId: string, uid: nat -> string): seq<Schedule> {
    var url := NormalizeUrl(Trim(f.urlInput));
    match IndexOfId(list, editingId)
    case Some(i) => list[i := Edited(list[i], f, url)]
    case None =>
      var id := if |editingId| > 0 then editingId else uid(0);
      list + [NewEntry(f, id, url, f.openIn, None, None)]
  }

  /** Keeps the entries outside window group `g`. */
  function OutsideGroup(g: Option<string>): Schedule -> bool {
    (x: Schedule) => x.windowGroup != g
  }

  /** The list with the entry being edited removed: its whole window group when
      it has one, otherwise the first entry with its id. */
  function RemoveEdited(list: seq<Schedule>, editingId: string): seq<Schedule> {
    var base := FindById(list, editingId);
    if base.Some? && InGroup(base.value.windowGroup) then
      Filter(list, OutsideGroup(base.value.windowGroup))
    else
      match IndexOfId(list, editingId)
      case Some(i) => list[..i] + list[i + 1..]
      case None => list
  }

  /** The list a valid submission writes. */
  function NextList(list: seq<Schedule>, f: Form, editing: Option<string>, uid: nat -> string, group: string): seq<Schedule> {
    match editing
    case Some(editingId) =>
      if f.windowMode then RemoveEdited(list, editingId) + WindowEntries(f, f.windowUrls, uid, group, |f.windowUrls|)
      else EditSingle(list, f, editingId, uid)
    case None =>
      if f.windowMode then list + WindowEntries(f, f.windowUrls, uid, group, |f.windowUrls|)
      else list + [NewEntry(f, uid(0), NormalizeUrl(Trim(f.urlInput)), f.openIn, None, None)]
  }

  /** What a submission does: a rejection, or the list it writes. */
  function SubmitResult(list: seq<Schedule>, f: Form, now: int, editing: Option<string>, uid: nat -> string, group: string): Submission {
    match Check(f, now)
    case Some(reason) => Rejected(reason)
    case None => Saved(NextList(list, f, editing, uid, group))
  }

  /** The non-empty trimmed values of the window-mode URL inputs. */
  function NonEmptyTrimmed(inputs: seq<string>): seq<string> {
    if |inputs| == 0 then []
    else
      var v := Trim(inputs[|inputs| - 1]);
      NonEmptyTrimmed(inputs[..|inputs| - 1]) + (if |v| > 0 then [v] else [])
  }

  /** Collecting the window-mode inputs: `if (val) urls.push(val)` over the trimmed values. */
  method CollectWindowUrls(inputs: seq<string>) returns (urls: seq<string>)
    ensures urls == NonEmptyTrimmed(inputs)
  {
    urls := [];
    var i := 0;
    while i < |inputs|
      invariant 0 <= i <= |inputs|
      invariant urls == NonEmptyTrimmed(inputs[..i])
    {
      var v := Trim(inputs[i]);
      if |v| > 0 {
        urls := urls + [v];
      }
      assert inputs[..i + 1][..i] == inputs[..i];
      i := i + 1;
    }
    assert inputs[..|inputs|] == inputs;
  }

  /** The `urls.forEach` of window mode, pushing onto `next`. */
  method AppendWindowEntries(next: seq<Schedule>, f: Form, urls: seq<string>, uid: nat -> string, group: string)
    returns (out: seq<Schedule>)
    ensures out == next + WindowEntries(f, urls, uid, group, |urls|)
  {
    out := next;
    var index := 0;
    while index < |urls|
      invariant 0 <= index <= |urls|
      invariant out == next + WindowEntries(f, urls, uid, group, index)
    {
      var normalized := NormalizeUrl(urls[index]);
      PushWindowEntry(next, out, f, urls, uid, group, index);
      if |normalized| > 0 {
        var entry := NewEntry(f, uid(index), normalized, "window", Some(group), Some(index));
        out := out + [entry];
      }
      index := index + 1;
    }
  }

  /** One pass of the `forEach`: pushing the entry of URL `index`, if any, extends the prefix by one URL. */
  lemma PushWindowEntry(next: seq<Schedule>, out: seq<Schedule>, f: Form, urls: seq<string>, uid: nat -> string, group: string, index: nat)
    requires index < |urls| && out == next + WindowEntries(f, urls, uid, group, index)
    ensures var n := NormalizeUrl(urls[index]);
      && (|n| > 0 ==> out + [NewEntry(f, uid(index), n, "window", Some(group), Some(index))] == next + WindowEntries(f, urls, uid, group, index + 1))
      && (|n| == 0 ==> out == next + WindowEntries(f, urls, uid, group, index + 1))
  {
    var w := WindowEntries(f, urls, uid, group, index);
    var at := WindowEntryAt(f, urls, uid, group, index);
    assert WindowEntries(f, urls, uid, group, index + 1) == w + at;
    assert (next + w) + at == next + (w + at);
    if |NormalizeUrl(urls[index])| == 0 {
      assert at == [];
      assert w + at == w;
    }
  }

  /** The checks of the submit handler, each of which ends the handler without a write. */
  method Validate(f: Form, now: int) returns (rejection: Option<Rejection>)
    ensures rejection == Check(f, now)
  {
    if f.windowMode {
      if |f.windowUrls| == 0 {
        return Some(NoWindowUrls);
      }
    } else if |Trim(f.urlInput)| == 0 {
      return Some(MissingUrl);
    }
    if f.kind == Once {
      match f.when
      case Blank => return Some(MissingWhen);
      case Unparsed => return Some(InvalidWhen);
      case At(t) =>
        if t <= now {
          return Some(PastWhen);
        }
    }
    if !f.windowMode && |NormalizeUrl(Trim(f.urlInput))| == 0 {
      return Some(InvalidUrl);
    }
    if f.kind == Weekly && |f.days| == 0 {
      return Some(NoWeekdays);
    }
    return None;
  }

  /** Building the next list in window mode: the edited entry or its group
      taken out (on an edit), the fresh entries appended. */
  method BuildWindow(schedules: seq<Schedule>, f: Form, editing: Option<string>, uid: nat -> string, group: string)
    returns (next: seq<Schedule>)
    requires f.windowMode
    ensures next == NextList(schedules, f, editing, uid, group)
  {
    next := schedules;
    if editing.Some? {
      var base := FindById(next, editing.value);
      if base.Some? && InGroup(base.value.windowGroup) {
        next := Filter(next, OutsideGroup(base.value.windowGroup));
      } else {
        var idx := IndexOfId(next, editing.value);
        if idx.Some? {
          next := next[..idx.value] + next[idx.value + 1..];
        }
      }
    }
    next := AppendWindowEntries(next, f, f.windowUrls, uid, group);
  }

  /** Building the next list in single-URL mode: replace the edited entry in
      place, or push a new one. */
  method BuildSingle(schedules: seq<Schedule>, f: Form, editing: Option<string>, uid: nat -> string)
    returns (next: seq<Schedule>)
    requires !f.windowMode
    ensures next == NextList(schedules, f, editing, uid, "")
  {
    next := schedules;
    var normalized := NormalizeUrl(Trim(f.urlInput));
    if editing.Some? {
      var idx := IndexOfId(next, editing.value);
      if idx.Some? {
        next := next[idx.value := Edited(next[idx.value], f, normalized)];
      } else {
        var id := if |editing.value| > 0 then editing.value else uid(0);
        next := next + [NewEntry(f, id, normalized, f.openIn, None, None)];
      }
    } else {
      next := next + [NewEntry(f, uid(0), normalized, f.openIn, None, None)];
    }
  }

  /**
    The submit handler: the checks, then the next list built from a copy of
    the stored one. `uid(i)` is the fresh id drawn for URL position `i`,
    `group` the fresh window group id.
   */
  method Submit(schedules: seq<Schedule>, f: Form, now: int, editing: Option<string>, uid: nat -> string, group: string)
    returns (result: Submission)
    ensures result == SubmitResult(schedules, f, now, editing, uid, group)
  {
    var rejection := Validate(f, now);
    if rejection.Some? {
      return Rejected(rejection.value);
    }
    var next;
    if f.windowMode {
      next := BuildWindow(schedules, f, editing, uid, group);
    } else {
      next := BuildSingle(schedules, f, editing, uid);
    }
    return Saved(next);
  }
}

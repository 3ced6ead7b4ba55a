/**
  The background worker's serialized write path (background.js): every write to
  the stored schedule list goes through one FIFO queue drained by a single
  loop, so each job sees the list the previous job left behind.
 */
module Store {
  import opened Wrappers
  import opened Schedules

  /** An update callback; `None` stands for a callback that throws. */
  type Updater = Schedule -> Option<Schedule>

  /** A queued write: a whole-list write, or an atomic update of one id. */
  datatype Job = WriteAll(list: seq<Schedule>) | UpdateOne(id: string, updater: Updater)

  /** What a job's promise resolves to; `Queued` is a promise still pending. */
  datatype Reply = Written | Updated(schedule: Schedule) | NotFound | Queued

  /** The stored list after a job, and the job's reply. */
  datatype Outcome = Outcome(stored: seq<Schedule>, reply: Reply)

  /** `stored.find(x => String(x.id) === String(id))`: the first entry with the id. */
  function FindById(list: seq<Schedule>, id: string): (r: Option<Schedule>)
    ensures r.None? <==> forall i :: 0 <= i < |list| ==> list[i].id != id
    ensures r.Some? ==>
      exists i :: && 0 <= i < |list| && list[i] == r.value && list[i].id == id
                  && forall j :: 0 <= j < i ==> list[j].id != id
  {
    if |list| == 0 then None
    else if list[0].id == id then Some(list[0])
    else
      var r := FindById(list[1..], id);
      assert forall i :: 1 <= i < |list| ==> list[i] == list[1..][i - 1];
      r
  }

  /** `stored.map(x => String(x.id) === String(id) ? updated : x)`. */
  function ReplaceById(list: seq<Schedule>, id: string, updated: Schedule): (r: seq<Schedule>)
    ensures |r| == |list|
    ensures forall i :: 0 <= i < |list| ==> r[i] == (if list[i].id == id then updated else list[i])
  {
    if |list| == 0 then []
    else [if list[0].id == id then updated else list[0]] + ReplaceById(list[1..], id, updated)
  }

  /** `updated.runCount = Number(updated.runCount) || 0`. */
  function Normalize(u: Schedule): (r: Schedule)
    ensures r.runCount == Some(RunCount(u))
    ensures r.(runCount := u.runCount) == u
  {
    u.(runCount := Some(RunCount(u)))
  }

  /**
    An atomic per-id update against the list as it is now: the updater is
    applied to a copy of the first entry with the id (a throwing updater
    leaves the copy as it was), the run count is normalized, and every entry
    with that id is replaced. A missing id writes nothing.
   */
  function Atomic(stored: seq<Schedule>, id: string, updater: Updater): Outcome {
    match FindById(stored, id)
    case None => Outcome(stored, NotFound)
    case Some(found) =>
      var updated := Normalize(Applied(found, updater));
      Outcome(ReplaceById(stored, id, updated), Updated(updated))
  }

  /** The updater's result on `found`, or `found` itself when the updater throws. */
  function Applied(found: Schedule, updater: Updater): Schedule {
    match updater(found) case Some(u) => u case None => found
  }

  /** A whole-list write; an empty list never overwrites a non-empty one. */
  function WriteAllGuarded(stored: seq<Schedule>, list: seq<Schedule>): seq<Schedule> {
    if |list| == 0 && |stored| > 0 then stored else list
  }

  /** One turn of the drain loop. */
  function RunJob(stored: seq<Schedule>, job: Job): Outcome {
    match job
    case WriteAll(list) => Outcome(WriteAllGuarded(stored, list), Written)
    case UpdateOne(id, updater) => Atomic(stored, id, updater)
  }

  /** The stored list after the jobs run in queue order. */
  function RunJobs(stored: seq<Schedule>, jobs: seq<Job>): seq<Schedule>
    decreases |jobs|
  {
    if |jobs| == 0 then stored else RunJobs(RunJob(stored, jobs[0]).stored, jobs[1..])
  }

  /** The replies of the jobs run in queue order. */
  function Replies(stored: seq<Schedule>, jobs: seq<Job>): (r: seq<Reply>)
    ensures |r| == |jobs|
    decreases |jobs|
  {
    if |jobs| == 0 then []
    else [RunJob(stored, jobs[0]).reply] + Replies(RunJob(stored, jobs[0]).stored, jobs[1..])
  }

  /**
    The persisted schedule list together with `_writeQueue` and
    `_writeProcessing`. The drain loop yields at every storage call; `Begin`,
    `ResumeOne` and `End` are its pieces between yields, and `Enqueue` may run
    between any two of them.
   */
  class WriteQueue {
    var stored: seq<Schedule>
    var queue: seq<Job>
    var processing: bool

    /** Whenever no drain loop is running, nothing is left queued. */
    ghost predicate Valid()
      reads this
    {
      !processing ==> queue == []
    }

    /** What storage holds once every queued job has run. */
    ghost function Eventual(): seq<Schedule>
      reads this
    {
      RunJobs(stored, queue)
    }

    constructor (initial: seq<Schedule>)
      ensures Valid()
      ensures stored == initial && queue == [] && !processing
    {
      stored := initial;
      queue := [];
      processing := false;
    }

    /** `_processWriteQueue`'s entry: claim the drain. */
    method Begin()
      requires !processing
      modifies this
      ensures processing && stored == old(stored) && queue == old(queue)
    {
      processing := true;
    }

    /** One job of the drain loop, run against the list as it is now. */
    method ResumeOne() returns (reply: Reply)
      requires processing && |queue| > 0
      modifies this
      ensures processing && queue == old(queue)[1..]
      ensures stored == RunJob(old(stored), old(queue)[0]).stored
      ensures reply == RunJob(old(stored), old(queue)[0]).reply
      ensures Eventual() == old(Eventual())
    {
      var job := queue[0];
      queue := queue[1..];
      var outcome := RunJob(stored, job);
      stored := outcome.stored;
      reply := outcome.reply;
    }

    /** The loop found the queue empty: release the drain. */
    method End()
      requires processing && queue == []
      modifies this
      ensures Valid()
      ensures !processing && stored == old(stored) && queue == []
    {
      processing := false;
    }

    /** `_processWriteQueue`: returns at once when a drain is already running,
        otherwise runs every queued job in FIFO order. */
    method ProcessWriteQueue() returns (replies: seq<Reply>)
      modifies this
      ensures old(processing) ==> processing && stored == old(stored) && queue == old(queue) && replies == []
      ensures !old(processing) ==> !processing && queue == []
      ensures !old(processing) ==> stored == RunJobs(old(stored), old(queue))
      ensures !old(processing) ==> replies == Replies(old(stored), old(queue))
    {
      replies := [];
      if processing {
        return;
      }
      Begin();
      while |queue| > 0
        invariant processing
        invariant RunJobs(stored, queue) == RunJobs(old(stored), old(queue))
        invariant replies + Replies(stored, queue) == Replies(old(stored), old(queue))
        decreases |queue|
      {
        ghost var before, pending := stored, queue;
        var reply := ResumeOne();
        assert Replies(before, pending) == [reply] + Replies(stored, queue);
        replies := replies + [reply];
      }
      End();
    }

    /** `_enqueueWrite` / the push in `updateScheduleAtomic`: append the job, and
        drain unless a drain is already running. */
    method Enqueue(job: Job) returns (reply: Reply)
      requires Valid()
      modifies this
      ensures Valid()
      ensures Eventual() == RunJob(old(Eventual()), job).stored
      ensures old(processing) ==> processing && stored == old(stored) && queue == old(queue) + [job] && reply == Queued
      ensures !old(processing) ==> !processing && queue == []
      ensures !old(processing) ==> stored == RunJob(old(stored), job).stored && reply == RunJob(old(stored), job).reply
    {
      RunJobsAppend(stored, queue, [job]);
      queue := queue + [job];
      if processing {
        reply := Queued;
      } else {
        var replies := ProcessWriteQueue();
        reply := replies[0];
      }
    }

    /** `setSchedules`: a queued whole-list write. */
    method SetSchedules(list: seq<Schedule>) returns (reply: Reply)
      requires Valid() && !processing
      modifies this
      ensures Valid() && !processing
      ensures stored == WriteAllGuarded(old(stored), list) && reply == Written
    {
      reply := Enqueue(WriteAll(list));
    }

    /** `updateScheduleAtomic`: a queued read-modify-write of one id. */
    method UpdateScheduleAtomic(id: string, updater: Updater) returns (reply: Reply)
      requires Valid() && !processing
      modifies this
      ensures Valid() && !processing
      ensures stored == Atomic(old(stored), id, updater).stored
      ensures reply == Atomic(old(stored), id, updater).reply
    {
      reply := Enqueue(UpdateOne(id, updater));
    }
  }

  /** Running two batches one after the other is running them as one queue. */
  lemma {:induction false} RunJobsAppend(stored: seq<Schedule>, a: seq<Job>, b: seq<Job>)
    ensures RunJobs(stored, a + b) == RunJobs(RunJobs(stored, a), b)
    decreases |a|
  {
    if |a| == 0 {
      assert a + b == b;
    } else {
      assert (a + b)[1..] == a[1..] + b;
      RunJobsAppend(RunJob(stored, a[0]).stored, a[1..], b);
    }
  }

  /** After replacing the entries with an id by an entry that keeps the id,
      a lookup of the id finds the replacement. */
  lemma {:induction false} FindAfterReplace(list: seq<Schedule>, id: string, updated: Schedule, i: int)
    requires 0 <= i < |list| && list[i].id == id && updated.id == id
    ensures FindById(ReplaceById(list, id, updated), id) == Some(updated)
    decreases |list|
  {
    if list[0].id != id {
      FindAfterReplace(list[1..], id, updated, i - 1);
      assert ReplaceById(list, id, updated)[1..] == ReplaceById(list[1..], id, updated);
    }
  }

  /**
    An atomic update of an existing id touches exactly the entries with that
    id, gives each the normalized result of the updater on the first such
    entry, keeps the list's length, and replies with that result.
   */
  lemma AtomicFound(stored: seq<Schedule>, id: string, updater: Updater, i: int)
    requires 0 <= i < |stored| && stored[i].id == id
    ensures FindById(stored, id).Some?
    ensures var o := Atomic(stored, id, updater);
      var updated := Normalize(Applied(FindById(stored, id).value, updater));
      && o.reply == Updated(updated)
      && updated.runCount == Some(RunCount(Applied(FindById(stored, id).value, updater)))
      && |o.stored| == |stored|
      && (forall k :: 0 <= k < |stored| && stored[k].id != id ==> o.stored[k] == stored[k])
      && (forall k :: 0 <= k < |stored| && stored[k].id == id ==> o.stored[k] == updated)
  {
  }

  /** A later lookup of the id sees the update, as long as the updater keeps the id. */
  lemma AtomicThenFind(stored: seq<Schedule>, id: string, updater: Updater, i: int)
    requires 0 <= i < |stored| && stored[i].id == id
    requires Applied(FindById(stored, id).value, updater).id == id
    ensures Atomic(stored, id, updater).reply.Updated?
    ensures FindById(Atomic(stored, id, updater).stored, id) == Some(Atomic(stored, id, updater).reply.schedule)
  {
    FindAfterReplace(stored, id, Normalize(Applied(FindById(stored, id).value, updater)), i);
  }

  /** An atomic update of a missing id writes nothing. */
  lemma AtomicMissing(stored: seq<Schedule>, id: string, updater: Updater)
    requires forall k :: 0 <= k < |stored| ==> stored[k].id != id
    ensures Atomic(stored, id, updater) == Outcome(stored, NotFound)
  {
  }

  /** A whole-list write stores the list it is given, except that an empty list
      never replaces a non-empty one. */
  lemma WriteAllStores(stored: seq<Schedule>, list: seq<Schedule>)
    ensures |list| > 0 ==> RunJob(stored, WriteAll(list)).stored == list
    ensures |stored| > 0 ==> RunJob(stored, WriteAll(list)).stored != []
    ensures RunJob(stored, WriteAll(list)).stored == [] <==> stored == [] && list == []
  {
  }

  /** No sequence of queued jobs ever empties a non-empty store. */
  lemma {:induction false} NeverEmptied(stored: seq<Schedule>, jobs: seq<Job>)
    requires |stored| > 0
    ensures |RunJobs(stored, jobs)| > 0
    decreases |jobs|
  {
    if |jobs| > 0 {
      NeverEmptied(RunJob(stored, jobs[0]).stored, jobs[1..]);
    }
  }
}

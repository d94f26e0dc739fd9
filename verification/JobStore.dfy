/** The in-memory job store (an index over an insertion-ordered list) and the lifecycle metrics. */
module JobStore {
  import opened Bytes
  import opened Text

  datatype Status = Queued | Running(startedAt: nat) | Completed(manifest: string) | Failed(error: string)

  datatype Entry = Entry(jobId: string, queuedAt: nat, status: Status, startedAt: Option<nat>, finishedAt: Option<nat>)

  function NewEntry(jobId: string, status: Status, now: nat): Entry {
    Entry(jobId, now, status, if status.Running? then Some(status.startedAt) else None, None)
  }

  /** The first start and the latest end are remembered; the status itself is simply replaced. */
  function UpdatedEntry(e: Entry, status: Status, now: nat): Entry {
    e.(status := status,
       startedAt := if status.Running? && e.startedAt.None? then Some(status.startedAt) else e.startedAt,
       finishedAt := if status.Completed? || status.Failed? then Some(now) else e.finishedAt)
  }

  /** Running for longer than `timeout`. */
  predicate IsStuck(e: Entry, timeout: nat, now: nat) {
    e.status.Running? && e.startedAt.Some? && now - e.startedAt.value > timeout
  }

  /** The entry of a job inserted with the first of these statuses and updated with the others, each with its time. */
  function History(jobId: string, updates: seq<(Status, nat)>): Entry
    requires updates != []
  {
    var last := updates[|updates| - 1];
    if |updates| == 1 then NewEntry(jobId, last.0, last.1)
    else UpdatedEntry(History(jobId, updates[..|updates| - 1]), last.0, last.1)
  }

  /** Update `k` is the first that starts the job. */
  predicate FirstStart(updates: seq<(Status, nat)>, k: nat) {
    k < |updates| && updates[k].0.Running? && forall j :: 0 <= j < k ==> !updates[j].0.Running?
  }

  /** A job counts from its first start, however often it is started. */
  lemma {:induction false} StartOfHistory(jobId: string, updates: seq<(Status, nat)>)
    requires updates != []
    ensures var e := History(jobId, updates);
      && (e.startedAt.Some? <==> exists k: nat :: FirstStart(updates, k))
      && (forall k: nat :: FirstStart(updates, k) ==> e.startedAt == Some(updates[k].0.startedAt))
      && e.status == updates[|updates| - 1].0
  {
    var n := |updates| - 1;
    if n == 0 {
      assert updates[0].0.Running? ==> FirstStart(updates, 0);
    } else {
      var init := updates[..n];
      StartOfHistory(jobId, init);
      assert forall k: nat :: k < n ==> (FirstStart(updates, k) <==> FirstStart(init, k));
      if History(jobId, init).startedAt.None? && updates[n].0.Running? {
        NoneStarted(init);
        assert FirstStart(updates, n);
      }
    }
  }

  lemma NoneStarted(updates: seq<(Status, nat)>)
    requires forall k: nat :: !FirstStart(updates, k)
    ensures forall j :: 0 <= j < |updates| ==> !updates[j].0.Running?
  {
    var j := 0;
    while j < |updates|
      invariant j <= |updates| && forall i :: 0 <= i < j ==> !updates[i].0.Running?
    {
      assert !FirstStart(updates, j);
      j := j + 1;
    }
  }

  /** A job is stuck exactly when its last update left it running and its first start is more than `timeout` ago. */
  lemma StuckIff(jobId: string, updates: seq<(Status, nat)>, timeout: nat, now: nat)
    requires updates != []
    ensures IsStuck(History(jobId, updates), timeout, now) <==>
      exists k: nat :: FirstStart(updates, k) && updates[|updates| - 1].0.Running? && updates[k].0.startedAt + timeout < now
  {
    StartOfHistory(jobId, updates);
  }

  /** The ids of the stuck entries, in insertion order. */
  function StuckIds(entries: seq<Entry>, timeout: nat, now: nat): seq<string> {
    if entries == [] then []
    else
      var last := entries[|entries| - 1];
      StuckIds(entries[..|entries| - 1], timeout, now) + (if IsStuck(last, timeout, now) then [last.jobId] else [])
  }

  ghost predicate Indexed(index: map<string, nat>, entries: seq<Entry>) {
    && (forall id :: id in index ==> index[id] < |entries| && entries[index[id]].jobId == id)
    && (forall i :: 0 <= i < |entries| ==> entries[i].jobId in index && index[entries[i].jobId] == i)
  }

  /** Each stuck job is listed once, and nothing else is. */
  lemma {:induction false} StuckIdsExact(index: map<string, nat>, entries: seq<Entry>, n: nat, timeout: nat, now: nat)
    requires Indexed(index, entries) && n <= |entries|
    ensures var ids := StuckIds(entries[..n], timeout, now);
      && Distinct(ids)
      && (forall id :: id in ids <==> id in index && index[id] < n && IsStuck(entries[index[id]], timeout, now))
  {
    if n > 0 {
      StuckIdsExact(index, entries, n - 1, timeout, now);
      assert entries[..n][..n - 1] == entries[..n - 1];
    }
  }

  class Store {
    var index: map<string, nat>
    var entries: seq<Entry>

    ghost predicate Valid()
      reads this
    {
      Indexed(index, entries)
    }

    /** The entry of each known job. */
    ghost function Contents(): (m: map<string, Entry>)
      requires Valid()
      reads this
      ensures m.Keys == index.Keys
    {
      map id | id in index :: entries[index[id]]
    }

    constructor ()
      ensures Valid() && Contents() == map[] && entries == []
    {
      index, entries := map[], [];
    }

    /** A known id is overwritten in its place, a new one goes to the end. */
    method Insert(jobId: string, status: Status, now: nat)
      requires Valid()
      modifies this
      ensures Valid() && Contents() == old(Contents())[jobId := NewEntry(jobId, status, now)]
      ensures jobId in old(index) ==> index == old(index) && |entries| == old(|entries|)
      ensures jobId !in old(index) ==> entries == old(entries) + [NewEntry(jobId, status, now)]
    {
      var entry := NewEntry(jobId, status, now);
      if jobId in index {
        entries := entries[index[jobId] := entry];
      } else {
        var i := |entries|;
        entries := entries + [entry];
        index := index[jobId := i];
      }
    }

    method Update(jobId: string, status: Status, now: nat) returns (known: bool)
      requires Valid()
      modifies this`entries
      ensures Valid() && known == (jobId in old(Contents()))
      ensures Contents() == if known then old(Contents())[jobId := UpdatedEntry(old(Contents())[jobId], status, now)]
                            else old(Contents())
      ensures |entries| == old(|entries|)
    {
      if jobId !in index {
        return false;
      }
      var i := index[jobId];
      var entry := entries[i];
      if status.Running? && entry.startedAt.None? {
        entry := entry.(startedAt := Some(status.startedAt));
      }
      if status.Completed? || status.Failed? {
        entry := entry.(finishedAt := Some(now));
      }
      entry := entry.(status := status);
      entries := entries[i := entry];
      return true;
    }

    /** The newest `limit` entries, newest first. */
    method ListRecent(limit: nat) returns (recent: seq<Entry>)
      requires Valid()
      ensures |recent| == if limit < |entries| then limit else |entries|
      ensures forall k :: 0 <= k < |recent| ==> recent[k] == entries[|entries| - 1 - k]
    {
      recent := [];
      while |recent| < limit && |recent| < |entries|
        invariant |recent| <= limit && |recent| <= |entries|
        invariant forall k :: 0 <= k < |recent| ==> recent[k] == entries[|entries| - 1 - k]
      {
        recent := recent + [entries[|entries| - 1 - |recent|]];
      }
    }

    /** Each job running too long, once, and no other. */
    method ListStuck(timeout: nat, now: nat) returns (ids: seq<string>)
      requires Valid()
      ensures Distinct(ids)
      ensures forall id :: id in ids <==> id in Contents() && IsStuck(Contents()[id], timeout, now)
    {
      ids := [];
      for i := 0 to |entries|
        invariant ids == StuckIds(entries[..i], timeout, now)
      {
        assert entries[..i + 1][..i] == entries[..i];
        if IsStuck(entries[i], timeout, now) {
          ids := ids + [entries[i].jobId];
        }
      }
      StuckIdsExact(index, entries, |entries|, timeout, now);
    }
  }

  // ---- Metrics ----

  /** Counters and gauges of the job lifecycle; gauges are signed. */
  datatype Gauges = Gauges(
    submitted: nat, completed: nat, failed: nat,
    queuedNow: int, runningNow: int, succeededNow: int, failedNow: int, stuckNow: int,
    inFlight: int)

  const NoJobs := Gauges(0, 0, 0, 0, 0, 0, 0, 0, 0)

  function OnSubmitted(g: Gauges): Gauges {
    g.(submitted := g.submitted + 1, queuedNow := g.queuedNow + 1, inFlight := g.inFlight + 1)
  }

  function OnDispatched(g: Gauges): Gauges {
    g.(queuedNow := g.queuedNow - 1, runningNow := g.runningNow + 1)
  }

  function OnCompleted(g: Gauges): Gauges {
    g.(completed := g.completed + 1, runningNow := g.runningNow - 1, succeededNow := g.succeededNow + 1,
       inFlight := g.inFlight - 1)
  }

  /** A failure with a duration ended a running job; one without turned a queued job away. */
  function OnFailed(g: Gauges, ran: bool): Gauges {
    g.(failed := g.failed + 1,
       runningNow := if ran then g.runningNow - 1 else g.runningNow,
       queuedNow := if ran then g.queuedNow else g.queuedNow - 1,
       failedNow := g.failedNow + 1, inFlight := g.inFlight - 1)
  }

  function OnStuck(g: Gauges): Gauges {
    g.(failed := g.failed + 1, runningNow := g.runningNow - 1, stuckNow := g.stuckNow + 1, inFlight := g.inFlight - 1)
  }

  class Metrics {
    var submitted: nat
    var completed: nat
    var failed: nat
    var queuedNow: int
    var runningNow: int
    var succeededNow: int
    var failedNow: int
    var stuckNow: int
    var inFlight: int

    ghost function View(): Gauges
      reads this
    {
      Gauges(submitted, completed, failed, queuedNow, runningNow, succeededNow, failedNow, stuckNow, inFlight)
    }

    constructor ()
      ensures View() == NoJobs
    {
      submitted, completed, failed := 0, 0, 0;
      queuedNow, runningNow, succeededNow, failedNow, stuckNow, inFlight := 0, 0, 0, 0, 0, 0;
    }

    method Submitted()
      modifies this
      ensures View() == OnSubmitted(old(View()))
    {
      submitted := submitted + 1;
      queuedNow := queuedNow + 1;
      inFlight := inFlight + 1;
    }

    method Dispatched()
      modifies this
      ensures View() == OnDispatched(old(View()))
    {
      queuedNow := queuedNow - 1;
      runningNow := runningNow + 1;
    }

    method Completed()
      modifies this
      ensures View() == OnCompleted(old(View()))
    {
      completed := completed + 1;
      runningNow := runningNow - 1;
      succeededNow := succeededNow + 1;
      inFlight := inFlight - 1;
    }

    method Failed(duration: Option<nat>)
      modifies this
      ensures View() == OnFailed(old(View()), duration.Some?)
    {
      failed := failed + 1;
      if duration.Some? {
        runningNow := runningNow - 1;
      } else {
        queuedNow := queuedNow - 1;
      }
      failedNow := failedNow + 1;
      inFlight := inFlight - 1;
    }

    method Stuck()
      modifies this
      ensures View() == OnStuck(old(View()))
    {
      failed := failed + 1;
      runningNow := runningNow - 1;
      stuckNow := stuckNow + 1;
      inFlight := inFlight - 1;
    }
  }
}

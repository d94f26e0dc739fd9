/**
 * The handlers, the worker and the reaper as they call the store, the channel
 * and the metrics. Run without interruption, each does the steps of the job
 * engine; interleaved, they are the steps of its runs.
 */
module Server {
  import opened Bytes
  import opened Text
  import opened JobStore
  import opened JobEngine

  /** Messages in final statuses play no part in the engine. */
  function Plain(status: Status): Status {
    match status
    case Completed(_) => Completed("")
    case Failed(_) => Failed("")
    case _ => status
  }

  function Statuses(contents: map<string, Entry>): (statuses: map<string, Status>)
    ensures statuses.Keys == contents.Keys
  {
    map id | id in contents :: Plain(contents[id].status)
  }

  lemma StatusesAfter(contents: map<string, Entry>, id: string, e: Entry)
    ensures Statuses(contents[id := e]) == Statuses(contents)[id := Plain(e.status)]
  {}

  lemma UpdatesStore(contents: map<string, Entry>, id: string, status: Status, now: nat)
    requires id in contents
    ensures Statuses(contents[id := UpdatedEntry(contents[id], status, now)]) == Statuses(contents)[id := Plain(status)]
  {}

  /** Steps taken one after the other. */
  function Taking(s: State, steps: seq<Step>): State {
    if steps == [] then s else Apply(Taking(s, steps[..|steps| - 1]), steps[|steps| - 1])
  }

  /** What submitting a job does. */
  function SubmitSteps(id: string, accepted: bool): seq<Step> {
    if accepted then [Insert(id), CountSubmit(id), Send(id)] else [Insert(id), CountSubmit(id), Refuse(id), CountRefusal(id)]
  }

  /** What a worker does with one job. */
  function ProcessSteps(id: string, started: nat, ok: bool): seq<Step> {
    [Receive, Dispatch(id), Begin(id, started), Report(id, ok), CountDone(id)]
  }

  /** What the reaper does: it takes its list and works through `n` jobs of it. */
  function ReapSteps(ids: seq<string>, n: nat): seq<Step> {
    if n == 0 then [Tick(ids)] else ReapSteps(ids, n - 1) + [MarkStuck] + [CountStuck]
  }

  /** The steps are enabled one after the other. */
  ghost predicate CanTake(s: State, steps: seq<Step>, limits: Limits) {
    steps == [] ||
    (CanTake(s, steps[..|steps| - 1], limits) && Enabled(Taking(s, steps[..|steps| - 1]), steps[|steps| - 1], limits))
  }

  lemma TakeOne(s: State, steps: seq<Step>, step: Step, limits: Limits)
    requires CanTake(s, steps, limits) && Enabled(Taking(s, steps), step, limits)
    ensures CanTake(s, steps + [step], limits) && Taking(s, steps + [step]) == Apply(Taking(s, steps), step)
  {}

  lemma TakeNone(s: State, limits: Limits)
    ensures CanTake(s, [], limits) && Taking(s, []) == s
  {}

  lemma {:induction false} TakingKeepsInv(s: State, steps: seq<Step>, limits: Limits)
    requires Inv(s, limits) && CanTake(s, steps, limits)
    ensures Inv(Taking(s, steps), limits)
  {
    hide Inv, Enabled, Apply;
    if steps != [] {
      TakingKeepsInv(s, steps[..|steps| - 1], limits);
      StepKeepsInv(Taking(s, steps[..|steps| - 1]), steps[|steps| - 1], limits);
    }
  }

  lemma SubmitTakes(s: State, id: string, accepted: bool, limits: Limits)
    requires id !in s.phases && accepted == (|s.channel| < limits.capacity)
    ensures var t := Taking(s, SubmitSteps(id, accepted));
      && CanTake(s, SubmitSteps(id, accepted), limits)
      && t.channel == (if accepted then s.channel + [id] else s.channel)
      && t.gauges == (if accepted then OnSubmitted(s.gauges) else OnFailed(OnSubmitted(s.gauges), false))
      && t.statuses == s.statuses[id := Queued]
      && t.stuck == s.stuck
  {
    hide CanTake, Taking, Hands, OnSubmitted, OnDispatched, OnCompleted, OnFailed;
    TakeNone(s, limits);
    TakeOne(s, [], Insert(id), limits);
    TakeOne(s, [] + [Insert(id)], CountSubmit(id), limits);
    if accepted {
      TakeOne(s, [] + [Insert(id)] + [CountSubmit(id)], Send(id), limits);
      assert SubmitSteps(id, accepted) == [] + [Insert(id)] + [CountSubmit(id)] + [Send(id)];
    } else {
      TakeOne(s, [] + [Insert(id)] + [CountSubmit(id)], Refuse(id), limits);
      TakeOne(s, [] + [Insert(id)] + [CountSubmit(id)] + [Refuse(id)], CountRefusal(id), limits);
      assert SubmitSteps(id, accepted) == [] + [Insert(id)] + [CountSubmit(id)] + [Refuse(id)] + [CountRefusal(id)];
    }
  }

  lemma StartTakes(s: State, id: string, started: nat, limits: Limits)
    requires s.channel != [] && id == s.channel[0] && |Hands(s.phases)| < limits.workers
    ensures var steps := [Receive, Dispatch(id), Begin(id, started)]; var t := Taking(s, steps);
      && CanTake(s, steps, limits)
      && In(t, id, Executing)
      && t.channel == s.channel[1..]
      && t.gauges == OnDispatched(s.gauges)
      && t.statuses == s.statuses[id := Running(started)]
      && t.stuck == s.stuck
  {
    hide CanTake, Taking, Hands, OnDispatched;
    TakeNone(s, limits);
    TakeOne(s, [], Receive, limits);
    TakeOne(s, [] + [Receive], Dispatch(id), limits);
    TakeOne(s, [] + [Receive] + [Dispatch(id)], Begin(id, started), limits);
    assert [Receive, Dispatch(id), Begin(id, started)] == [] + [Receive] + [Dispatch(id)] + [Begin(id, started)];
  }

  lemma FinishTakes(s: State, steps: seq<Step>, id: string, ok: bool, limits: Limits)
    requires CanTake(s, steps, limits) && In(Taking(s, steps), id, Executing)
    ensures var r := Taking(s, steps); var t := Taking(s, steps + [Report(id, ok)] + [CountDone(id)]);
      && CanTake(s, steps + [Report(id, ok)] + [CountDone(id)], limits)
      && t.channel == r.channel
      && t.gauges == (if ok then OnCompleted(r.gauges) else OnFailed(r.gauges, true))
      && t.statuses == r.statuses[id := if ok then Completed("") else Failed("")]
      && t.stuck == r.stuck
  {
    hide CanTake, Taking, OnCompleted, OnFailed;
    TakeOne(s, steps, Report(id, ok), limits);
    TakeOne(s, steps + [Report(id, ok)], CountDone(id), limits);
  }

  lemma ProcessTakes(s: State, id: string, started: nat, ok: bool, limits: Limits)
    requires s.channel != [] && id == s.channel[0] && |Hands(s.phases)| < limits.workers
    ensures var t := Taking(s, ProcessSteps(id, started, ok));
      && CanTake(s, ProcessSteps(id, started, ok), limits)
      && t.channel == s.channel[1..]
      && t.gauges == (if ok then OnCompleted(OnDispatched(s.gauges)) else OnFailed(OnDispatched(s.gauges), true))
      && t.statuses == s.statuses[id := if ok then Completed("") else Failed("")]
      && t.stuck == s.stuck
  {
    hide CanTake, Taking, Hands, OnDispatched, OnCompleted, OnFailed;
    var steps := [Receive, Dispatch(id), Begin(id, started)];
    StartTakes(s, id, started, limits);
    FinishTakes(s, steps, id, ok, limits);
    assert ProcessSteps(id, started, ok) == steps + [Report(id, ok)] + [CountDone(id)];
  }

  /** Updating a known job changes its status and no other. */
  method SetStatus(store: Store, id: string, status: Status, now: nat)
    requires store.Valid() && id in store.Contents()
    modifies store`entries
    ensures store.Valid() && store.Contents().Keys == old(store.Contents()).Keys
    ensures Statuses(store.Contents()) == Statuses(old(store.Contents()))[id := Plain(status)]
  {
    hide Statuses, UpdatedEntry, Store.Valid;
    UpdatesStore(store.Contents(), id, status, now);
    var known := store.Update(id, status, now);
  }

  /** The reaper has worked through the first `n` jobs of its list. */
  ghost predicate Reaping(s: State, ids: seq<string>, n: nat, limits: Limits) {
    && n <= |ids|
    && CanTake(s, ReapSteps(ids, n), limits)
    && var t := Taking(s, ReapSteps(ids, n)); t.stuck == ids[n..] && !t.marked && t.channel == s.channel
  }

  lemma TickTakes(s: State, ids: seq<string>, limits: Limits)
    requires Enabled(s, Tick(ids), limits)
    ensures Reaping(s, ids, 0, limits)
    ensures var t := Taking(s, ReapSteps(ids, 0)); t.gauges == s.gauges && t.statuses == s.statuses
  {}

  lemma ReapTakes(s: State, ids: seq<string>, n: nat, limits: Limits)
    requires n < |ids| && Reaping(s, ids, n, limits)
    ensures Reaping(s, ids, n + 1, limits)
    ensures var r, t := Taking(s, ReapSteps(ids, n)), Taking(s, ReapSteps(ids, n + 1));
      t.gauges == OnStuck(r.gauges) && t.statuses == r.statuses[ids[n] := Failed("")]
  {
    hide CanTake, Taking, OnStuck;
    var steps := ReapSteps(ids, n);
    TakeOne(s, steps, MarkStuck, limits);
    TakeOne(s, steps + [MarkStuck], CountStuck, limits);
    assert ids[n..][1..] == ids[n + 1..];
  }

  class Server {
    const store: Store
    const metrics: Metrics
    const limits: Limits
    var channel: seq<string>
    ghost var state: State

    /** The engine's state is what the store, the metrics and the channel hold. */
    ghost predicate Valid()
      reads this, store, metrics
    {
      && store.Valid()
      && state.channel == channel
      && state.gauges == metrics.View()
      && state.statuses == Statuses(store.Contents())
      && state.stuck == []
      && Inv(state, limits)
    }

    constructor (limits: Limits)
      ensures Valid() && state == Initial && this.limits == limits && fresh(store) && fresh(metrics)
    {
      hide Inv, Statuses;
      var s := new Store();
      var m := new Metrics();
      store, metrics := s, m;
      this.limits := limits;
      channel := [];
      state := Initial;
      InitialInv(limits);
    }

    /** A new job is stored, counted and sent; if the channel is full it is counted as failed but stays stored. */
    method Submit(id: string, now: nat) returns (accepted: bool)
      requires Valid() && id !in store.Contents()
      modifies this, store, metrics
      ensures Valid() && accepted == (|old(channel)| < limits.capacity)
      ensures state == Taking(old(state), SubmitSteps(id, accepted))
    {
      hide Inv, Taking, CanTake, Statuses, SubmitSteps, OnSubmitted, OnFailed, Store.Valid, Metrics.View;
      ghost var before := state;
      StatusesAfter(store.Contents(), id, NewEntry(id, Queued, now));
      store.Insert(id, Queued, now);
      metrics.Submitted();
      accepted := |channel| < limits.capacity;
      if accepted {
        channel := channel + [id];
      } else {
        metrics.Failed(None);
      }
      SameJobs(before, limits);
      SubmitTakes(before, id, accepted, limits);
      TakingKeepsInv(before, SubmitSteps(id, accepted), limits);
      state := Taking(before, SubmitSteps(id, accepted));
    }

    /** The store follows the job to its end, and the metrics count the end. */
    method ProcessTask(id: string, started: nat, finished: nat, result: Status)
      requires store.Valid() && id in store.Contents()
      requires result.Completed? || result.Failed?
      modifies store, metrics
      ensures store.Valid()
      ensures Statuses(store.Contents()) == Statuses(old(store.Contents()))[id := Plain(result)]
      ensures metrics.View() ==
        if result.Completed? then OnCompleted(old(metrics.View())) else OnFailed(old(metrics.View()), true)
    {
      hide Statuses, OnCompleted, OnFailed, Store.Valid, Store.Contents, Metrics.View;
      SetStatus(store, id, Running(started), started);
      SetStatus(store, id, result, finished);
      if result.Completed? {
        metrics.Completed();
      } else {
        metrics.Failed(Some(finished));
      }
    }

    /** One turn of a worker: it receives the next job, counts it as dispatched and processes it. */
    method ProcessNext(started: nat, finished: nat, result: Status)
      requires Valid() && channel != [] && |Hands(state.phases)| < limits.workers
      requires result.Completed? || result.Failed?
      modifies this, store, metrics
      ensures Valid()
      ensures state == Taking(old(state), ProcessSteps(old(channel)[0], started, result.Completed?))
    {
      hide Inv, Taking, CanTake, Hands, Statuses, ProcessSteps, OnDispatched, OnCompleted, OnFailed;
      hide Store.Valid, Store.Contents, Metrics.View;
      ghost var before := state;
      var id := channel[0];
      QueuedJobsAreKnown(before, limits);
      channel := channel[1..];
      metrics.Dispatched();
      ProcessTask(id, started, finished, result);
      ProcessTakes(before, id, started, result.Completed?, limits);
      TakingKeepsInv(before, ProcessSteps(id, started, result.Completed?), limits);
      state := Taking(before, ProcessSteps(id, started, result.Completed?));
    }

    /** The reaper fails each job that has been running too long, once. */
    method Reap(timeout: nat, now: nat) returns (ids: seq<string>)
      requires Valid()
      modifies this, store, metrics
      ensures Valid()
      ensures forall id :: id in ids <==> id in old(store.Contents()) && IsStuck(old(store.Contents()[id]), timeout, now)
      ensures state == Taking(old(state), ReapSteps(ids, |ids|))
    {
      hide Inv, Taking, CanTake, Reaping, Statuses, ReapSteps, OnStuck, Store.Valid, Metrics.View;
      ghost var before := state;
      ids := store.ListStuck(timeout, now);
      StuckAreRunning(store.Contents(), before, ids, timeout, now);
      TickTakes(before, ids, limits);
      for i := 0 to |ids|
        invariant store.Valid() && Reaping(before, ids, i, limits)
        invariant channel == old(channel)
        invariant store.Contents().Keys == old(store.Contents()).Keys
        invariant var t := Taking(before, ReapSteps(ids, i));
          t.gauges == metrics.View() && t.statuses == Statuses(store.Contents())
      {
        assert ids[i] in store.Contents();
        SetStatus(store, ids[i], Failed("timeout"), now);
        metrics.Stuck();
        ReapTakes(before, ids, i, limits);
      }
      ReapEnds(before, ids, limits);
      TakingKeepsInv(before, ReapSteps(ids, |ids|), limits);
      state := Taking(before, ReapSteps(ids, |ids|));
    }
  }

  lemma ReapEnds(s: State, ids: seq<string>, limits: Limits)
    requires Reaping(s, ids, |ids|, limits)
    ensures CanTake(s, ReapSteps(ids, |ids|), limits)
    ensures var t := Taking(s, ReapSteps(ids, |ids|)); t.stuck == [] && t.channel == s.channel
  {}

  lemma StuckAreRunning(contents: map<string, Entry>, s: State, ids: seq<string>, timeout: nat, now: nat)
    requires s.statuses == Statuses(contents) && s.stuck == [] && Distinct(ids)
    requires forall id :: id in ids ==> id in contents && IsStuck(contents[id], timeout, now)
    ensures forall limits :: Enabled(s, Tick(ids), limits)
  {}

  lemma SameJobs(s: State, limits: Limits)
    requires Inv(s, limits)
    ensures s.statuses.Keys == s.phases.Keys
  {}

  lemma QueuedJobsAreKnown(s: State, limits: Limits)
    requires Inv(s, limits)
    ensures forall id :: id in s.channel ==> id in s.statuses
  {}
}

/**
 * The job engine as a step system: request handlers, the bounded channel, the
 * worker pool and the reaper interleave in any order. Each call into the store,
 * the channel or the metrics is one atomic step.
 */
module JobEngine {
  import opened Bytes
  import opened Text
  import opened JobStore

  /** How far a job has come; the comments name the call just made for it. */
  datatype Phase =
    | Stored                 // job_store.insert
    | Counted                // metrics.submitted
    | Refused                // try_send found the channel full
    | TurnedAway             // metrics.failed(None)
    | InChannel              // try_send
    | Taken                  // recv
    | Dispatched             // metrics.dispatched
    | Executing              // job_store.update(Running)
    | Reported(ok: bool)     // job_store.update(Completed or Failed)
    | Done(ok: bool)         // metrics.completed or metrics.failed(Some)

  datatype Group = Uncounted | QueuedGroup | RunningGroup | SucceededGroup | FailedGroup

  /** The status gauge a job in this phase is counted under. */
  function GroupOf(p: Phase): Group {
    match p
    case Stored => Uncounted
    case Counted | Refused | InChannel | Taken => QueuedGroup
    case Dispatched | Executing | Reported(_) => RunningGroup
    case TurnedAway => FailedGroup
    case Done(ok) => if ok then SucceededGroup else FailedGroup
  }

  datatype State = State(
    phases: map<string, Phase>,
    statuses: map<string, Status>,
    channel: seq<string>,
    accepted: seq<string>,
    received: seq<string>,
    gauges: Gauges,
    stuck: seq<string>,
    marked: bool,
    reaped: seq<string>)

  /** The channel's capacity and the number of workers. */
  datatype Limits = Limits(capacity: nat, workers: nat)

  /** `stuck` is the rest of the reaper's list; `marked` says its head is already failed in the store. */
  const Initial := State(map[], map[], [], [], [], NoJobs, [], false, [])

  datatype Step =
    | Insert(id: string)
    | CountSubmit(id: string)
    | Send(id: string)
    | Refuse(id: string)
    | CountRefusal(id: string)
    | Receive
    | Dispatch(id: string)
    | Begin(id: string, now: nat)
    | Report(id: string, ok: bool)
    | CountDone(id: string)
    | Tick(ids: seq<string>)
    | MarkStuck
    | CountStuck

  predicate IsHandlerStep(step: Step) {
    step.Insert? || step.CountSubmit? || step.Send? || step.Refuse? || step.CountRefusal?
  }

  predicate IsReaperStep(step: Step) {
    step.Tick? || step.MarkStuck? || step.CountStuck?
  }

  predicate IsWorkerStep(step: Step) {
    !IsHandlerStep(step) && !IsReaperStep(step)
  }

  /** Received by a worker and not finished. */
  predicate InHand(p: Phase) {
    p.Taken? || p.Dispatched? || p.Executing? || p.Reported?
  }

  function Hands(phases: map<string, Phase>): set<string> {
    set id | id in phases && InHand(phases[id])
  }

  predicate In(s: State, id: string, p: Phase) {
    id in s.phases && s.phases[id] == p
  }

  ghost predicate Enabled(s: State, step: Step, limits: Limits) {
    match step
    case Insert(id) => id !in s.phases
    case CountSubmit(id) => In(s, id, Stored)
    case Send(id) => In(s, id, Counted) && |s.channel| < limits.capacity
    case Refuse(id) => In(s, id, Counted) && |s.channel| >= limits.capacity
    case CountRefusal(id) => In(s, id, Refused)
    case Receive => s.channel != [] && |Hands(s.phases)| < limits.workers
    case Dispatch(id) => In(s, id, Taken)
    case Begin(id, _) => In(s, id, Dispatched)
    case Report(id, _) => In(s, id, Executing)
    case CountDone(id) => id in s.phases && s.phases[id].Reported?
    case Tick(ids) => s.stuck == [] && Distinct(ids) && forall id :: id in ids ==> id in s.statuses && s.statuses[id].Running?
    case MarkStuck => s.stuck != [] && !s.marked
    case CountStuck => s.stuck != [] && s.marked
  }

  function To(s: State, id: string, p: Phase): State {
    s.(phases := s.phases[id := p])
  }

  function Apply(s: State, step: Step): State {
    match step
    case Insert(id) => To(s, id, Stored).(statuses := s.statuses[id := Queued])
    case CountSubmit(id) => To(s, id, Counted).(gauges := OnSubmitted(s.gauges))
    case Send(id) => To(s, id, InChannel).(channel := s.channel + [id], accepted := s.accepted + [id])
    case Refuse(id) => To(s, id, Refused)
    case CountRefusal(id) => To(s, id, TurnedAway).(gauges := OnFailed(s.gauges, false))
    case Receive =>
      if s.channel == [] then s
      else To(s, s.channel[0], Taken).(channel := s.channel[1..], received := s.received + [s.channel[0]])
    case Dispatch(id) => To(s, id, Dispatched).(gauges := OnDispatched(s.gauges))
    case Begin(id, now) => To(s, id, Executing).(statuses := s.statuses[id := Running(now)])
    case Report(id, ok) =>
      To(s, id, Reported(ok)).(statuses := s.statuses[id := if ok then Completed("") else Failed("")])
    case CountDone(id) =>
      var ok := id in s.phases && s.phases[id].Reported? && s.phases[id].ok;
      To(s, id, Done(ok)).(gauges := if ok then OnCompleted(s.gauges) else OnFailed(s.gauges, true))
    case Tick(ids) => s.(stuck := ids, marked := false)
    case MarkStuck =>
      if s.stuck == [] then s
      else s.(statuses := s.statuses[s.stuck[0] := Failed("")], marked := true)
    case CountStuck =>
      if s.stuck == [] then s
      else s.(gauges := OnStuck(s.gauges), reaped := s.reaped + [s.stuck[0]], stuck := s.stuck[1..], marked := false)
  }

  /** Where a run of steps leads. */
  function After(steps: seq<Step>): State {
    if steps == [] then Initial else Apply(After(steps[..|steps| - 1]), steps[|steps| - 1])
  }

  /** A run: every step enabled where it is taken. */
  ghost predicate IsRun(steps: seq<Step>, limits: Limits) {
    steps == [] ||
    (IsRun(steps[..|steps| - 1], limits) && Enabled(After(steps[..|steps| - 1]), steps[|steps| - 1], limits))
  }

  // ---- Counting jobs by group ----

  function Members(phases: map<string, Phase>, g: Group): set<string> {
    set id | id in phases && GroupOf(phases[id]) == g
  }

  /** Jobs counted under `g`. */
  function Count(phases: map<string, Phase>, g: Group): nat {
    |Members(phases, g)|
  }

  lemma CountAfterMove(phases: map<string, Phase>, id: string, p: Phase, g: Group)
    ensures Count(phases[id := p], g) ==
      Count(phases, g) + (if GroupOf(p) == g then 1 else 0)
                       - (if id in phases && GroupOf(phases[id]) == g then 1 else 0)
  {
    var a, b := Members(phases, g), Members(phases[id := p], g);
    if GroupOf(p) == g {
      assert b == a + {id};
    } else {
      assert b == a - {id};
    }
  }

  // ---- The invariant ----

  /** Every metric is a count of jobs, corrected by the reaps. */
  ghost predicate GaugesOk(phases: map<string, Phase>, g: Gauges, reaps: nat) {
    && g.submitted == Count(phases, QueuedGroup) + Count(phases, RunningGroup)
                      + Count(phases, SucceededGroup) + Count(phases, FailedGroup)
    && g.completed == Count(phases, SucceededGroup)
    && g.failed == Count(phases, FailedGroup) + reaps
    && g.queuedNow == Count(phases, QueuedGroup)
    && g.runningNow == Count(phases, RunningGroup) - reaps
    && g.succeededNow == Count(phases, SucceededGroup)
    && g.failedNow == Count(phases, FailedGroup)
    && g.stuckNow == reaps
    && g.inFlight == Count(phases, QueuedGroup) + Count(phases, RunningGroup) - reaps
  }

  predicate WasTaken(p: Phase) {
    InHand(p) || p.Done?
  }

  predicate HasBegun(p: Phase) {
    p.Executing? || p.Reported? || p.Done?
  }

  /** The channel hands jobs over once, in order of acceptance. */
  ghost predicate QueueOk(s: State, limits: Limits) {
    && |s.channel| <= limits.capacity
    && s.accepted == s.received + s.channel
    && Distinct(s.accepted)
    && (forall id :: id in s.channel <==> In(s, id, InChannel))
    && (forall id :: id in s.received <==> id in s.phases && WasTaken(s.phases[id]))
  }

  /** What the store may say of a job: the reaper can fail an executing one. */
  predicate Agrees(p: Phase, status: Status) {
    if p.Executing? then status.Running? || status.Failed?
    else if p.Reported? || p.Done? then status.Completed? || status.Failed?
    else status.Queued?
  }

  /** Only a job that has begun is ever listed or reaped; and it never runs again after a reap. */
  ghost predicate ReaperOk(s: State) {
    && s.statuses.Keys == s.phases.Keys
    && (forall id :: id in s.phases ==> Agrees(s.phases[id], s.statuses[id]))
    && Distinct(s.stuck) && Distinct(s.reaped)
    && (forall id :: id in s.stuck ==> id in s.phases && HasBegun(s.phases[id]) && id !in s.reaped)
    && (forall id :: id in s.reaped ==> id in s.phases && HasBegun(s.phases[id]) && !s.statuses[id].Running?)
    && (s.marked ==> s.stuck != [] && !s.statuses[s.stuck[0]].Running?)
  }

  ghost predicate Inv(s: State, limits: Limits) {
    GaugesOk(s.phases, s.gauges, |s.reaped|) && QueueOk(s, limits) && ReaperOk(s) && |Hands(s.phases)| <= limits.workers
  }

  /** What the metrics must do when a job changes groups. */
  function Shift(g: Gauges, before: Group, after: Group): Gauges {
    if before == after then g
    else if after.QueuedGroup? then OnSubmitted(g)
    else if after.RunningGroup? then OnDispatched(g)
    else if after.SucceededGroup? then OnCompleted(g)
    else OnFailed(g, before.RunningGroup?)
  }

  /** The groups only ever move Uncounted, Queued, Running, final; a refused job skips Running. */
  predicate Forward(before: Group, after: Group) {
    || before == after
    || (before.Uncounted? && after.QueuedGroup?)
    || (before.QueuedGroup? && (after.RunningGroup? || after.FailedGroup?))
    || (before.RunningGroup? && (after.SucceededGroup? || after.FailedGroup?))
  }

  lemma MoveKeepsGauges(phases: map<string, Phase>, g: Gauges, reaps: nat, id: string, p: Phase)
    requires GaugesOk(phases, g, reaps)
    requires Forward(if id in phases then GroupOf(phases[id]) else Uncounted, GroupOf(p))
    ensures GaugesOk(phases[id := p], Shift(g, if id in phases then GroupOf(phases[id]) else Uncounted, GroupOf(p)), reaps)
  {
    hide Members, Count, GroupOf;
    CountAfterMove(phases, id, p, QueuedGroup);
    CountAfterMove(phases, id, p, RunningGroup);
    CountAfterMove(phases, id, p, SucceededGroup);
    CountAfterMove(phases, id, p, FailedGroup);
  }

  lemma HandlerStepKeepsGauges(s: State, step: Step, limits: Limits)
    requires GaugesOk(s.phases, s.gauges, |s.reaped|) && Enabled(s, step, limits) && IsHandlerStep(step)
    ensures var s' := Apply(s, step); GaugesOk(s'.phases, s'.gauges, |s'.reaped|)
  {
    hide GaugesOk;
    match step {
      case Insert(id) => MoveKeepsGauges(s.phases, s.gauges, |s.reaped|, id, Stored);
      case CountSubmit(id) => MoveKeepsGauges(s.phases, s.gauges, |s.reaped|, id, Counted);
      case Send(id) => MoveKeepsGauges(s.phases, s.gauges, |s.reaped|, id, InChannel);
      case Refuse(id) => MoveKeepsGauges(s.phases, s.gauges, |s.reaped|, id, Refused);
      case CountRefusal(id) => MoveKeepsGauges(s.phases, s.gauges, |s.reaped|, id, TurnedAway);
    }
  }

  lemma WorkerStepKeepsGauges(s: State, step: Step, limits: Limits)
    requires GaugesOk(s.phases, s.gauges, |s.reaped|) && Enabled(s, step, limits) && IsWorkerStep(step)
    requires forall id :: id in s.channel ==> In(s, id, InChannel)
    ensures var s' := Apply(s, step); GaugesOk(s'.phases, s'.gauges, |s'.reaped|)
  {
    hide GaugesOk, Hands;
    match step {
      case Receive =>
        assert s.channel[0] in s.channel;
        MoveKeepsGauges(s.phases, s.gauges, |s.reaped|, s.channel[0], Taken);
      case Dispatch(id) => MoveKeepsGauges(s.phases, s.gauges, |s.reaped|, id, Dispatched);
      case Begin(id, _) => MoveKeepsGauges(s.phases, s.gauges, |s.reaped|, id, Executing);
      case Report(id, ok) => MoveKeepsGauges(s.phases, s.gauges, |s.reaped|, id, Reported(ok));
      case CountDone(id) => MoveKeepsGauges(s.phases, s.gauges, |s.reaped|, id, Done(s.phases[id].ok));
    }
  }

  lemma StepKeepsGauges(s: State, step: Step, limits: Limits)
    requires GaugesOk(s.phases, s.gauges, |s.reaped|) && Enabled(s, step, limits)
    requires forall id :: id in s.channel ==> In(s, id, InChannel)
    ensures var s' := Apply(s, step); GaugesOk(s'.phases, s'.gauges, |s'.reaped|)
  {
    hide Count;
    if IsHandlerStep(step) {
      HandlerStepKeepsGauges(s, step, limits);
    } else if IsWorkerStep(step) {
      WorkerStepKeepsGauges(s, step, limits);
    }
  }

  /** A move that neither enters nor leaves the channel or the hands of a worker. */
  lemma MoveKeepsQueue(s: State, id: string, p: Phase, limits: Limits)
    requires QueueOk(s, limits) && !p.InChannel? && !In(s, id, InChannel)
    requires WasTaken(p) <==> id in s.phases && WasTaken(s.phases[id])
    ensures QueueOk(To(s, id, p), limits)
  {}

  lemma SendKeepsQueue(s: State, id: string, limits: Limits)
    requires QueueOk(s, limits) && Enabled(s, Send(id), limits)
    ensures QueueOk(Apply(s, Send(id)), limits)
  {
    assert id !in s.channel && id !in s.received;
    assert id !in s.accepted;
    assert s.received + (s.channel + [id]) == s.accepted + [id];
  }

  lemma ReceiveKeepsQueue(s: State, limits: Limits)
    requires QueueOk(s, limits) && s.channel != []
    ensures QueueOk(Apply(s, Receive), limits)
  {
    var id, rest := s.channel[0], s.channel[1..];
    var n := |s.received|;
    assert s.channel == [id] + rest && id in s.channel;
    assert (s.received + [id]) + rest == s.accepted;
    assert s.accepted[n] == id && forall k :: 0 <= k < |rest| ==> s.accepted[n + 1 + k] == rest[k];
    assert id !in rest;
    assert forall x :: x in s.channel <==> x == id || x in rest;
  }

  lemma StepKeepsQueue(s: State, step: Step, limits: Limits)
    requires QueueOk(s, limits) && Enabled(s, step, limits)
    ensures QueueOk(Apply(s, step), limits)
  {
    match step {
      case Insert(id) => MoveKeepsQueue(s, id, Stored, limits);
      case CountSubmit(id) => MoveKeepsQueue(s, id, Counted, limits);
      case Send(id) => SendKeepsQueue(s, id, limits);
      case Refuse(id) => MoveKeepsQueue(s, id, Refused, limits);
      case CountRefusal(id) => MoveKeepsQueue(s, id, TurnedAway, limits);
      case Receive => ReceiveKeepsQueue(s, limits);
      case Dispatch(id) => MoveKeepsQueue(s, id, Dispatched, limits);
      case Begin(id, _) => MoveKeepsQueue(s, id, Executing, limits);
      case Report(id, ok) => MoveKeepsQueue(s, id, Reported(ok), limits);
      case CountDone(id) => MoveKeepsQueue(s, id, Done(s.phases[id].ok), limits);
      case _ =>
    }
  }

  /** A move that leaves the store's status alone. */
  lemma MoveKeepsReaper(s: State, id: string, p: Phase)
    requires ReaperOk(s) && id in s.phases && Agrees(p, s.statuses[id])
    requires HasBegun(s.phases[id]) ==> HasBegun(p)
    ensures ReaperOk(To(s, id, p))
  {}

  lemma InsertKeepsReaper(s: State, id: string)
    requires ReaperOk(s) && id !in s.phases
    ensures ReaperOk(To(s, id, Stored).(statuses := s.statuses[id := Queued]))
  {}

  /** A status set by the worker: `Running` on a job not begun, a final one on an executing job. */
  lemma StatusKeepsReaper(s: State, id: string, p: Phase, status: Status)
    requires ReaperOk(s) && id in s.phases && HasBegun(p) && Agrees(p, status)
    requires status.Running? ==> !HasBegun(s.phases[id])
    ensures ReaperOk(To(s, id, p).(statuses := s.statuses[id := status]))
  {}

  lemma ReaperStepKeepsReaper(s: State, step: Step, limits: Limits)
    requires ReaperOk(s) && Enabled(s, step, limits) && IsReaperStep(step)
    ensures ReaperOk(Apply(s, step))
  {}

  lemma HandlerStepKeepsReaper(s: State, step: Step, limits: Limits)
    requires ReaperOk(s) && Enabled(s, step, limits) && IsHandlerStep(step)
    ensures ReaperOk(Apply(s, step))
  {
    hide Hands, Distinct;
    match step {
      case Insert(id) => InsertKeepsReaper(s, id);
      case CountSubmit(id) => MoveKeepsReaper(s, id, Counted);
      case Send(id) => MoveKeepsReaper(s, id, InChannel);
      case Refuse(id) => MoveKeepsReaper(s, id, Refused);
      case CountRefusal(id) => MoveKeepsReaper(s, id, TurnedAway);
    }
  }

  lemma WorkerStepKeepsReaper(s: State, step: Step, limits: Limits)
    requires ReaperOk(s) && Enabled(s, step, limits) && IsWorkerStep(step)
    requires forall id :: id in s.channel ==> In(s, id, InChannel)
    ensures ReaperOk(Apply(s, step))
  {
    hide Hands, Distinct;
    match step {
      case Receive =>
        assert s.channel[0] in s.channel;
        MoveKeepsReaper(s, s.channel[0], Taken);
      case Dispatch(id) => MoveKeepsReaper(s, id, Dispatched);
      case Begin(id, now) => StatusKeepsReaper(s, id, Executing, Running(now));
      case Report(id, ok) => StatusKeepsReaper(s, id, Reported(ok), if ok then Completed("") else Failed(""));
      case CountDone(id) => MoveKeepsReaper(s, id, Done(s.phases[id].ok));
    }
  }

  lemma StepKeepsReaper(s: State, step: Step, limits: Limits)
    requires ReaperOk(s) && Enabled(s, step, limits)
    requires forall id :: id in s.channel ==> In(s, id, InChannel)
    ensures ReaperOk(Apply(s, step))
  {
    hide ReaperOk, Enabled, Apply;
    if IsHandlerStep(step) {
      HandlerStepKeepsReaper(s, step, limits);
    } else if IsReaperStep(step) {
      ReaperStepKeepsReaper(s, step, limits);
    } else {
      WorkerStepKeepsReaper(s, step, limits);
    }
  }

  lemma HandsAfterMove(phases: map<string, Phase>, id: string, p: Phase)
    ensures |Hands(phases[id := p])| ==
      |Hands(phases)| + (if InHand(p) then 1 else 0) - (if id in phases && InHand(phases[id]) then 1 else 0)
  {
    var a, b := Hands(phases), Hands(phases[id := p]);
    if InHand(p) {
      assert b == a + {id};
    } else {
      assert b == a - {id};
    }
  }

  /** The phase a step moves a job to, if it moves one. */
  function Moved(s: State, step: Step): Option<string> {
    match step
    case Receive => if s.channel == [] then None else Some(s.channel[0])
    case Tick(_) | MarkStuck | CountStuck => None
    case _ => Some(step.id)
  }

  lemma StepKeepsHands(s: State, step: Step, limits: Limits)
    requires Enabled(s, step, limits) && |Hands(s.phases)| <= limits.workers
    requires forall id :: id in s.channel ==> In(s, id, InChannel)
    ensures |Hands(Apply(s, step).phases)| <= limits.workers
  {
    hide Hands;
    if s.channel != [] {
      assert s.channel[0] in s.channel;
    }
    var s' := Apply(s, step);
    if Moved(s, step).Some? {
      var id := Moved(s, step).value;
      assert s'.phases == s.phases[id := s'.phases[id]];
      HandsAfterMove(s.phases, id, s'.phases[id]);
    }
  }

  lemma StepKeepsInv(s: State, step: Step, limits: Limits)
    requires Inv(s, limits) && Enabled(s, step, limits)
    ensures Inv(Apply(s, step), limits)
  {
    hide GaugesOk, ReaperOk, Apply, Enabled, Hands;
    StepKeepsGauges(s, step, limits);
    StepKeepsQueue(s, step, limits);
    StepKeepsReaper(s, step, limits);
    StepKeepsHands(s, step, limits);
  }

  lemma NoneAtFirst(g: Group)
    ensures Count(map[], g) == 0
  {}

  lemma NothingCountedAtFirst()
    ensures GaugesOk(map[], NoJobs, 0)
  {
    hide Count, Members;
    NoneAtFirst(QueuedGroup);
    NoneAtFirst(RunningGroup);
    NoneAtFirst(SucceededGroup);
    NoneAtFirst(FailedGroup);
  }

  lemma InitialInv(limits: Limits)
    ensures Inv(Initial, limits)
  {
    hide GaugesOk, Count, Members;
    NothingCountedAtFirst();
    assert Initial.reaped == [] && Initial.phases == map[] && Hands(Initial.phases) == {};
  }

  lemma {:induction false} RunsKeepInv(steps: seq<Step>, limits: Limits)
    requires IsRun(steps, limits)
    ensures Inv(After(steps), limits)
  {
    hide Inv, Enabled, Apply;
    if steps == [] {
      InitialInv(limits);
    } else {
      RunsKeepInv(steps[..|steps| - 1], limits);
      StepKeepsInv(After(steps[..|steps| - 1]), steps[|steps| - 1], limits);
    }
  }

  // ---- What holds on every run ----

  /**
   * Conservation and order: the channel is bounded, jobs are received once and
   * in order of acceptance, no job is reaped twice, and the metrics balance.
   */
  lemma EveryRunBalances(steps: seq<Step>, limits: Limits)
    requires IsRun(steps, limits)
    ensures var s := After(steps); var g := s.gauges;
      && |s.channel| <= limits.capacity && |Hands(s.phases)| <= limits.workers
      && s.accepted == s.received + s.channel && Distinct(s.accepted) && Distinct(s.reaped)
      && g.submitted == g.completed + g.failed + g.inFlight
      && g.submitted == g.queuedNow + g.runningNow + g.succeededNow + g.failedNow + g.stuckNow
      && g.inFlight == Count(s.phases, QueuedGroup) + Count(s.phases, RunningGroup) - |s.reaped|
  {
    hide Count, Members, Hands, Distinct, Apply;
    RunsKeepInv(steps, limits);
  }

  /** Jobs in processing that the reaper has not counted. */
  function Live(s: State): set<string> {
    set id | id in s.phases && GroupOf(s.phases[id]) == RunningGroup && id !in s.reaped
  }

  /** Jobs counted by the reaper that a worker has finished as well. */
  function Late(s: State): set<string> {
    set id | id in s.phases && s.phases[id].Done? && id in s.reaped
  }

  function Elements(ids: seq<string>): set<string> {
    set id | id in ids
  }

  lemma {:induction false} DistinctCounted(ids: seq<string>)
    requires Distinct(ids)
    ensures |Elements(ids)| == |ids|
  {
    if ids != [] {
      var rest, last := ids[..|ids| - 1], ids[|ids| - 1];
      assert ids == rest + [last];
      DistinctCounted(rest);
      assert Elements(ids) == Elements(rest) + {last};
    }
  }

  lemma ReapedHaveBegun(s: State)
    requires ReaperOk(s)
    ensures Distinct(s.reaped) && forall id :: id in Elements(s.reaped) ==> id in s.phases && HasBegun(s.phases[id])
  {
    hide Distinct, Agrees;
  }

  /** Every reaped job is still in processing or was finished late. */
  lemma ReapedAreLiveOrLate(s: State)
    requires ReaperOk(s)
    ensures Count(s.phases, RunningGroup) - |s.reaped| == |Live(s)| - |Late(s)|
  {
    ReapedHaveBegun(s);
    hide ReaperOk, Distinct, Live, Late, Members, Elements;
    var running, reaped := Members(s.phases, RunningGroup), Elements(s.reaped);
    DistinctCounted(s.reaped);
    LiveAndLate(s);
  }

  lemma LiveAndLate(s: State)
    requires forall id :: id in Elements(s.reaped) ==> id in s.phases && HasBegun(s.phases[id])
    ensures Live(s) == Members(s.phases, RunningGroup) - Elements(s.reaped)
    ensures Late(s) == Elements(s.reaped) - Members(s.phases, RunningGroup)
  {}

  /**
   * The running gauge is the jobs in processing that were not reaped, less the
   * reaped jobs that finished after all; so it is negative exactly when the latter
   * are more. Queued jobs come on top for the in-flight gauge. No other gauge is
   * ever negative.
   */
  lemma GaugesNonNegativeIff(steps: seq<Step>, limits: Limits)
    requires IsRun(steps, limits)
    ensures var s := After(steps); var g := s.gauges;
      && g.runningNow == |Live(s)| - |Late(s)|
      && g.inFlight == Count(s.phases, QueuedGroup) + |Live(s)| - |Late(s)|
      && (g.runningNow >= 0 <==> |Late(s)| <= |Live(s)|)
      && (g.inFlight >= 0 <==> |Late(s)| <= Count(s.phases, QueuedGroup) + |Live(s)|)
      && g.queuedNow >= 0 && g.succeededNow >= 0 && g.failedNow >= 0 && g.stuckNow >= 0
  {
    hide Count, Members, Hands, Live, Late, QueueOk, ReaperOk, Apply;
    RunsKeepInv(steps, limits);
    ReapedAreLiveOrLate(After(steps));
  }

  /** Only a worker's last step finishes a job. */
  lemma {:induction false} DoneWasCounted(steps: seq<Step>, limits: Limits, id: string) returns (k: nat)
    requires IsRun(steps, limits) && id in After(steps).phases && After(steps).phases[id].Done?
    ensures k < |steps| && steps[k] == CountDone(id)
  {
    hide Hands;
    var n := |steps| - 1;
    var before := After(steps[..n]);
    if steps[n] == CountDone(id) {
      k := n;
    } else {
      StepMovesOne(before, steps[n], limits, id);
      k := DoneWasCounted(steps[..n], limits, id);
    }
  }

  lemma StepMovesOne(s: State, step: Step, limits: Limits, id: string)
    requires Enabled(s, step, limits) && step != CountDone(id)
    requires id in Apply(s, step).phases && Apply(s, step).phases[id].Done?
    ensures id in s.phases && s.phases[id].Done?
  {
    hide Hands;
  }

  /** As long as the workers finish no job that the reaper has counted or will count, no gauge is ever negative. */
  lemma NoLateFinishNoNegativeGauge(steps: seq<Step>, limits: Limits)
    requires IsRun(steps, limits)
    requires forall k :: 0 <= k < |steps| && steps[k].CountDone? ==> steps[k].id !in After(steps).reaped
    ensures var g := After(steps).gauges;
      g.queuedNow >= 0 && g.runningNow >= 0 && g.succeededNow >= 0 && g.failedNow >= 0 && g.stuckNow >= 0 && g.inFlight >= 0
  {
    hide Count, Members, Hands, Live, Apply, Enabled, After, IsRun;
    var s := After(steps);
    GaugesNonNegativeIff(steps, limits);
    if id :| id in Late(s) {
      var k := DoneWasCounted(steps, limits, id);
    }
    assert Late(s) == {};
  }

  /** The store never shows a finished job as queued or running, nor an unstarted or refused one as anything but queued. */
  lemma StoreFollowsPhases(steps: seq<Step>, limits: Limits, id: string)
    requires IsRun(steps, limits) && id in After(steps).phases
    ensures var s := After(steps);
      && id in s.statuses
      && (s.statuses[id].Queued? <==> !HasBegun(s.phases[id]))
      && (s.statuses[id].Running? ==> s.phases[id].Executing? && id !in s.reaped)
      && (s.statuses[id].Completed? ==> id in s.received && !s.phases[id].Executing?)
      && (id in s.reaped ==> id in s.received)
  {
    hide Hands, Distinct, GaugesOk, Apply;
    RunsKeepInv(steps, limits);
  }

  // ---- A reaped job that finishes after all ----

  lemma Extend(steps: seq<Step>, step: Step, limits: Limits)
    requires IsRun(steps, limits) && Enabled(After(steps), step, limits)
    ensures IsRun(steps + [step], limits) && After(steps + [step]) == Apply(After(steps), step)
  {}

  lemma EmptyRun(limits: Limits)
    ensures IsRun([], limits) && After([]) == Initial
  {}

  lemma HandsOfOne(id: string, p: Phase)
    requires !InHand(p)
    ensures Hands(map[id := p]) == {}
  {}

  const Submission := [Insert("j"), CountSubmit("j"), Send("j")]
  const Start := [Receive, Dispatch("j"), Begin("j", 0)]
  const Reap := [Tick(["j"]), MarkStuck, CountStuck]
  const Finish := [Report("j", true), CountDone("j")]

  lemma SubmissionRuns(limits: Limits)
    requires limits.capacity > 0
    ensures IsRun(Submission, limits)
    ensures After(Submission) == State(map["j" := InChannel], map["j" := Queued], ["j"], ["j"], [],
                                       Gauges(1, 0, 0, 1, 0, 0, 0, 0, 1), [], false, [])
  {
    hide After, IsRun, Hands;
    EmptyRun(limits);
    Extend([], Submission[0], limits);
    Extend([] + [Submission[0]], Submission[1], limits);
    Extend([] + [Submission[0]] + [Submission[1]], Submission[2], limits);
    assert Submission == [] + [Submission[0]] + [Submission[1]] + [Submission[2]];
  }

  lemma StartRuns(limits: Limits)
    requires limits.capacity > 0 && limits.workers > 0
    ensures IsRun(Submission + Start, limits)
    ensures After(Submission + Start) == State(map["j" := Executing], map["j" := Running(0)], [], ["j"], ["j"],
                                               Gauges(1, 0, 0, 0, 1, 0, 0, 0, 1), [], false, [])
  {
    hide After, IsRun, Hands;
    SubmissionRuns(limits);
    HandsOfOne("j", InChannel);
    Extend(Submission, Start[0], limits);
    Extend(Submission + [Start[0]], Start[1], limits);
    Extend(Submission + [Start[0]] + [Start[1]], Start[2], limits);
    assert Submission + Start == Submission + [Start[0]] + [Start[1]] + [Start[2]];
  }

  lemma ReapRuns(limits: Limits)
    requires limits.capacity > 0 && limits.workers > 0
    ensures IsRun(Submission + Start + Reap, limits)
    ensures After(Submission + Start + Reap) == State(map["j" := Executing], map["j" := Failed("")], [], ["j"], ["j"],
                                        Gauges(1, 0, 1, 0, 0, 0, 0, 1, 0), [], false, ["j"])
  {
    hide After, IsRun, Hands;
    StartRuns(limits);
    var life := Submission + Start;
    Extend(life, Reap[0], limits);
    Extend(life + [Reap[0]], Reap[1], limits);
    Extend(life + [Reap[0]] + [Reap[1]], Reap[2], limits);
    assert life + Reap == life + [Reap[0]] + [Reap[1]] + [Reap[2]];
  }

  /**
   * The reaper and a slow worker both end the same job: it is counted as failed
   * and as completed, its final state `Failed` is overwritten, and two gauges go
   * below zero.
   */
  lemma ReapedJobsCanFinish(limits: Limits)
    requires limits.capacity > 0 && limits.workers > 0
    ensures IsRun(Submission + Start + Reap, limits) && After(Submission + Start + Reap).statuses == map["j" := Failed("")]
    ensures IsRun(Submission + Start + Reap + Finish, limits)
    ensures var s := After(Submission + Start + Reap + Finish);
      && s.statuses == map["j" := Completed("")]
      && s.gauges == Gauges(1, 1, 1, 0, -1, 1, 0, 1, -1)
  {
    hide After, IsRun, Hands;
    ReapRuns(limits);
    var life := Submission + Start;
    Extend(life + Reap, Finish[0], limits);
    Extend(life + Reap + [Finish[0]], Finish[1], limits);
    assert life + Reap + Finish == life + Reap + [Finish[0]] + [Finish[1]];
  }

  // ---- Draining ----

  /** Worker steps still ahead of a job in this phase. */
  function StepsLeft(p: Phase): nat {
    match p
    case InChannel => 5
    case Taken => 4
    case Dispatched => 3
    case Executing => 2
    case Reported(_) => 1
    case _ => 0
  }

  /** Worker steps still ahead of these jobs. */
  function Rank(phases: map<string, Phase>, ids: seq<string>): nat {
    if ids == [] then 0
    else
      var last := ids[|ids| - 1];
      Rank(phases, ids[..|ids| - 1]) + (if last in phases then StepsLeft(phases[last]) else 0)
  }

  lemma {:induction false} RankAfterMove(phases: map<string, Phase>, ids: seq<string>, id: string, p: Phase)
    requires Distinct(ids) && id in phases
    ensures Rank(phases[id := p], ids) ==
      Rank(phases, ids) + (if id in ids then StepsLeft(p) - StepsLeft(phases[id]) else 0)
  {
    if ids != [] {
      var rest, last := ids[..|ids| - 1], ids[|ids| - 1];
      assert ids == rest + [last] && last !in rest;
      RankAfterMove(phases, rest, id, p);
    }
  }

  lemma {:induction false} RankZeroIff(phases: map<string, Phase>, ids: seq<string>)
    requires forall id :: id in ids ==> id in phases
    ensures Rank(phases, ids) == 0 <==> forall id :: id in ids ==> StepsLeft(phases[id]) == 0
  {
    if ids != [] {
      var rest, last := ids[..|ids| - 1], ids[|ids| - 1];
      assert ids == rest + [last];
      RankZeroIff(phases, rest);
    }
  }

  /** A worker step moves one accepted job one step on. */
  lemma WorkerStepMoves(s: State, step: Step, limits: Limits) returns (id: string)
    requires QueueOk(s, limits) && Enabled(s, step, limits) && IsWorkerStep(step)
    ensures var s' := Apply(s, step);
      && id in s.accepted && id in s.phases && id in s'.phases
      && s'.phases == s.phases[id := s'.phases[id]]
      && StepsLeft(s'.phases[id]) == StepsLeft(s.phases[id]) - 1
  {
    hide Hands, Distinct;
    id := Moved(s, step).value;
    if step.Receive? {
      assert s.channel[0] in s.channel;
    }
    assert id in s.channel || id in s.received;
  }

  /** Each worker step brings the accepted jobs one step nearer their end; the reaper neither helps nor hinders. */
  lemma WorkerStepLowersRank(s: State, step: Step, limits: Limits)
    requires Inv(s, limits) && Enabled(s, step, limits) && !IsHandlerStep(step)
    ensures var s' := Apply(s, step);
      && s'.accepted == s.accepted
      && Rank(s'.phases, s'.accepted) == Rank(s.phases, s.accepted) - (if IsWorkerStep(step) then 1 else 0)
  {
    hide GaugesOk, ReaperOk, Hands, Distinct, Rank, StepsLeft, Enabled;
    if IsWorkerStep(step) {
      var id := WorkerStepMoves(s, step, limits);
      RankAfterMove(s.phases, s.accepted, id, Apply(s, step).phases[id]);
    }
  }

  /** While an accepted job is unfinished some worker can take a step. */
  lemma WorkersCanProceed(s: State, limits: Limits)
    requires Inv(s, limits) && limits.workers > 0 && Rank(s.phases, s.accepted) > 0
    ensures exists step :: IsWorkerStep(step) && Enabled(s, step, limits)
  {
    hide GaugesOk, ReaperOk, Distinct, Rank;
    forall id | id in s.accepted
      ensures id in s.phases
    {
      assert id in s.received || id in s.channel;
    }
    RankZeroIff(s.phases, s.accepted);
    if id :| id in s.phases && InHand(s.phases[id]) {
      var step := match s.phases[id]
        case Taken => Dispatch(id)
        case Dispatched => Begin(id, 0)
        case Executing => Report(id, true)
        case _ => CountDone(id);
      assert IsWorkerStep(step) && Enabled(s, step, limits);
    } else {
      assert Hands(s.phases) == {};
      var id :| id in s.accepted && StepsLeft(s.phases[id]) != 0;
      assert In(s, id, InChannel);
      assert id in s.channel;
      assert IsWorkerStep(Receive) && Enabled(s, Receive, limits);
    }
  }

  /** No worker has anything left to do. */
  ghost predicate Idle(s: State, limits: Limits) {
    forall step :: IsWorkerStep(step) ==> !Enabled(s, step, limits)
  }

  ghost predicate AllFinished(s: State) {
    forall id :: id in s.accepted ==>
      id in s.phases && s.phases[id].Done? && id in s.statuses && (s.statuses[id].Completed? || s.statuses[id].Failed?)
  }

  lemma AcceptedPhases(s: State, limits: Limits, id: string)
    requires QueueOk(s, limits) && id in s.accepted
    ensures id in s.phases && (InHand(s.phases[id]) || s.phases[id].Done? || (s.phases[id].InChannel? && id in s.channel))
  {}

  lemma FinishedWhenRankIsZero(s: State, limits: Limits)
    requires Inv(s, limits) && Rank(s.phases, s.accepted) == 0
    ensures AllFinished(s)
  {
    hide GaugesOk, Hands, Distinct, Rank, QueueOk;
    forall id | id in s.accepted
      ensures id in s.phases
    {
      AcceptedPhases(s, limits, id);
    }
    RankZeroIff(s.phases, s.accepted);
    forall id | id in s.accepted
      ensures s.phases[id].Done? && id in s.statuses && (s.statuses[id].Completed? || s.statuses[id].Failed?)
    {
      AcceptedPhases(s, limits, id);
      assert Agrees(s.phases[id], s.statuses[id]);
    }
  }

  lemma IdleIffRankIsZero(s: State, limits: Limits)
    requires Inv(s, limits) && limits.workers > 0
    ensures Idle(s, limits) <==> Rank(s.phases, s.accepted) == 0
  {
    hide Rank, Inv, Enabled;
    if Rank(s.phases, s.accepted) > 0 {
      WorkersCanProceed(s, limits);
    } else {
      forall step | IsWorkerStep(step)
        ensures !Enabled(s, step, limits)
      {
        if Enabled(s, step, limits) {
          WorkerStepLowersRank(s, step, limits);
        }
      }
    }
  }

  function WorkerSteps(steps: seq<Step>): nat {
    if steps == [] then 0
    else WorkerSteps(steps[..|steps| - 1]) + (if IsWorkerStep(steps[|steps| - 1]) then 1 else 0)
  }

  lemma {:induction false} DrainingLowersRank(run: seq<Step>, more: seq<Step>, limits: Limits)
    requires IsRun(run + more, limits) && forall k :: 0 <= k < |more| ==> !IsHandlerStep(more[k])
    ensures IsRun(run, limits)
    ensures var s, t := After(run), After(run + more);
      t.accepted == s.accepted && Rank(t.phases, t.accepted) == Rank(s.phases, s.accepted) - WorkerSteps(more)
  {
    hide Inv, Enabled, Apply, Rank, IsWorkerStep;
    if more == [] {
      assert run + more == run;
    } else {
      var init, last := more[..|more| - 1], more[|more| - 1];
      assert (run + more)[..|run + more| - 1] == run + init;
      DrainingLowersRank(run, init, limits);
      RunsKeepInv(run + init, limits);
      WorkerStepLowersRank(After(run + init), last, limits);
    }
  }

  /**
   * Once no more requests arrive: the workers take at most as many steps as the
   * accepted jobs have left, they can stop exactly when they have taken them
   * all, and then every accepted job is finished and terminal in the store.
   */
  lemma DrainingFinishesEveryJob(run: seq<Step>, more: seq<Step>, limits: Limits)
    requires IsRun(run + more, limits) && forall k :: 0 <= k < |more| ==> !IsHandlerStep(more[k])
    requires limits.workers > 0
    ensures var s, t := After(run), After(run + more);
      && t.accepted == s.accepted
      && WorkerSteps(more) <= Rank(s.phases, s.accepted)
      && (Idle(t, limits) <==> WorkerSteps(more) == Rank(s.phases, s.accepted))
      && (Idle(t, limits) ==> AllFinished(t))
  {
    hide Inv, IsRun, After, Rank, WorkerSteps, Idle, AllFinished;
    DrainingLowersRank(run, more, limits);
    RunsKeepInv(run + more, limits);
    IdleIffRankIsZero(After(run + more), limits);
    if Idle(After(run + more), limits) {
      FinishedWhenRankIsZero(After(run + more), limits);
    }
  }
}

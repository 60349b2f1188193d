/**
 The queue protocol of queue.go as a step machine: any number of `Do` callers, one worker,
 any number of `Shutdown` callers and metric readers, interleaved one atomic step at a time.

 The read-write lock is the rule that a writer excludes everyone and readers exclude
 writers; a `select` with several ready cases may take any of them, and takes `default`
 only when no case is ready. Each `Do` call makes at most one job, named by the call.
 A context that has ended stays ended.
 */
module WorkQueue {
  import opened Options
  import opened Client

  type Id = nat

  datatype Result = Executed(answer: Answer) | CtxError | QueueClosed | Busy

  datatype CallPc =
    | Entered                          // about to test ctx.Err()
    | WantLock                         // about to take the read lock
    | Locked                           // holds the read lock, about to read closed
    | Selecting                        // holds the read lock, saw closed == false
    | Unlocking(leave: Option<Result>) // holds the read lock; enqueued if None
    | Waiting                          // waits for its result or its context
    | Returned(result: Result)
    | Counted(result: Result)          // exec has updated the client metrics

  datatype Call = Call(op: Op, metered: bool, pc: CallPc)

  datatype WorkerPc =
    | AtSelect
    | Dequeued(job: Id)
    | Checking(job: Id)                // holds the read lock, about to read closed
    | Checked(job: Id, saw: bool)      // holds the read lock
    | Accepted(job: Id)                // about to test the job's context
    | Executing(job: Id)
    | Finishing(job: Id, result: Result, draining: bool)
    | Draining
    | Leaving                          // run has returned, workerDone still open
    | Stopped

  /** The body that `stopOnce` runs, by the one Shutdown call that got to run it. */
  datatype StopPhase =
    | NotStopping
    | WantWrite(owner: Id)
    | HasWrite(owner: Id)
    | FlagSet(owner: Id)
    | DoneShut(owner: Id)
    | StopComplete

  datatype StopPc = Begun | InOnce | AwaitWorker | StopReturned(ok: bool)

  datatype Reading = LoadedBusy(b: nat) | LoadedBoth(b: nat, r: nat)

  datatype Finish = Finish(id: Id, result: Result, delivered: bool)

  datatype State = State(
    capacity: nat,
    calls: map<Id, Call>, ended: set<Id>,
    buffer: seq<Id>,            // q.jobs
    results: map<Id, Result>,   // the result channels that hold a value
    closed: bool, doneShut: bool, workerDone: bool,
    worker: WorkerPc,
    phase: StopPhase, stops: map<Id, StopPc>, stopsEnded: set<Id>,
    requests: nat, busy: nat, recorded: nat, readings: map<Id, Reading>,
    // history
    accepted: seq<Id>, started: seq<Id>, finished: seq<Finish>)

  /** Steps of a `Do` caller, wrapped in `exec` when metered. */
  datatype CallerAction =
    | Arrive(id: Id, op: Op, metered: bool)
    | EndContext(id: Id)
    | CheckContext(id: Id)
    | LockRead(id: Id)
    | ReadClosed(id: Id)
    | Enqueue(id: Id)
    | SelectDone(id: Id)
    | SelectDefault(id: Id)
    | UnlockRead(id: Id)
    | Receive(id: Id)
    | GiveUp(id: Id)
    | Account(id: Id)

  /** Steps of `run`, `rejectPendingJobs`, `runJob` and `finishJob`. */
  datatype WorkerAction =
    | TakeDone
    | TakeJob
    | WorkerLock
    | WorkerRead
    | WorkerUnlock
    | TestContext
    | FinishExecute(answer: Answer)
    | SendResult
    | SkipResult
    | DrainJob
    | DrainEmpty
    | CloseWorkerDone

  /** Steps of `Shutdown`. */
  datatype StopAction =
    | CallStop(id: Id)
    | EndStopContext(id: Id)
    | EnterOnce(id: Id)
    | LockWrite
    | SetClosed
    | CloseDone
    | UnlockWrite
    | PassOnce(id: Id)
    | StopOk(id: Id)
    | StopErr(id: Id)

  /** The two loads of `Metrics` that its subtraction depends on. */
  datatype MeterAction =
    | LoadBusy(id: Id)
    | LoadRequests(id: Id)

  datatype Action =
    | Caller(call: CallerAction)
    | Worker(work: WorkerAction)
    | Stop(stop: StopAction)
    | Meter(meter: MeterAction)

  function Init(capacity: nat): State {
    State(capacity, map[], {}, [], map[], false, false, false, AtSelect, NotStopping, map[], {},
          0, 0, 0, map[], [], [], [])
  }

  // ---- The lock ----

  predicate HoldsRead(pc: CallPc) {
    pc.Locked? || pc.Selecting? || pc.Unlocking?
  }

  predicate WorkerReads(w: WorkerPc) {
    w.Checking? || w.Checked?
  }

  predicate WriteHeld(s: State) {
    s.phase.HasWrite? || s.phase.FlagSet? || s.phase.DoneShut?
  }

  ghost predicate ReadFree(s: State) {
    !WorkerReads(s.worker) && forall id :: id in s.calls ==> !HoldsRead(s.calls[id].pc)
  }

  // ---- Steps ----

  predicate AtPc(s: State, id: Id, pc: CallPc) {
    id in s.calls && s.calls[id].pc == pc
  }

  predicate StopAt(s: State, id: Id, pc: StopPc) {
    id in s.stops && s.stops[id] == pc
  }

  predicate CallerEnabled(s: State, a: CallerAction) {
    match a
    case Arrive(id, _, _) => id !in s.calls
    case EndContext(id) => true
    case CheckContext(id) => AtPc(s, id, Entered)
    case LockRead(id) => AtPc(s, id, WantLock) && !WriteHeld(s)
    case ReadClosed(id) => AtPc(s, id, Locked)
    case Enqueue(id) => AtPc(s, id, Selecting) && |s.buffer| < s.capacity
    case SelectDone(id) => AtPc(s, id, Selecting) && id in s.ended
    case SelectDefault(id) => AtPc(s, id, Selecting) && |s.buffer| >= s.capacity && id !in s.ended
    case UnlockRead(id) => id in s.calls && s.calls[id].pc.Unlocking?
    case Receive(id) => AtPc(s, id, Waiting) && id in s.results
    case GiveUp(id) => AtPc(s, id, Waiting) && id in s.ended
    case Account(id) => id in s.calls && s.calls[id].metered && s.calls[id].pc.Returned?
  }

  predicate WorkerEnabled(s: State, a: WorkerAction) {
    match a
    case TakeDone => s.worker.AtSelect? && s.doneShut
    case TakeJob => s.worker.AtSelect? && s.buffer != []
    case WorkerLock => s.worker.Dequeued? && !WriteHeld(s)
    case WorkerRead => s.worker.Checking?
    case WorkerUnlock => s.worker.Checked?
    case TestContext => s.worker.Accepted?
    case FinishExecute(_) => s.worker.Executing?
    case SendResult => s.worker.Finishing? && s.worker.job !in s.results
    case SkipResult => s.worker.Finishing? && s.worker.job in s.ended
    case DrainJob => s.worker.Draining? && s.buffer != []
    case DrainEmpty => s.worker.Draining? && s.buffer == []
    case CloseWorkerDone => s.worker.Leaving?
  }

  ghost predicate StopEnabled(s: State, a: StopAction) {
    match a
    case CallStop(id) => id !in s.stops
    case EndStopContext(id) => true
    case EnterOnce(id) => StopAt(s, id, Begun) && s.phase.NotStopping?
    case LockWrite => s.phase.WantWrite? && ReadFree(s)
    case SetClosed => s.phase.HasWrite?
    case CloseDone => s.phase.FlagSet?
    case UnlockWrite => s.phase.DoneShut?
    case PassOnce(id) => StopAt(s, id, Begun) && s.phase.StopComplete?
    case StopOk(id) => StopAt(s, id, AwaitWorker) && s.workerDone
    case StopErr(id) => StopAt(s, id, AwaitWorker) && id in s.stopsEnded
  }

  predicate MeterEnabled(s: State, a: MeterAction) {
    match a
    case LoadBusy(id) => id !in s.readings
    case LoadRequests(id) => id in s.readings && s.readings[id].LoadedBusy?
  }

  ghost predicate Enabled(s: State, a: Action) {
    match a
    case Caller(c) => CallerEnabled(s, c)
    case Worker(w) => WorkerEnabled(s, w)
    case Stop(t) => StopEnabled(s, t)
    case Meter(m) => MeterEnabled(s, m)
  }

  function MoveCall(s: State, id: Id, pc: CallPc): State
    requires id in s.calls
  {
    s.(calls := s.calls[id := s.calls[id].(pc := pc)])
  }

  function CallerStep(s: State, a: CallerAction): State
    requires CallerEnabled(s, a)
  {
    match a
    case Arrive(id, op, metered) =>
      s.(calls := s.calls[id := Call(op, metered, Entered)], requests := s.requests + if metered then 1 else 0)
    case EndContext(id) => s.(ended := s.ended + {id})
    case CheckContext(id) => MoveCall(s, id, if id in s.ended then Returned(CtxError) else WantLock)
    case LockRead(id) => MoveCall(s, id, Locked)
    case ReadClosed(id) => MoveCall(s, id, if s.closed then Unlocking(Some(QueueClosed)) else Selecting)
    case Enqueue(id) => MoveCall(s, id, Unlocking(None)).(buffer := s.buffer + [id], accepted := s.accepted + [id])
    case SelectDone(id) => MoveCall(s, id, Unlocking(Some(CtxError)))
    case SelectDefault(id) => MoveCall(s, id, Unlocking(Some(Busy)))
    case UnlockRead(id) =>
      var leave := s.calls[id].pc.leave;
      MoveCall(s, id, if leave.None? then Waiting else Returned(leave.value))
    case Receive(id) => MoveCall(s, id, Returned(s.results[id])).(results := s.results - {id})
    case GiveUp(id) => MoveCall(s, id, Returned(CtxError))
    case Account(id) =>
      var r := s.calls[id].pc.result;
      MoveCall(s, id, Counted(r)).(busy := s.busy + (if r.Busy? then 1 else 0),
                                   recorded := s.recorded + (if r.Busy? then 0 else 1))
  }

  /** `finishJob`, once its select has chosen. */
  function EndJob(s: State, delivered: bool): State
    requires s.worker.Finishing?
  {
    var w := s.worker;
    s.(results := if delivered then s.results[w.job := w.result] else s.results,
       finished := s.finished + [Finish(w.job, w.result, delivered)],
       worker := if w.draining then Draining else AtSelect)
  }

  function WorkerStep(s: State, a: WorkerAction): State
    requires WorkerEnabled(s, a)
  {
    match a
    case TakeDone => s.(worker := Draining)
    case TakeJob => s.(worker := Dequeued(s.buffer[0]), buffer := s.buffer[1..])
    case WorkerLock => s.(worker := Checking(s.worker.job))
    case WorkerRead => s.(worker := Checked(s.worker.job, s.closed))
    case WorkerUnlock =>
      s.(worker := if s.worker.saw then Finishing(s.worker.job, QueueClosed, true) else Accepted(s.worker.job))
    case TestContext =>
      var job := s.worker.job;
      if job in s.ended then s.(worker := Finishing(job, CtxError, false))
      else s.(worker := Executing(job), started := s.started + [job])
    case FinishExecute(answer) => s.(worker := Finishing(s.worker.job, Executed(answer), false))
    case SendResult => EndJob(s, true)
    case SkipResult => EndJob(s, false)
    case DrainJob => s.(worker := Finishing(s.buffer[0], QueueClosed, true), buffer := s.buffer[1..])
    case DrainEmpty => s.(worker := Leaving)
    case CloseWorkerDone => s.(worker := Stopped, workerDone := true)
  }

  ghost function StopStep(s: State, a: StopAction): State
    requires StopEnabled(s, a)
  {
    match a
    case CallStop(id) => s.(stops := s.stops[id := Begun])
    case EndStopContext(id) => s.(stopsEnded := s.stopsEnded + {id})
    case EnterOnce(id) => s.(stops := s.stops[id := InOnce], phase := WantWrite(id))
    case LockWrite => s.(phase := HasWrite(s.phase.owner))
    case SetClosed => s.(phase := FlagSet(s.phase.owner), closed := true)
    case CloseDone => s.(phase := DoneShut(s.phase.owner), doneShut := true)
    case UnlockWrite => s.(phase := StopComplete, stops := s.stops[s.phase.owner := AwaitWorker])
    case PassOnce(id) => s.(stops := s.stops[id := AwaitWorker])
    case StopOk(id) => s.(stops := s.stops[id := StopReturned(true)])
    case StopErr(id) => s.(stops := s.stops[id := StopReturned(false)])
  }

  function MeterStep(s: State, a: MeterAction): State
    requires MeterEnabled(s, a)
  {
    match a
    case LoadBusy(id) => s.(readings := s.readings[id := LoadedBusy(s.busy)])
    case LoadRequests(id) => s.(readings := s.readings[id := LoadedBoth(s.readings[id].b, s.requests)])
  }

  ghost function Step(s: State, a: Action): State
    requires Enabled(s, a)
  {
    match a
    case Caller(c) => CallerStep(s, c)
    case Worker(w) => WorkerStep(s, w)
    case Stop(t) => StopStep(s, t)
    case Meter(m) => MeterStep(s, m)
  }

  ghost predicate Legal(s: State, actions: seq<Action>)
    decreases |actions|
  {
    actions == [] || (Enabled(s, actions[0]) && Legal(Step(s, actions[0]), actions[1..]))
  }

  ghost function Run(s: State, actions: seq<Action>): State
    requires Legal(s, actions)
    decreases |actions|
  {
    if actions == [] then s else Run(Step(s, actions[0]), actions[1..])
  }

  // ---- Invariants ----

  /** The flags follow the shutdown body, and the lock protocol keeps enqueues out of a closed queue. */
  ghost predicate Flags(s: State) {
    Gate(s) && Place(s)
  }

  ghost predicate Gate(s: State) {
    && s.closed == (s.phase.FlagSet? || s.phase.DoneShut? || s.phase.StopComplete?)
    && s.doneShut == (s.phase.DoneShut? || s.phase.StopComplete?)
    && (WriteHeld(s) ==> ReadFree(s))
    && (forall id :: id in s.calls && s.calls[id].pc.Selecting? ==> !s.closed)
  }

  /** Where the worker can be, given the flags and the buffer. */
  ghost predicate Place(s: State) {
    && 1 <= s.capacity && |s.buffer| <= s.capacity
    && s.workerDone == s.worker.Stopped?
    && (forall id :: id in s.stops && s.stops[id] == StopReturned(true) ==> s.workerDone)
    && (s.worker.Checked? && s.worker.saw ==> s.closed)
    && (AfterClose(s.worker) ==> s.closed)
    && (s.worker.Leaving? || s.worker.Stopped? ==> s.buffer == [])
    && (s.worker.Finishing? ==> s.worker.draining == s.worker.result.QueueClosed? && !s.worker.result.Busy?)
  }

  predicate AfterClose(w: WorkerPc) {
    w.Draining? || w.Leaving? || w.Stopped? || (w.Finishing? && w.draining)
  }

  function Ids(fs: seq<Finish>): seq<Id> {
    seq(|fs|, i requires 0 <= i < |fs| => fs[i].id)
  }

  function InHand(w: WorkerPc): seq<Id> {
    match w
    case AtSelect => []
    case Draining => []
    case Leaving => []
    case Stopped => []
    case _ => [w.job]
  }

  function ExecutedIds(fs: seq<Finish>): seq<Id> {
    if fs == [] then []
    else
      var n := |fs| - 1;
      ExecutedIds(fs[..n]) + if fs[n].result.Executed? then [fs[n].id] else []
  }

  function InExecution(w: WorkerPc): seq<Id> {
    if w.Executing? || (w.Finishing? && w.result.Executed?) then [w.job] else []
  }

  predicate Committed(pc: CallPc) {
    pc == Unlocking(None) || pc.Waiting? || pc.Returned? || pc.Counted?
  }

  predicate Enqueued(pc: CallPc) {
    pc == Unlocking(None) || pc.Waiting?
  }

  ghost predicate NoRepeats(ids: seq<Id>) {
    forall i, j :: 0 <= i < j < |ids| ==> ids[i] != ids[j]
  }

  /** Jobs are finished in the order they were accepted, and none is forgotten. */
  ghost predicate Order(s: State) {
    && s.accepted == Ids(s.finished) + InHand(s.worker) + s.buffer
    && s.started == StartedOf(s)
  }

  function StartedOf(s: State): seq<Id> {
    ExecutedIds(s.finished) + InExecution(s.worker)
  }

  /** A job is accepted once, by a call that has enqueued it. */
  ghost predicate AcceptedOnce(s: State) {
    && NoRepeats(s.accepted)
    && (forall id :: id in s.accepted ==> id in s.calls && Committed(s.calls[id].pc))
    && (forall id :: id in s.calls && Enqueued(s.calls[id].pc) ==> id in s.accepted)
  }

  ghost predicate FinishedAs(s: State, id: Id, r: Result) {
    exists k :: 0 <= k < |s.finished| && s.finished[k] == Finish(id, r, true)
  }

  /** What a caller that leaves with `r` can rely on. */
  ghost predicate Honest(s: State, id: Id, r: Result) {
    match r
    case Busy => id !in s.accepted
    case CtxError => id in s.ended
    case QueueClosed => s.closed && (id !in s.accepted || FinishedAs(s, id, QueueClosed))
    case Executed(_) => FinishedAs(s, id, r)
  }

  function Leaves(pc: CallPc): Option<Result> {
    match pc
    case Unlocking(leave) => leave
    case Returned(r) => Some(r)
    case Counted(r) => Some(r)
    case _ => None
  }

  ghost predicate AllHonest(s: State) {
    forall id :: id in s.calls && Leaves(s.calls[id].pc).Some? ==> Honest(s, id, Leaves(s.calls[id].pc).value)
  }

  /** Every result a caller returns, or can still receive, is its own job's. */
  ghost predicate Outcomes(s: State) {
    && AllHonest(s)
    && (forall id :: id in s.results ==> FinishedAs(s, id, s.results[id]))
    && (forall k :: 0 <= k < |s.finished| ==> FinishKept(s, s.finished[k]))
    && (s.worker.Finishing? && s.worker.result.CtxError? ==> s.worker.job in s.ended)
  }

  ghost predicate FinishKept(s: State, f: Finish) {
    && !f.result.Busy?
    && (f.result.CtxError? ==> f.id in s.ended)
    && (f.result.QueueClosed? ==> s.closed)
    && (!f.delivered ==> f.id in s.ended)
    && (f.delivered && f.id in s.calls && Enqueued(s.calls[f.id].pc) ==>
          f.id in s.results && s.results[f.id] == f.result)
  }

  ghost predicate Inv(s: State) {
    Flags(s) && Order(s) && AcceptedOnce(s) && Outcomes(s)
  }

  lemma InitInv(capacity: nat)
    requires 1 <= capacity
    ensures Inv(Init(capacity))
  {
  }

  // ---- Steps keep the invariants: the worker ----

  lemma IdsSnoc(fs: seq<Finish>, f: Finish)
    ensures Ids(fs + [f]) == Ids(fs) + [f.id]
    ensures ExecutedIds(fs + [f]) == ExecutedIds(fs) + if f.result.Executed? then [f.id] else []
  {
    assert (fs + [f])[..|fs|] == fs;
  }

  // The jobs already finished, the one in hand and the buffered ones are different jobs.
  lemma Positions(s: State)
    requires Order(s)
    ensures |s.finished| <= |s.accepted|
    ensures forall k :: 0 <= k < |s.finished| ==> s.accepted[k] == s.finished[k].id
    ensures InHand(s.worker) != [] ==> |s.finished| < |s.accepted| && s.accepted[|s.finished|] == InHand(s.worker)[0]
  {
    assert forall k :: 0 <= k < |s.finished| ==> s.accepted[k] == Ids(s.finished)[k];
  }

  lemma BufferAccepted(s: State)
    requires Order(s) && s.buffer != []
    ensures s.buffer[0] in s.accepted
  {
    assert s.accepted[|s.accepted| - |s.buffer|] == s.buffer[0];
  }

  lemma WorkerFlags(s: State, a: WorkerAction)
    requires Flags(s) && WorkerEnabled(s, a)
    ensures Flags(WorkerStep(s, a))
  {
    WorkerGate(s, a);
    WorkerPlace(s, a);
  }

  lemma WorkerGate(s: State, a: WorkerAction)
    requires Gate(s) && WorkerEnabled(s, a)
    ensures Gate(WorkerStep(s, a))
  {
    WorkerUnderLock(s, a);
    GateKept(s, WorkerStep(s, a));
  }

  // The worker cannot take the read lock while it is held for writing.
  lemma WorkerUnderLock(s: State, a: WorkerAction)
    requires WorkerEnabled(s, a) && (WriteHeld(s) ==> !WorkerReads(s.worker))
    ensures var s' := WorkerStep(s, a);
            && s'.phase == s.phase && s'.closed == s.closed && s'.doneShut == s.doneShut && s'.calls == s.calls
            && (WriteHeld(s) ==> !WorkerReads(s'.worker))
  {
    match a
    case TakeDone =>
    case TakeJob =>
    case WorkerLock =>
    case WorkerRead =>
    case WorkerUnlock =>
    case TestContext =>
    case FinishExecute(_) =>
    case SendResult =>
    case SkipResult =>
    case DrainJob =>
    case DrainEmpty =>
    case CloseWorkerDone =>
  }

  lemma GateKept(s: State, s': State)
    requires Gate(s)
    requires s'.phase == s.phase && s'.closed == s.closed && s'.doneShut == s.doneShut && s'.calls == s.calls
    requires WriteHeld(s) ==> !WorkerReads(s'.worker)
    ensures Gate(s')
  {
  }

  lemma WorkerPlace(s: State, a: WorkerAction)
    requires Gate(s) && Place(s) && WorkerEnabled(s, a)
    ensures Place(WorkerStep(s, a))
  {
  }

  // Taking a job, finishing it and rejecting it move it along without reordering anything.
  lemma WorkerOrder(s: State, a: WorkerAction)
    requires Order(s) && WorkerEnabled(s, a)
    ensures Order(WorkerStep(s, a))
  {
    WorkerOrderAccepted(s, a);
    WorkerOrderStarted(s, a);
  }

  lemma WorkerOrderAccepted(s: State, a: WorkerAction)
    requires s.accepted == Ids(s.finished) + InHand(s.worker) + s.buffer && WorkerEnabled(s, a)
    ensures var s' := WorkerStep(s, a);
            s'.accepted == Ids(s'.finished) + InHand(s'.worker) + s'.buffer
  {
    if a.SendResult? || a.SkipResult? {
      EndJobOrder(s, a.SendResult?);
    } else if a.TakeJob? || a.DrainJob? {
      assert [s.buffer[0]] + s.buffer[1..] == s.buffer;
    }
  }

  lemma EndJobOrder(s: State, delivered: bool)
    requires s.worker.Finishing?
    ensures var s' := EndJob(s, delivered);
            && Ids(s'.finished) + InHand(s'.worker) == Ids(s.finished) + InHand(s.worker)
            && StartedOf(s') == StartedOf(s)
  {
    IdsSnoc(s.finished, Finish(s.worker.job, s.worker.result, delivered));
  }

  lemma WorkerOrderStarted(s: State, a: WorkerAction)
    requires s.started == StartedOf(s) && WorkerEnabled(s, a)
    ensures WorkerStep(s, a).started == StartedOf(WorkerStep(s, a))
  {
    if a.SendResult? || a.SkipResult? {
      EndJobOrder(s, a.SendResult?);
    }
  }

  lemma WorkerOutcomes(s: State, a: WorkerAction)
    requires Inv(s) && WorkerEnabled(s, a)
    ensures Outcomes(WorkerStep(s, a))
  {
    var s' := WorkerStep(s, a);
    WorkerHonest(s, a);
    WorkerResults(s, a);
    WorkerFinishes(s, a);
    match a {
      case TestContext =>
      case _ =>
    }
  }

  lemma WorkerHonest(s: State, a: WorkerAction)
    requires Outcomes(s) && WorkerEnabled(s, a)
    ensures AllHonest(WorkerStep(s, a))
  {
    WorkerLeavesCalls(s, a);
    HonestKept(s, WorkerStep(s, a));
  }

  lemma WorkerLeavesCalls(s: State, a: WorkerAction)
    requires WorkerEnabled(s, a)
    ensures CallsUntouched(s, WorkerStep(s, a))
    ensures !a.SendResult? ==> WorkerStep(s, a).results == s.results
  {
    match a
    case TakeDone =>
    case TakeJob =>
    case WorkerLock =>
    case WorkerRead =>
    case WorkerUnlock =>
    case TestContext =>
    case FinishExecute(_) =>
    case SendResult =>
    case SkipResult =>
    case DrainJob =>
    case DrainEmpty =>
    case CloseWorkerDone =>
  }

  ghost predicate CallsUntouched(s: State, s': State) {
    && s'.calls == s.calls && s'.accepted == s.accepted && s'.ended == s.ended && s'.closed == s.closed
    && s.finished <= s'.finished
  }

  lemma HonestKept(s: State, s': State)
    requires Outcomes(s) && CallsUntouched(s, s')
    ensures AllHonest(s')
  {
    FinishedGrows(s, s');
  }

  lemma WorkerResults(s: State, a: WorkerAction)
    requires Outcomes(s) && WorkerEnabled(s, a)
    ensures var s' := WorkerStep(s, a); forall id :: id in s'.results ==> FinishedAs(s', id, s'.results[id])
  {
    WorkerLeavesCalls(s, a);
    FinishedGrows(s, WorkerStep(s, a));
    if a.SendResult? {
      SentResult(s);
    }
  }

  lemma SentResult(s: State)
    requires s.worker.Finishing?
    ensures FinishedAs(EndJob(s, true), s.worker.job, s.worker.result)
  {
    assert EndJob(s, true).finished[|s.finished|] == Finish(s.worker.job, s.worker.result, true);
  }

  lemma WorkerFinishes(s: State, a: WorkerAction)
    requires Inv(s) && WorkerEnabled(s, a)
    ensures var s' := WorkerStep(s, a); forall k :: 0 <= k < |s'.finished| ==> FinishKept(s', s'.finished[k])
  {
    var s' := WorkerStep(s, a);
    Positions(s);
    forall k | 0 <= k < |s'.finished|
      ensures FinishKept(s', s'.finished[k])
    {
      if k < |s.finished| {
        assert FinishKept(s, s.finished[k]);
        WorkerFinishKept(s, a, s.finished[k]);
      }
    }
  }

  lemma WorkerFinishKept(s: State, a: WorkerAction, f: Finish)
    requires WorkerEnabled(s, a) && FinishKept(s, f)
    requires s.worker.Finishing? ==> f.id != s.worker.job
    ensures FinishKept(WorkerStep(s, a), f)
  {
  }

  lemma WorkerKeeps(s: State, a: WorkerAction)
    requires Inv(s) && WorkerEnabled(s, a)
    ensures Inv(WorkerStep(s, a))
  {
    WorkerFlags(s, a);
    WorkerOrder(s, a);
    WorkerOutcomes(s, a);
    assert AcceptedOnce(WorkerStep(s, a));
  }

  lemma FinishedGrows(s: State, s': State)
    requires s.finished <= s'.finished
    ensures forall id, r :: FinishedAs(s, id, r) ==> FinishedAs(s', id, r)
  {
    forall id, r | FinishedAs(s, id, r)
      ensures FinishedAs(s', id, r)
    {
      var k :| 0 <= k < |s.finished| && s.finished[k] == Finish(id, r, true);
      assert s'.finished[k] == Finish(id, r, true);
    }
  }

  // ---- The callers' steps ----

  lemma CallerFlags(s: State, a: CallerAction)
    requires Flags(s) && CallerEnabled(s, a)
    ensures Flags(CallerStep(s, a))
  {
  }

  lemma CallerOrder(s: State, a: CallerAction)
    requires Order(s) && CallerEnabled(s, a)
    ensures Order(CallerStep(s, a))
  {
  }

  // A call that is still choosing has not been accepted, so its job is new to the queue.
  lemma CallerAcceptedOnce(s: State, a: CallerAction)
    requires AcceptedOnce(s) && CallerEnabled(s, a)
    ensures AcceptedOnce(CallerStep(s, a))
  {
    if a.Enqueue? {
      assert a.id !in s.accepted;
    } else {
      assert CallerStep(s, a).accepted == s.accepted;
    }
  }

  lemma CallerOutcomes(s: State, a: CallerAction)
    requires Inv(s) && CallerEnabled(s, a)
    ensures Outcomes(CallerStep(s, a))
  {
    var s' := CallerStep(s, a);
    FinishedGrows(s, s');
    Positions(s);
    forall id | id in s'.calls && Leaves(s'.calls[id].pc).Some?
      ensures Honest(s', id, Leaves(s'.calls[id].pc).value)
    {
      CallerHonest(s, a, id);
    }
    forall k | 0 <= k < |s'.finished|
      ensures FinishKept(s', s'.finished[k])
    {
      assert FinishKept(s, s.finished[k]) && s.finished[k].id in s.accepted;
      CallerFinishKept(s, a, s.finished[k]);
    }
  }

  lemma CallerFinishKept(s: State, a: CallerAction, f: Finish)
    requires CallerEnabled(s, a) && FinishKept(s, f)
    requires f.id in s.calls && Committed(s.calls[f.id].pc)
    ensures FinishKept(CallerStep(s, a), f)
  {
  }

  lemma CallerHonest(s: State, a: CallerAction, id: Id)
    requires Inv(s) && CallerEnabled(s, a)
    requires id in CallerStep(s, a).calls && Leaves(CallerStep(s, a).calls[id].pc).Some?
    ensures Honest(CallerStep(s, a), id, Leaves(CallerStep(s, a).calls[id].pc).value)
  {
    var s' := CallerStep(s, a);
    CallerHistory(s, a);
    FinishedGrows(s, s');
    if id in s.calls && Leaves(s.calls[id].pc) == Leaves(s'.calls[id].pc) {
      assert Honest(s, id, Leaves(s.calls[id].pc).value);
    } else {
      NewlyLeaving(s, a, id);
    }
  }

  lemma CallerHistory(s: State, a: CallerAction)
    requires CallerEnabled(s, a)
    ensures var s' := CallerStep(s, a);
            && s'.finished == s.finished && s'.closed == s.closed && s.ended <= s'.ended
            && s'.accepted == s.accepted + (if a.Enqueue? then [a.id] else [])
            && (a.Enqueue? ==> Leaves(s'.calls[a.id].pc).None?)
  {
    match a
    case Arrive(_, _, _) =>
    case EndContext(_) =>
    case CheckContext(_) =>
    case LockRead(_) =>
    case ReadClosed(_) =>
    case Enqueue(_) =>
    case SelectDone(_) =>
    case SelectDefault(_) =>
    case UnlockRead(_) =>
    case Receive(_) =>
    case GiveUp(_) =>
    case Account(_) =>
  }

  // A call that starts to leave has just seen the reason.
  lemma NewlyLeaving(s: State, a: CallerAction, id: Id)
    requires AcceptedOnce(s) && Outcomes(s) && CallerEnabled(s, a)
    requires id in CallerStep(s, a).calls && Leaves(CallerStep(s, a).calls[id].pc).Some?
    requires id in s.calls ==> Leaves(s.calls[id].pc) != Leaves(CallerStep(s, a).calls[id].pc)
    ensures Honest(s, id, Leaves(CallerStep(s, a).calls[id].pc).value)
  {
    match a
    case Arrive(_, _, _) =>
    case EndContext(_) =>
    case CheckContext(_) =>
    case LockRead(_) =>
    case ReadClosed(_) =>
    case Enqueue(_) =>
    case SelectDone(_) =>
    case SelectDefault(_) =>
    case UnlockRead(_) =>
    case Receive(_) => Received(s, a.id);
    case GiveUp(_) =>
    case Account(_) =>
  }

  lemma Received(s: State, id: Id)
    requires Outcomes(s) && id in s.results
    ensures Honest(s, id, s.results[id])
  {
    var k :| 0 <= k < |s.finished| && s.finished[k] == Finish(id, s.results[id], true);
    assert FinishKept(s, s.finished[k]);
  }

  // ---- Shutdown ----

  // Nobody is choosing while the write lock is held, so the flag is set behind every enqueue.
  lemma StopFlags(s: State, a: StopAction)
    requires Flags(s) && StopEnabled(s, a)
    ensures Flags(StopStep(s, a))
  {
    if a.SetClosed? {
      assert ReadFree(s);
    }
  }

  lemma StopKeeps(s: State, a: StopAction)
    requires Inv(s) && StopEnabled(s, a)
    ensures Inv(StopStep(s, a))
  {
    var s' := StopStep(s, a);
    StopFlags(s, a);
    FinishedGrows(s, s');
    forall k | 0 <= k < |s'.finished|
      ensures FinishKept(s', s'.finished[k])
    {
      assert FinishKept(s, s.finished[k]);
    }
  }

  lemma CallerKeeps(s: State, a: CallerAction)
    requires Inv(s) && CallerEnabled(s, a)
    ensures Inv(CallerStep(s, a))
  {
    CallerFlags(s, a);
    CallerOrder(s, a);
    CallerAcceptedOnce(s, a);
    CallerOutcomes(s, a);
  }

  lemma MeterKeeps(s: State, a: MeterAction)
    requires Inv(s) && MeterEnabled(s, a)
    ensures Inv(MeterStep(s, a))
  {
    var s' := MeterStep(s, a);
    FinishedGrows(s, s');
    forall k | 0 <= k < |s'.finished|
      ensures FinishKept(s', s'.finished[k])
    {
      assert FinishKept(s, s.finished[k]);
    }
  }

  lemma StepKeeps(s: State, a: Action)
    requires Inv(s) && Enabled(s, a)
    ensures Inv(Step(s, a))
  {
    match a
    case Caller(c) => CallerKeeps(s, c);
    case Worker(w) => WorkerKeeps(s, w);
    case Stop(t) => StopKeeps(s, t);
    case Meter(m) => MeterKeeps(s, m);
  }

  // Every state of every run satisfies the invariant.
  lemma {:induction false} RunKeeps(s: State, actions: seq<Action>)
    requires Inv(s) && Legal(s, actions)
    ensures Inv(Run(s, actions))
    decreases |actions|
  {
    if actions != [] {
      StepKeeps(s, actions[0]);
      RunKeeps(Step(s, actions[0]), actions[1..]);
    }
  }

  // ---- No job is orphaned ----

  // Once the worker has stopped, the buffer is empty and every job ever accepted has been
  // finished exactly once, in the order of acceptance.
  lemma NoOrphanedJob(capacity: nat, actions: seq<Action>)
    requires 1 <= capacity && Legal(Init(capacity), actions)
    ensures var s := Run(Init(capacity), actions);
            s.workerDone ==> s.buffer == [] && Ids(s.finished) == s.accepted && NoRepeats(Ids(s.finished))
  {
    InitInv(capacity);
    RunKeeps(Init(capacity), actions);
    var s := Run(Init(capacity), actions);
    if s.workerDone {
      assert Ids(s.finished) + [] + [] == Ids(s.finished);
    }
  }

  // And nothing can change that: late callers are turned away, so the buffer stays empty forever.
  lemma {:induction false} StoppedForGood(s: State, actions: seq<Action>)
    requires Inv(s) && s.workerDone && Legal(s, actions)
    ensures var s' := Run(s, actions);
            && s'.workerDone && s'.buffer == []
            && s'.accepted == s.accepted && s'.started == s.started && s'.finished == s.finished
    decreases |actions|
  {
    if actions != [] {
      StepKeeps(s, actions[0]);
      StoppedStep(s, actions[0]);
      StoppedForGood(Step(s, actions[0]), actions[1..]);
    }
  }

  ghost predicate StaysStopped(s: State, s': State) {
    s'.workerDone && s'.accepted == s.accepted && s'.started == s.started && s'.finished == s.finished
  }

  lemma StoppedCaller(s: State, a: CallerAction)
    requires Flags(s) && s.workerDone && CallerEnabled(s, a)
    ensures StaysStopped(s, CallerStep(s, a))
  {
  }

  lemma StoppedStop(s: State, a: StopAction)
    requires s.workerDone && StopEnabled(s, a)
    ensures StaysStopped(s, StopStep(s, a))
  {
  }

  lemma StoppedWorker(s: State, a: WorkerAction)
    requires Flags(s) && s.workerDone
    ensures !WorkerEnabled(s, a)
  {
  }

  lemma StoppedStep(s: State, a: Action)
    requires Flags(s) && s.workerDone && Enabled(s, a)
    ensures StaysStopped(s, Step(s, a))
  {
    match a
    case Caller(c) => StoppedCaller(s, c);
    case Worker(w) => StoppedWorker(s, w);
    case Stop(t) => StoppedStop(s, t);
    case Meter(m) =>
  }

  // ---- Outcomes ----

  /** `p` lists, in increasing order, where the elements of `part` stand in `whole`. */
  ghost predicate StandsAt(part: seq<Id>, whole: seq<Id>, p: seq<nat>) {
    && |p| == |part|
    && (forall i :: 0 <= i < |p| ==> p[i] < |whole| && whole[p[i]] == part[i])
    && (forall i, j :: 0 <= i < j < |p| ==> p[i] < p[j])
  }

  function ExecutedAt(fs: seq<Finish>): seq<nat> {
    if fs == [] then []
    else
      var n := |fs| - 1;
      ExecutedAt(fs[..n]) + if fs[n].result.Executed? then [n] else []
  }

  lemma {:induction false} ExecutedStands(fs: seq<Finish>)
    ensures StandsAt(ExecutedIds(fs), Ids(fs), ExecutedAt(fs))
  {
    if fs != [] {
      var n := |fs| - 1;
      ExecutedStands(fs[..n]);
      assert Ids(fs)[..n] == Ids(fs[..n]);
      var p := ExecutedAt(fs[..n]);
      assert forall i :: 0 <= i < |p| ==> p[i] < n && Ids(fs)[p[i]] == Ids(fs[..n])[p[i]];
    }
  }

  // Jobs start in the order they were accepted, each at most once.
  lemma StartedInOrder(s: State) returns (p: seq<nat>)
    requires Order(s) && AcceptedOnce(s)
    ensures StandsAt(s.started, s.accepted, p) && NoRepeats(s.started)
  {
    ExecutedStands(s.finished);
    Positions(s);
    p := ExecutedAt(s.finished);
    var done := |s.finished|;
    assert forall i :: 0 <= i < |p| ==> p[i] < done && s.accepted[p[i]] == Ids(s.finished)[p[i]];
    if InExecution(s.worker) != [] {
      p := p + [done];
    }
    forall i, j | 0 <= i < j < |s.started|
      ensures s.started[i] != s.started[j]
    {
      assert p[i] < p[j];
    }
  }

  // The job in hand has not been finished yet.
  lemma HandNotFinished(s: State, k: nat)
    requires Order(s) && AcceptedOnce(s) && InHand(s.worker) != [] && k < |s.finished|
    ensures s.finished[k].id != InHand(s.worker)[0]
  {
    Positions(s);
    assert s.accepted[k] != s.accepted[|s.finished|];
  }

  // `finishJob` never blocks the worker: the job's channel of capacity one is still empty.
  lemma FinishNeverBlocks(s: State)
    requires Inv(s) && s.worker.Finishing?
    ensures WorkerEnabled(s, SendResult)
  {
    var job := s.worker.job;
    if job in s.results {
      var k :| 0 <= k < |s.finished| && s.finished[k] == Finish(job, s.results[job], true);
      HandNotFinished(s, k);
    }
  }

  // A finish entry is the only one of its job.
  lemma FinishedOnce(s: State, i: nat, j: nat)
    requires Order(s) && AcceptedOnce(s) && i < |s.finished| && j < |s.finished|
    requires s.finished[i].id == s.finished[j].id
    ensures i == j
  {
    Positions(s);
    assert s.accepted[i] == s.accepted[j];
  }

  lemma {:induction false} ExecutedIdsIn(fs: seq<Finish>, id: Id)
    ensures id in ExecutedIds(fs) <==> exists k :: 0 <= k < |fs| && fs[k].id == id && fs[k].result.Executed?
  {
    if fs != [] {
      var n := |fs| - 1;
      ExecutedIdsIn(fs[..n], id);
      if k :| 0 <= k < |fs| && fs[k].id == id && fs[k].result.Executed? {
        if k < n {
          assert fs[..n][k].id == id;
        }
      }
      if id in ExecutedIds(fs[..n]) {
        var k :| 0 <= k < n && fs[..n][k].id == id && fs[..n][k].result.Executed?;
        assert fs[k].id == id;
      }
    }
  }

  // A caller whose context never ends leaves with exactly its own job's outcome, or with a
  // rejection of a job that has not been executed.
  lemma CallerGetsItsOwn(s: State, id: Id)
    requires Inv(s) && id in s.calls && id !in s.ended && Leaves(s.calls[id].pc).Some?
    ensures match Leaves(s.calls[id].pc).value
            case CtxError => false
            case Busy => id !in s.accepted && id !in s.started
            case QueueClosed => s.closed && id !in s.started
            case Executed(answer) => FinishedAs(s, id, Executed(answer)) && id in s.started
  {
    var r := Leaves(s.calls[id].pc).value;
    assert Honest(s, id, r);
    if r.Executed? {
      var k :| 0 <= k < |s.finished| && s.finished[k] == Finish(id, r, true);
      ExecutedIdsIn(s.finished, id);
    } else if id !in s.accepted {
      NotAcceptedNotStarted(s, id);
    } else if r.QueueClosed? {
      RejectedNotStarted(s, id);
    }
  }

  lemma NotAcceptedNotStarted(s: State, id: Id)
    requires Order(s) && AcceptedOnce(s) && id !in s.accepted
    ensures id !in s.started
  {
    var p := StartedInOrder(s);
    forall i | 0 <= i < |s.started|
      ensures s.started[i] != id
    {
      assert s.accepted[p[i]] == s.started[i];
    }
  }

  lemma RejectedNotStarted(s: State, id: Id)
    requires Order(s) && AcceptedOnce(s) && FinishedAs(s, id, QueueClosed)
    ensures id !in s.started
  {
    var k :| 0 <= k < |s.finished| && s.finished[k] == Finish(id, QueueClosed, true);
    ExecutedIdsIn(s.finished, id);
    forall k' | 0 <= k' < |s.finished| && s.finished[k'].id == id
      ensures k' == k
    {
      FinishedOnce(s, k, k');
    }
    if InHand(s.worker) != [] {
      HandNotFinished(s, k);
    }
  }

  predicate HasLeft(s: State, id: Id) {
    id in s.calls && (s.calls[id].pc.Returned? || s.calls[id].pc.Counted?)
  }

  ghost predicate LeftAlike(s: State, s': State, id: Id) {
    HasLeft(s, id) ==> HasLeft(s', id) && Leaves(s'.calls[id].pc) == Leaves(s.calls[id].pc)
  }

  lemma LeftCaller(s: State, id: Id, a: CallerAction)
    requires CallerEnabled(s, a)
    ensures LeftAlike(s, CallerStep(s, a), id)
  {
  }

  lemma LeftWorker(s: State, id: Id, a: WorkerAction)
    requires WorkerEnabled(s, a)
    ensures LeftAlike(s, WorkerStep(s, a), id)
  {
    assert WorkerStep(s, a).calls == s.calls;
  }

  lemma LeftStop(s: State, id: Id, a: StopAction)
    requires StopEnabled(s, a)
    ensures LeftAlike(s, StopStep(s, a), id)
  {
    assert StopStep(s, a).calls == s.calls;
  }

  lemma LeftStep(s: State, id: Id, a: Action)
    requires Enabled(s, a)
    ensures LeftAlike(s, Step(s, a), id)
  {
    match a
    case Caller(c) => LeftCaller(s, id, c);
    case Worker(w) => LeftWorker(s, id, w);
    case Stop(t) => LeftStop(s, id, t);
    case Meter(m) =>
  }

  // A call that has left stays as it left.
  lemma {:induction false} LeftForGood(s: State, id: Id, actions: seq<Action>)
    requires Legal(s, actions) && HasLeft(s, id)
    ensures LeftAlike(s, Run(s, actions), id)
    decreases |actions|
  {
    if actions != [] {
      LeftStep(s, id, actions[0]);
      LeftForGood(Step(s, actions[0]), id, actions[1..]);
    }
  }

  // A rejected call's job is never executed, whatever happens afterwards.
  lemma RejectedForGood(s: State, id: Id, actions: seq<Action>)
    requires Inv(s) && Legal(s, actions) && HasLeft(s, id)
    requires Leaves(s.calls[id].pc) == Some(Busy) || Leaves(s.calls[id].pc) == Some(QueueClosed)
    ensures id !in Run(s, actions).started
  {
    var s' := Run(s, actions);
    RunKeeps(s, actions);
    LeftForGood(s, id, actions);
    assert Honest(s', id, Leaves(s'.calls[id].pc).value);
    if id !in s'.accepted {
      NotAcceptedNotStarted(s', id);
    } else {
      RejectedNotStarted(s', id);
    }
  }

  // A waiting caller whose job is finished, and whose context is alive, can pick its result up.
  lemma ResultIsThere(s: State, id: Id)
    requires Inv(s) && AtPc(s, id, Waiting) && id !in s.ended
    requires id in Ids(s.finished) || s.workerDone
    ensures CallerEnabled(s, Receive(id)) && FinishedAs(s, id, s.results[id])
  {
    assert id in s.accepted;
    if s.workerDone {
      assert s.accepted == Ids(s.finished);
    }
    var k :| 0 <= k < |s.finished| && Ids(s.finished)[k] == id;
    assert FinishKept(s, s.finished[k]);
  }

  /** The job that is past its closed check without having started. */
  function Candidate(w: WorkerPc): seq<Id> {
    if w.Accepted? || (w.Checked? && !w.saw) then [w.job] else []
  }

  // A worker step in a closed queue starts the candidate or nobody, and makes no new candidate.
  lemma CandidateStep(s: State, a: WorkerAction)
    requires Flags(s) && s.closed && WorkerEnabled(s, a)
    ensures var s' := WorkerStep(s, a);
            || (s'.started == s.started && (Candidate(s'.worker) == Candidate(s.worker) || Candidate(s'.worker) == []))
            || (s'.started == s.started + Candidate(s.worker) && Candidate(s'.worker) == [])
  {
    match a
    case TakeDone =>
    case TakeJob =>
    case WorkerLock =>
    case WorkerRead =>
    case WorkerUnlock =>
    case TestContext =>
    case FinishExecute(_) =>
    case SendResult =>
    case SkipResult =>
    case DrainJob =>
    case DrainEmpty =>
    case CloseWorkerDone =>
  }

  lemma CallersStartNothing(s: State, a: CallerAction)
    requires CallerEnabled(s, a)
    ensures CallerStep(s, a).worker == s.worker && CallerStep(s, a).started == s.started
  {
  }

  lemma StopStartsNothing(s: State, a: StopAction)
    requires StopEnabled(s, a)
    ensures StopStep(s, a).worker == s.worker && StopStep(s, a).started == s.started
  {
  }

  // In every run of a closed queue only the candidate can still start.
  lemma {:induction false} OnlyTheCandidate(s: State, actions: seq<Action>)
    requires Flags(s) && s.closed && Legal(s, actions)
    ensures Run(s, actions).started == s.started || Run(s, actions).started == s.started + Candidate(s.worker)
    decreases |actions|
  {
    if actions != [] {
      match actions[0] {
        case Caller(c) => CallersStartNothing(s, c);
        case Worker(w) => CandidateStep(s, w);
        case Stop(t) => StopStartsNothing(s, t);
        case Meter(m) =>
      }
      ClosedStep(s, actions[0]);
      OnlyTheCandidate(Step(s, actions[0]), actions[1..]);
    }
  }

  // After the queue is closed at most one more job starts, and it is the one the worker already had
  // in hand when the flag was set.
  lemma OneLateStart(s: State, actions: seq<Action>)
    requires Inv(s) && s.phase.HasWrite? && Legal(Step(s, Stop(SetClosed)), actions)
    ensures var started := Run(Step(s, Stop(SetClosed)), actions).started;
            || started == s.started
            || (InHand(s.worker) != [] && started == s.started + [InHand(s.worker)[0]])
  {
    StopFlags(s, SetClosed);
    OnlyTheCandidate(Step(s, Stop(SetClosed)), actions);
  }

  ghost predicate StaysClosed(s': State) {
    Flags(s') && s'.closed
  }

  lemma ClosedCaller(s: State, a: CallerAction)
    requires Flags(s) && s.closed && CallerEnabled(s, a)
    ensures StaysClosed(CallerStep(s, a))
  {
    CallerFlags(s, a);
  }

  lemma ClosedWorker(s: State, a: WorkerAction)
    requires Flags(s) && s.closed && WorkerEnabled(s, a)
    ensures StaysClosed(WorkerStep(s, a))
  {
    WorkerFlags(s, a);
  }

  lemma ClosedStep(s: State, a: Action)
    requires Flags(s) && s.closed && Enabled(s, a)
    ensures StaysClosed(Step(s, a))
  {
    match a
    case Caller(c) => ClosedCaller(s, c);
    case Worker(w) => ClosedWorker(s, w);
    case Stop(t) => StopFlags(s, t);
    case Meter(m) =>
  }

  // ---- Contexts that have ended ----

  /** The context of `id` has ended and its job has not started. */
  predicate EndedUnstarted(s: State, id: Id) {
    id in s.ended && id !in s.started
  }

  lemma EndedCaller(s: State, id: Id, a: CallerAction)
    requires EndedUnstarted(s, id) && CallerEnabled(s, a)
    ensures EndedUnstarted(CallerStep(s, a), id)
  {
    match a
    case Arrive(_, _, _) =>
    case EndContext(_) =>
    case CheckContext(_) =>
    case LockRead(_) =>
    case ReadClosed(_) =>
    case Enqueue(_) =>
    case SelectDone(_) =>
    case SelectDefault(_) =>
    case UnlockRead(_) =>
    case Receive(_) =>
    case GiveUp(_) =>
    case Account(_) =>
  }

  // The worker tests the context of a job before it executes it.
  lemma EndedWorker(s: State, id: Id, a: WorkerAction)
    requires EndedUnstarted(s, id) && WorkerEnabled(s, a)
    ensures EndedUnstarted(WorkerStep(s, a), id)
  {
    match a
    case TakeDone =>
    case TakeJob =>
    case WorkerLock =>
    case WorkerRead =>
    case WorkerUnlock =>
    case TestContext =>
    case FinishExecute(_) =>
    case SendResult =>
    case SkipResult =>
    case DrainJob =>
    case DrainEmpty =>
    case CloseWorkerDone =>
  }

  lemma EndedStop(s: State, id: Id, a: StopAction)
    requires EndedUnstarted(s, id) && StopEnabled(s, a)
    ensures EndedUnstarted(StopStep(s, a), id)
  {
  }

  // A job whose context ends before it has started never starts, whatever happens afterwards.
  lemma {:induction false} EndedNeverStarts(s: State, id: Id, actions: seq<Action>)
    requires Legal(s, actions) && id in s.ended && id !in s.started
    ensures id !in Run(s, actions).started
    decreases |actions|
  {
    if actions != [] {
      match actions[0] {
        case Caller(c) => EndedCaller(s, id, c);
        case Worker(w) => EndedWorker(s, id, w);
        case Stop(t) => EndedStop(s, id, t);
        case Meter(m) =>
      }
      EndedNeverStarts(Step(s, actions[0]), id, actions[1..]);
    }
  }

  /** A call that has not tested its context, which has ended, or that has left because of it. */
  predicate Turned(s: State, id: Id) {
    && id in s.ended && id !in s.accepted
    && (id in s.calls ==> s.calls[id].pc.Entered? || Leaves(s.calls[id].pc) == Some(CtxError))
  }

  lemma TurnedCaller(s: State, id: Id, a: CallerAction)
    requires Turned(s, id) && CallerEnabled(s, a)
    ensures Turned(CallerStep(s, a), id)
  {
    match a
    case Arrive(_, _, _) =>
    case EndContext(_) =>
    case CheckContext(_) =>
    case LockRead(_) =>
    case ReadClosed(_) =>
    case Enqueue(_) =>
    case SelectDone(_) =>
    case SelectDefault(_) =>
    case UnlockRead(_) =>
    case Receive(_) =>
    case GiveUp(_) =>
    case Account(_) =>
  }

  lemma TurnedWorker(s: State, id: Id, a: WorkerAction)
    requires Turned(s, id) && WorkerEnabled(s, a)
    ensures Turned(WorkerStep(s, a), id)
  {
    WorkerLeavesCalls(s, a);
  }

  lemma TurnedStop(s: State, id: Id, a: StopAction)
    requires Turned(s, id) && StopEnabled(s, a)
    ensures Turned(StopStep(s, a), id)
  {
  }

  // A call made with a context that has already ended leaves with the context's error, and its job
  // is never accepted.
  lemma {:induction false} EndedNeverAccepted(s: State, id: Id, actions: seq<Action>)
    requires Turned(s, id) && Legal(s, actions)
    ensures Turned(Run(s, actions), id)
    decreases |actions|
  {
    if actions != [] {
      match actions[0] {
        case Caller(c) => TurnedCaller(s, id, c);
        case Worker(w) => TurnedWorker(s, id, w);
        case Stop(t) => TurnedStop(s, id, t);
        case Meter(m) =>
      }
      EndedNeverAccepted(Step(s, actions[0]), id, actions[1..]);
    }
  }

  // ---- Busy ----

  predicate IsBusy(s: State, id: Id) {
    id in s.calls && Leaves(s.calls[id].pc) == Some(Busy)
  }

  // The only step that makes a call busy is its own default choice, at a full queue.
  lemma TurnsBusy(s: State, id: Id, a: Action)
    requires Inv(s) && Enabled(s, a) && !IsBusy(s, id) && IsBusy(Step(s, a), id)
    ensures AtPc(s, id, Selecting) && id !in s.ended && |s.buffer| == s.capacity
  {
    match a
    case Caller(c) => CallerTurnsBusy(s, id, c);
    case Worker(w) => WorkerLeavesCalls(s, w);
    case Stop(t) => LeftNothingToStop(s, t);
    case Meter(m) =>
  }

  lemma LeftNothingToStop(s: State, a: StopAction)
    requires StopEnabled(s, a)
    ensures StopStep(s, a).calls == s.calls
  {
  }

  lemma CallerTurnsBusy(s: State, id: Id, a: CallerAction)
    requires Inv(s) && CallerEnabled(s, a) && !IsBusy(s, id) && IsBusy(CallerStep(s, a), id)
    ensures AtPc(s, id, Selecting) && id !in s.ended && |s.buffer| == s.capacity
  {
    match a
    case Arrive(_, _, _) =>
    case EndContext(_) =>
    case CheckContext(_) =>
    case LockRead(_) =>
    case ReadClosed(_) =>
    case Enqueue(_) =>
    case SelectDone(_) =>
    case SelectDefault(_) =>
    case UnlockRead(_) =>
    case Receive(_) => NoBusyResult(s, a.id);
    case GiveUp(_) =>
    case Account(_) =>
  }

  lemma NoBusyResult(s: State, id: Id)
    requires Outcomes(s) && id in s.results
    ensures !s.results[id].Busy?
  {
    var k :| 0 <= k < |s.finished| && s.finished[k] == Finish(id, s.results[id], true);
    assert FinishKept(s, s.finished[k]);
  }

  lemma RunPrefix(s: State, actions: seq<Action>, n: nat)
    requires actions != [] && Enabled(s, actions[0]) && n <= |actions[1..]|
    requires Legal(Step(s, actions[0]), actions[1..][..n])
    ensures Legal(s, actions[..n + 1])
    ensures Run(s, actions[..n + 1]) == Run(Step(s, actions[0]), actions[1..][..n])
  {
    assert actions[..n + 1][1..] == actions[1..][..n];
  }

  // Whoever leaves as busy had a live context and was choosing at a moment when the queue was full.
  lemma {:induction false} BusyMeansFull(s: State, id: Id, actions: seq<Action>) returns (n: nat)
    requires Inv(s) && Legal(s, actions) && !IsBusy(s, id) && IsBusy(Run(s, actions), id)
    ensures n <= |actions| && Legal(s, actions[..n])
    ensures var t := Run(s, actions[..n]);
            AtPc(t, id, Selecting) && id !in t.ended && |t.buffer| == t.capacity
    decreases |actions|
  {
    var s' := Step(s, actions[0]);
    if IsBusy(s', id) {
      TurnsBusy(s, id, actions[0]);
      n := 0;
      assert actions[..0] == [];
    } else {
      StepKeeps(s, actions[0]);
      var n' := BusyMeansFull(s', id, actions[1..]);
      RunPrefix(s, actions, n');
      n := n' + 1;
    }
  }

  // ---- Choices ----

  // No select prefers one ready case over another: a call that can both be enqueued and see its
  // context end, or both receive and give up, and a worker that can both take a job and see the
  // shutdown, or both deliver and see the job's context end, may do either.
  lemma SelectsAreFree(s: State, id: Id)
    ensures AtPc(s, id, Selecting) && |s.buffer| < s.capacity && id in s.ended ==>
              CallerEnabled(s, Enqueue(id)) && CallerEnabled(s, SelectDone(id)) && !CallerEnabled(s, SelectDefault(id))
    ensures AtPc(s, id, Waiting) && id in s.results && id in s.ended ==>
              CallerEnabled(s, Receive(id)) && CallerEnabled(s, GiveUp(id))
    ensures s.worker.AtSelect? && s.buffer != [] && s.doneShut ==>
              WorkerEnabled(s, TakeJob) && WorkerEnabled(s, TakeDone)
    ensures s.worker.Finishing? && s.worker.job !in s.results && s.worker.job in s.ended ==>
              WorkerEnabled(s, SendResult) && WorkerEnabled(s, SkipResult)
  {
  }

  // ---- Callers are not stuck ----

  // A call outside its wait can always take a step of its own, once it can have the lock.
  lemma CallerCanMove(s: State, id: Id) returns (a: CallerAction)
    requires id in s.calls && (s.calls[id].pc.WantLock? ==> !WriteHeld(s))
    requires !s.calls[id].pc.Waiting? && !s.calls[id].pc.Returned? && !s.calls[id].pc.Counted?
    ensures CallerEnabled(s, a) && a.id == id && !a.EndContext? && !a.Arrive?
  {
    match s.calls[id].pc
    case Entered => a := CheckContext(id);
    case WantLock => a := LockRead(id);
    case Locked => a := ReadClosed(id);
    case Selecting =>
      a := if |s.buffer| < s.capacity then Enqueue(id)
           else if id in s.ended then SelectDone(id) else SelectDefault(id);
    case Unlocking(_) => a := UnlockRead(id);
  }

  // ---- The calls of Shutdown ----

  function Owner(phase: StopPhase): Option<Id> {
    match phase
    case NotStopping => None
    case StopComplete => None
    case _ => Some(phase.owner)
  }

  /** Where the Shutdown calls stand: one runs the body, nobody passes before it is over, and answers are true. */
  ghost predicate StopsSound(s: State) {
    && (Owner(s.phase).Some? ==> Owner(s.phase).value in s.stops)
    && forall id :: id in s.stops ==>
         match s.stops[id]
         case Begun => true
         case InOnce => Owner(s.phase) == Some(id)
         case AwaitWorker => s.phase.StopComplete?
         case StopReturned(ok) => s.phase.StopComplete? && (if ok then s.workerDone else id in s.stopsEnded)
  }

  /** The owner is inside the body. */
  ghost predicate OwnerInside(s: State) {
    Owner(s.phase).Some? ==> StopAt(s, Owner(s.phase).value, InOnce)
  }

  lemma StopStepSound(s: State, a: StopAction)
    requires StopsSound(s) && OwnerInside(s) && StopEnabled(s, a)
    ensures StopsSound(StopStep(s, a)) && OwnerInside(StopStep(s, a))
  {
    match a
    case CallStop(_) =>
    case EndStopContext(_) =>
    case EnterOnce(_) =>
    case LockWrite =>
    case SetClosed =>
    case CloseDone =>
    case UnlockWrite =>
    case PassOnce(_) =>
    case StopOk(_) =>
    case StopErr(_) =>
  }

  lemma StopsUntouched(s: State, s': State)
    requires StopsSound(s) && OwnerInside(s)
    requires s'.stops == s.stops && s'.phase == s.phase && s'.stopsEnded == s.stopsEnded
    requires s.workerDone ==> s'.workerDone
    ensures StopsSound(s') && OwnerInside(s')
  {
  }

  lemma CallerLeavesStops(s: State, a: CallerAction)
    requires CallerEnabled(s, a)
    ensures var s' := CallerStep(s, a);
            && s'.stops == s.stops && s'.phase == s.phase && s'.stopsEnded == s.stopsEnded
            && s'.workerDone == s.workerDone && s'.closed == s.closed
  {
    match a
    case Arrive(_, _, _) =>
    case EndContext(_) =>
    case CheckContext(_) =>
    case LockRead(_) =>
    case ReadClosed(_) =>
    case Enqueue(_) =>
    case SelectDone(_) =>
    case SelectDefault(_) =>
    case UnlockRead(_) =>
    case Receive(_) =>
    case GiveUp(_) =>
    case Account(_) =>
  }

  lemma WorkerLeavesStops(s: State, a: WorkerAction)
    requires WorkerEnabled(s, a)
    ensures var s' := WorkerStep(s, a);
            && s'.stops == s.stops && s'.phase == s.phase && s'.stopsEnded == s.stopsEnded
            && (s.workerDone ==> s'.workerDone)
  {
    match a
    case TakeDone =>
    case TakeJob =>
    case WorkerLock =>
    case WorkerRead =>
    case WorkerUnlock =>
    case TestContext =>
    case FinishExecute(_) =>
    case SendResult =>
    case SkipResult =>
    case DrainJob =>
    case DrainEmpty =>
    case CloseWorkerDone =>
  }

  lemma StepSound(s: State, a: Action)
    requires StopsSound(s) && OwnerInside(s) && Enabled(s, a)
    ensures StopsSound(Step(s, a)) && OwnerInside(Step(s, a))
  {
    match a
    case Caller(c) =>
      CallerLeavesStops(s, c);
      StopsUntouched(s, CallerStep(s, c));
    case Worker(w) =>
      WorkerLeavesStops(s, w);
      StopsUntouched(s, WorkerStep(s, w));
    case Stop(t) => StopStepSound(s, t);
    case Meter(m) => StopsUntouched(s, MeterStep(s, m));
  }

  // In every run Shutdown answers nil only with the worker stopped and an error only with its own
  // context ended, and in either case only once the queue is closed.
  lemma {:induction false} ShutdownAnswers(s: State, actions: seq<Action>)
    requires StopsSound(s) && OwnerInside(s) && Legal(s, actions)
    ensures StopsSound(Run(s, actions)) && OwnerInside(Run(s, actions))
    decreases |actions|
  {
    if actions != [] {
      StepSound(s, actions[0]);
      ShutdownAnswers(Step(s, actions[0]), actions[1..]);
    }
  }

  // Some Shutdown call can always take a step unless all of them wait for readers of the lock, or,
  // the queue being closed, for the worker.
  lemma StopCanMove(s: State, id: Id) returns (a: StopAction)
    requires StopsSound(s) && OwnerInside(s) && id in s.stops && !s.stops[id].StopReturned?
    requires s.phase.WantWrite? ==> ReadFree(s)
    requires s.stops[id].AwaitWorker? ==> s.workerDone || id in s.stopsEnded
    ensures StopEnabled(s, a) && !a.CallStop? && !a.EndStopContext?
  {
    match s.phase
    case NotStopping => a := EnterOnce(id);
    case WantWrite(_) => a := LockWrite;
    case HasWrite(_) => a := SetClosed;
    case FlagSet(_) => a := CloseDone;
    case DoneShut(_) => a := UnlockWrite;
    case StopComplete =>
      a := if s.stops[id].Begun? then PassOnce(id) else if s.workerDone then StopOk(id) else StopErr(id);
  }

  // A closed queue accepts nothing more.
  lemma {:induction false} ClosedAcceptsNothing(s: State, actions: seq<Action>)
    requires Flags(s) && s.closed && Legal(s, actions)
    ensures Run(s, actions).accepted == s.accepted
    decreases |actions|
  {
    if actions != [] {
      match actions[0] {
        case Caller(c) => CallerHistory(s, c);
        case Worker(w) => WorkerLeavesCalls(s, w);
        case Stop(t) => StopAcceptsNothing(s, t);
        case Meter(m) =>
      }
      ClosedStep(s, actions[0]);
      ClosedAcceptsNothing(Step(s, actions[0]), actions[1..]);
    }
  }

  lemma StopAcceptsNothing(s: State, a: StopAction)
    requires StopEnabled(s, a)
    ensures StopStep(s, a).accepted == s.accepted
  {
  }

  // ---- Shutdown terminates ----

  /** How many steps the worker can still take once the queue is closed. */
  function Remaining(s: State): nat {
    var b := 2 * |s.buffer|;
    match s.worker
    case Stopped => 0
    case Leaving => 1
    case Draining => b + 2
    case Finishing(_, _, draining) => if draining then b + 3 else b + 6
    case Checked(_, saw) => if saw then b + 4 else b + 9
    case Checking(_) => b + 5
    case Dequeued(_) => b + 6
    case AtSelect => b + 5
    case Executing(_) => b + 7
    case Accepted(_) => b + 8
  }

  lemma RemainingWorker(s: State, a: WorkerAction)
    requires Flags(s) && s.closed && WorkerEnabled(s, a)
    ensures Remaining(WorkerStep(s, a)) < Remaining(s)
  {
  }

  lemma RemainingCaller(s: State, a: CallerAction)
    requires Flags(s) && s.closed && CallerEnabled(s, a)
    ensures Remaining(CallerStep(s, a)) == Remaining(s)
  {
    assert CallerStep(s, a).worker == s.worker && CallerStep(s, a).buffer == s.buffer;
  }

  // After the close, every step of the worker shortens what is left of its work and no other
  // step lengthens it.
  lemma RemainingStep(s: State, a: Action)
    requires Flags(s) && s.closed && Enabled(s, a)
    ensures Remaining(Step(s, a)) + (if a.Worker? then 1 else 0) <= Remaining(s)
  {
    match a
    case Caller(c) => RemainingCaller(s, c);
    case Worker(w) => RemainingWorker(s, w);
    case Stop(t) => RemainingStop(s, t);
    case Meter(m) => RemainingMeter(s, m);
  }

  lemma RemainingStop(s: State, a: StopAction)
    requires StopEnabled(s, a)
    ensures Remaining(StopStep(s, a)) == Remaining(s)
  {
    assert StopStep(s, a).worker == s.worker && StopStep(s, a).buffer == s.buffer;
  }

  lemma RemainingMeter(s: State, a: MeterAction)
    requires MeterEnabled(s, a)
    ensures Remaining(MeterStep(s, a)) == Remaining(s)
  {
    assert MeterStep(s, a).worker == s.worker && MeterStep(s, a).buffer == s.buffer;
  }

  function WorkerSteps(actions: seq<Action>): nat {
    if actions == [] then 0 else (if actions[0].Worker? then 1 else 0) + WorkerSteps(actions[1..])
  }

  // So in every run from a closed queue the worker takes a number of steps linear in the buffer.
  lemma {:induction false} WorkerStepsBounded(s: State, actions: seq<Action>)
    requires Flags(s) && s.closed && Legal(s, actions)
    ensures Remaining(Run(s, actions)) + WorkerSteps(actions) <= Remaining(s) <= 2 * |s.buffer| + 9
    decreases |actions|
  {
    if actions != [] {
      RemainingStep(s, actions[0]);
      ClosedStep(s, actions[0]);
      WorkerStepsBounded(Step(s, actions[0]), actions[1..]);
    }
  }

  // And it is never stuck: unless it is executing a job or has stopped, it can take a step
  // once Shutdown has released the lock.
  lemma WorkerCanMove(s: State) returns (a: WorkerAction)
    requires Inv(s) && s.phase.StopComplete? && !s.worker.Executing? && !s.worker.Stopped?
    ensures WorkerEnabled(s, a)
  {
    match s.worker
    case AtSelect => a := TakeDone;
    case Dequeued(_) => a := WorkerLock;
    case Checking(_) => a := WorkerRead;
    case Checked(_, _) => a := WorkerUnlock;
    case Accepted(_) => a := TestContext;
    case Finishing(_, _, _) =>
      FinishNeverBlocks(s);
      a := SendResult;
    case Draining => a := if s.buffer == [] then DrainEmpty else DrainJob;
    case Leaving => a := CloseWorkerDone;
  }

  // ---- Client metrics ----

  function Metered(s: State): set<Id> {
    set id | id in s.calls && s.calls[id].metered
  }

  function BusyCalls(s: State): set<Id> {
    set id | id in s.calls && s.calls[id].metered && s.calls[id].pc == Counted(Busy)
  }

  function RecordedCalls(s: State): set<Id> {
    set id | id in s.calls && s.calls[id].metered && s.calls[id].pc.Counted? && s.calls[id].pc != Counted(Busy)
  }

  function InFlight(s: State): set<Id> {
    set id | id in s.calls && s.calls[id].metered && !s.calls[id].pc.Counted?
  }

  ghost predicate Meters(s: State) {
    && s.requests == |Metered(s)| && s.busy == |BusyCalls(s)| && s.recorded == |RecordedCalls(s)|
    && (forall id :: id in s.readings ==> Reasonable(s, s.readings[id]))
  }

  /** What `Metrics` subtracts never exceeds what it subtracts from. */
  predicate Reasonable(s: State, r: Reading) {
    match r
    case LoadedBusy(b) => b <= s.busy
    case LoadedBoth(b, n) => b <= n
  }

  // At every moment, requests are the busy ones, the recorded ones and those in flight.
  lemma RequestsConserved(s: State)
    requires Meters(s)
    ensures s.requests == s.busy + s.recorded + |InFlight(s)|
  {
    assert Metered(s) == BusyCalls(s) + RecordedCalls(s) + InFlight(s);
    assert |BusyCalls(s) + RecordedCalls(s)| == s.busy + s.recorded;
  }

  lemma CallerMetered(s: State, a: CallerAction)
    requires CallerEnabled(s, a)
    ensures Metered(CallerStep(s, a)) == Metered(s) + if a.Arrive? && a.metered then {a.id} else {}
  {
  }

  /** Nothing but the call of `id` has changed. */
  ghost predicate OnlyOwn(calls: map<Id, Call>, calls': map<Id, Call>, id: Id) {
    forall i :: i != id ==> (i in calls <==> i in calls') && (i in calls ==> calls'[i] == calls[i])
  }

  lemma CallerMovesOwn(s: State, a: CallerAction)
    requires CallerEnabled(s, a)
    ensures OnlyOwn(s.calls, CallerStep(s, a).calls, a.id)
  {
    match a
    case Arrive(_, _, _) =>
    case EndContext(_) =>
    case CheckContext(_) =>
    case LockRead(_) =>
    case ReadClosed(_) =>
    case Enqueue(_) =>
    case SelectDone(_) =>
    case SelectDefault(_) =>
    case UnlockRead(_) =>
    case Receive(_) =>
    case GiveUp(_) =>
    case Account(_) =>
  }

  // Only `Account` moves a call to `Counted`, with the result it returned.
  lemma CallerCounts(s: State, a: CallerAction)
    requires CallerEnabled(s, a)
    ensures var calls, calls' := s.calls, CallerStep(s, a).calls;
            if a.Account? then
              && a.id in calls && calls[a.id].metered && !calls[a.id].pc.Counted?
              && a.id in calls' && calls'[a.id].metered && calls'[a.id].pc == Counted(calls[a.id].pc.result)
            else if a.EndContext? then calls' == calls
            else a.id in calls' && !calls'[a.id].pc.Counted? && (a.id in calls ==> !calls[a.id].pc.Counted?)
  {
    match a
    case Arrive(_, _, _) =>
    case EndContext(_) =>
    case CheckContext(_) =>
    case LockRead(_) =>
    case ReadClosed(_) =>
    case Enqueue(_) =>
    case SelectDone(_) =>
    case SelectDefault(_) =>
    case UnlockRead(_) =>
    case Receive(_) =>
    case GiveUp(_) =>
    case Account(_) =>
  }

  lemma CallerCountedBusy(s: State, a: CallerAction)
    requires CallerEnabled(s, a)
    ensures BusyCalls(CallerStep(s, a)) ==
            BusyCalls(s) + if a.Account? && s.calls[a.id].pc == Returned(Busy) then {a.id} else {}
  {
    CallerMovesOwn(s, a);
    CallerCounts(s, a);
    BusyAfter(s, CallerStep(s, a), a.id);
  }

  lemma BusyAfter(s: State, s': State, id: Id)
    requires OnlyOwn(s.calls, s'.calls, id)
    ensures BusyCalls(s') - {id} == BusyCalls(s) - {id}
  {
  }

  lemma RecordedAfter(s: State, s': State, id: Id)
    requires OnlyOwn(s.calls, s'.calls, id)
    ensures RecordedCalls(s') - {id} == RecordedCalls(s) - {id}
  {
  }

  lemma CallerCountedRecorded(s: State, a: CallerAction)
    requires CallerEnabled(s, a)
    ensures RecordedCalls(CallerStep(s, a)) ==
            RecordedCalls(s) + if a.Account? && s.calls[a.id].pc != Returned(Busy) then {a.id} else {}
  {
    CallerMovesOwn(s, a);
    CallerCounts(s, a);
    RecordedAfter(s, CallerStep(s, a), a.id);
  }

  lemma CallerCounters(s: State, a: CallerAction)
    requires CallerEnabled(s, a)
    ensures var s', busy := CallerStep(s, a), a.Account? && s.calls[a.id].pc == Returned(Busy);
            && s'.readings == s.readings
            && s'.requests == s.requests + (if a.Arrive? && a.metered then 1 else 0)
            && s'.busy == s.busy + (if busy then 1 else 0)
            && s'.recorded == s.recorded + (if a.Account? && !busy then 1 else 0)
  {
    match a
    case Arrive(_, _, _) =>
    case EndContext(_) =>
    case CheckContext(_) =>
    case LockRead(_) =>
    case ReadClosed(_) =>
    case Enqueue(_) =>
    case SelectDone(_) =>
    case SelectDefault(_) =>
    case UnlockRead(_) =>
    case Receive(_) =>
    case GiveUp(_) =>
    case Account(_) =>
  }

  lemma MetersCaller(s: State, a: CallerAction)
    requires Meters(s) && CallerEnabled(s, a)
    ensures Meters(CallerStep(s, a))
  {
    CallerMetered(s, a);
    CallerCountedBusy(s, a);
    CallerCountedRecorded(s, a);
    CallerCounters(s, a);
    CallerCounts(s, a);
    ReadingsKept(s, CallerStep(s, a));
  }

  lemma ReadingsKept(s: State, s': State)
    requires forall id :: id in s.readings ==> Reasonable(s, s.readings[id])
    requires s'.readings == s.readings && s.busy <= s'.busy
    ensures forall id :: id in s'.readings ==> Reasonable(s', s'.readings[id])
  {
    forall id | id in s'.readings
      ensures Reasonable(s', s'.readings[id])
    {
      assert Reasonable(s, s.readings[id]);
    }
  }

  lemma MetersReader(s: State, a: MeterAction)
    requires Meters(s) && MeterEnabled(s, a)
    ensures Meters(MeterStep(s, a))
  {
    var s' := MeterStep(s, a);
    SameCalls(s, s');
    RequestsConserved(s);
    forall id | id in s'.readings
      ensures Reasonable(s', s'.readings[id])
    {
      assert id in s.readings ==> Reasonable(s, s.readings[id]);
    }
  }

  lemma MetersUntouched(s: State, s': State)
    requires Meters(s) && s'.calls == s.calls && s'.readings == s.readings
    requires s'.requests == s.requests && s'.busy == s.busy && s'.recorded == s.recorded
    ensures Meters(s')
  {
    SameCalls(s, s');
    ReadingsKept(s, s');
  }

  lemma WorkerCounters(s: State, a: WorkerAction)
    requires WorkerEnabled(s, a)
    ensures var s' := WorkerStep(s, a);
            && s'.calls == s.calls && s'.readings == s.readings
            && s'.requests == s.requests && s'.busy == s.busy && s'.recorded == s.recorded
  {
    match a
    case TakeDone =>
    case TakeJob =>
    case WorkerLock =>
    case WorkerRead =>
    case WorkerUnlock =>
    case TestContext =>
    case FinishExecute(_) =>
    case SendResult =>
    case SkipResult =>
    case DrainJob =>
    case DrainEmpty =>
    case CloseWorkerDone =>
  }

  lemma MetersWorker(s: State, a: WorkerAction)
    requires Meters(s) && WorkerEnabled(s, a)
    ensures Meters(WorkerStep(s, a))
  {
    WorkerCounters(s, a);
    MetersUntouched(s, WorkerStep(s, a));
  }

  lemma MetersStop(s: State, a: StopAction)
    requires Meters(s) && StopEnabled(s, a)
    ensures Meters(StopStep(s, a))
  {
    MetersUntouched(s, StopStep(s, a));
  }

  lemma MetersStep(s: State, a: Action)
    requires Meters(s) && Enabled(s, a)
    ensures Meters(Step(s, a))
  {
    match a
    case Caller(c) => MetersCaller(s, c);
    case Worker(w) => MetersWorker(s, w);
    case Stop(t) => MetersStop(s, t);
    case Meter(m) => MetersReader(s, m);
  }

  lemma SameCalls(s: State, s': State)
    requires s'.calls == s.calls
    ensures Metered(s') == Metered(s) && BusyCalls(s') == BusyCalls(s) && RecordedCalls(s') == RecordedCalls(s)
  {
  }

  // In every interleaving the counters add up, and a reader that loads busy before requests
  // never subtracts more than it has: the clamp to zero never fires.
  lemma {:induction false} MetersAlwaysHold(s: State, actions: seq<Action>)
    requires Meters(s) && Legal(s, actions)
    ensures Meters(Run(s, actions))
    decreases |actions|
  {
    if actions != [] {
      MetersStep(s, actions[0]);
      MetersAlwaysHold(Step(s, actions[0]), actions[1..]);
    }
  }

  lemma ClampNeverFires(capacity: nat, actions: seq<Action>, reader: Id)
    requires Legal(Init(capacity), actions)
    ensures var s := Run(Init(capacity), actions);
            && s.requests == s.busy + s.recorded + |InFlight(s)|
            && (reader in s.readings && s.readings[reader].LoadedBoth? ==>
                  0 <= s.readings[reader].r - s.readings[reader].b)
  {
    var s := Run(Init(capacity), actions);
    MetersAlwaysHold(Init(capacity), actions);
    RequestsConserved(s);
    if reader in s.readings {
      assert Reasonable(s, s.readings[reader]);
    }
  }
}

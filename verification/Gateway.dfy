/**
 The whole gateway: the work queue, the job that its worker executes call by call on the
 PLC connection, and `Close` running beside it, interleaved one step at a time.

 The network's choices are the script of faults in the link, fixed at the start and read
 as the calls are made; every statement holds for every script.
 */
module Gateway {
  import opened Wire
  import opened Programs
  import opened Options
  import opened Client
  import Q = WorkQueue
  import Words

  /** Where the executing job stands inside `initialConnect`, `do` or `doReset`. */
  datatype Exec =
    | Idle
    | AtMutex(op: Op)   // p.mu.Lock()
    | Holding(op: Op)   // holds the mutex, about to test conn == nil
    | Dialing(op: Op)   // has counted the reconnect
    | Admitting(op: Op) // about to count the request
    | Running(rest: Program, replies: seq<Reply>, outcome: Fault)
    // between the read and the write of one register
    | Storing(at: DeviceAddr, w: Words.Word, rest: Program, replies: seq<Reply>)
    | Timing(outcome: Fault, replies: seq<Reply>)   // fn has returned
    | Settling(outcome: Fault, replies: seq<Reply>) // latency recorded
    | ResetSending
    | ResetTiming(outcome: Fault)
    | ResetClosing(outcome: Fault)
    | ResetSettling(outcome: Fault)
    | Leaving(answer: Answer) // about to release the mutex
    | Left(answer: Answer)

  predicate InSection(x: Exec) {
    !x.Idle? && !x.AtMutex? && !x.Left?
  }

  predicate NeedsConn(x: Exec) {
    x.Admitting? || x.Running? || x.Storing? || x.Timing? || x.Settling?
    || x.ResetSending? || x.ResetTiming? || x.ResetClosing?
  }

  predicate WellPlaced(x: Exec, l: Link) {
    && (NeedsConn(x) ==> l.conn.Some?)
    && ((x.Dialing? || x.Admitting?) ==> x.op.Do? || x.op.Reset?)
    && (x.Dialing? ==> l.conn.None?)
    && ((x.AtMutex? || x.Holding?) ==> !x.op.Close?)
  }

  function SessionOf(l: Link, replies: seq<Reply>, outcome: Fault): Session {
    Session(l.mem, l.faults, l.events, replies, outcome)
  }

  /** One step of the executing job. At most one call reaches the wire in a step. */
  function ExecStep(x: Exec, l: Link): (Exec, Link)
    requires WellPlaced(x, l) && !x.Idle? && !x.Left?
  {
    match x
    case AtMutex(op) => (Holding(op), l)
    case Holding(op) =>
      if op.InitialConnect? then (Leaving(Success([])), Connect(l))
      else if l.conn.Some? then (Admitting(op), l)
      else (Dialing(op), l.(reconnects := l.reconnects + 1))
    case Dialing(op) =>
      var l' := Connect(l);
      if l'.conn.None? then (Leaving(ConnErr(Next(l.faults))), l'.(errors := l'.errors + 1))
      else (Admitting(op), l')
    case Admitting(op) =>
      (if op.Do? then Running(op.program, [], Fine) else ResetSending, l.(requests := l.requests + 1))
    case Running(rest, replies, outcome) =>
      if rest == [] || outcome != Fine then (Timing(outcome, replies), l)
      else
        (match rest[0]
         case Issue(c) =>
           var s := RunInstr(l.conn.value, rest[0], SessionOf(l, replies, Fine));
           (Running(rest[1..], s.replies, s.outcome), After(l, s))
         case Modify(at, edits) =>
           var s := Transmit(l.conn.value, ReadWords(at, 1), SessionOf(l, replies, Fine));
           (if s.outcome == Fine then Storing(at, EditAll(l.mem.words[at], edits), rest[1..], replies)
            else Timing(s.outcome, replies), After(l, s)))
    case Storing(at, w, rest, replies) =>
      var s := Transmit(l.conn.value, WriteWords(at, [w]), SessionOf(l, replies, Fine));
      (Running(rest, replies, s.outcome), After(l, s))
    case Timing(outcome, replies) => (Settling(outcome, replies), l.(recorded := l.recorded + 1))
    case Settling(outcome, replies) =>
      var (l', answer) := Settle(l, outcome, replies);
      (Leaving(answer), l')
    case ResetSending =>
      var s := Transmit(l.conn.value, Remote(RemoteReset), SessionOf(l, [], Fine));
      (ResetTiming(s.outcome), After(l, s))
    case ResetTiming(outcome) => (ResetClosing(outcome), l.(recorded := l.recorded + 1))
    case ResetClosing(outcome) => (ResetSettling(outcome), Drop(l))
    case ResetSettling(outcome) =>
      var (l', answer) := SettleReset(l, outcome);
      (Leaving(answer), l')
    case Leaving(answer) => (Left(answer), l)
  }

  /** What the operation will have done, and answered, when it is over. */
  function Completion(x: Exec, l: Link): (Link, Answer)
    requires WellPlaced(x, l) && !x.Idle?
  {
    match x
    case AtMutex(op) => Perform(l, op)
    case Holding(op) => Perform(l, op)
    case Dialing(op) =>
      var l' := Connect(l);
      if l'.conn.None? then (l'.(errors := l'.errors + 1), ConnErr(Next(l.faults))) else Admit(l', op)
    case Admitting(op) => Admit(l, op)
    case Running(rest, replies, outcome) => Ended(l, RunProgram(l.conn.value, rest, SessionOf(l, replies, outcome)))
    case Storing(at, w, rest, replies) =>
      Ended(l, RunProgram(l.conn.value, rest, Transmit(l.conn.value, WriteWords(at, [w]), SessionOf(l, replies, Fine))))
    case Timing(outcome, replies) => Settle(l.(recorded := l.recorded + 1), outcome, replies)
    case Settling(outcome, replies) => Settle(l, outcome, replies)
    case ResetSending =>
      var s := Transmit(l.conn.value, Remote(RemoteReset), SessionOf(l, [], Fine));
      SettleReset(Drop(After(l.(recorded := l.recorded + 1), s)), s.outcome)
    case ResetTiming(outcome) => SettleReset(Drop(l.(recorded := l.recorded + 1)), outcome)
    case ResetClosing(outcome) => SettleReset(Drop(l), outcome)
    case ResetSettling(outcome) => SettleReset(l, outcome)
    case Leaving(answer) => (l, answer)
    case Left(answer) => (l, answer)
  }

  function Ended(l: Link, s: Session): (Link, Answer)
    requires l.conn.Some?
  {
    Settle(After(l, s).(recorded := l.recorded + 1), s.outcome, s.replies)
  }

  lemma RunningCompletes(x: Exec, l: Link)
    requires x.Running? && WellPlaced(x, l)
    ensures var (x', l') := ExecStep(x, l);
            WellPlaced(x', l') && !x'.Idle? && Completion(x', l') == Completion(x, l)
  {
    var c := l.conn.value;
    if x.rest == [] || x.outcome != Fine {
      if x.outcome != Fine {
        RunStopped(c, x.rest, SessionOf(l, x.replies, x.outcome));
      }
    } else if x.rest[0].Modify? {
      var s := Transmit(c, ReadWords(x.rest[0].at, 1), SessionOf(l, x.replies, Fine));
      if s.outcome != Fine {
        RunStopped(c, x.rest[1..], s);
      }
    }
  }

  // Every step of a job brings it closer to exactly the outcome of the undivided operation.
  lemma ExecStepCompletes(x: Exec, l: Link)
    requires WellPlaced(x, l) && !x.Idle? && !x.Left?
    ensures var (x', l') := ExecStep(x, l);
            WellPlaced(x', l') && !x'.Idle? && Completion(x', l') == Completion(x, l)
  {
    if x.Running? {
      RunningCompletes(x, l);
    }
  }

  /** How many more steps a job can take before `execute` returns. */
  function Work(x: Exec): nat {
    match x
    case Idle => 0
    case Left(_) => 0
    case Leaving(_) => 1
    case Settling(_, _) => 2
    case Timing(_, _) => 3
    case Running(rest, _, _) => 4 + 2 * |rest|
    case Storing(_, _, rest, _) => 5 + 2 * |rest|
    case ResetSettling(_) => 2
    case ResetClosing(_) => 3
    case ResetTiming(_) => 4
    case ResetSending => 5
    case Admitting(op) => if op.Do? then 5 + 2 * |op.program| else 6
    case Dialing(op) => if op.Do? then 6 + 2 * |op.program| else 7
    case Holding(op) => if op.Do? then 7 + 2 * |op.program| else 8
    case AtMutex(op) => if op.Do? then 8 + 2 * |op.program| else 9
  }

  // A job always returns: each of its steps leaves less to do, within a bound read off its program.
  lemma ExecStepShortens(x: Exec, l: Link)
    requires WellPlaced(x, l) && !x.Idle? && !x.Left?
    ensures Work(ExecStep(x, l).0) < Work(x)
  {
  }

  // ---- The composed machine ----

  /** main.go: connect once through the queue, then serve. */
  datatype Boot = NotStarted | Connecting(first: Q.Id) | Serving(first: Q.Id)

  datatype CloserPc = NoCloser | CloserHolds | CloserDone

  /** One critical section of the connection mutex, in the order the mutex was released. */
  datatype Entry = Entry(job: Option<Q.Id>, op: Op, answer: Answer)

  datatype State = State(q: Q.State, x: Exec, link: Link, closer: CloserPc, boot: Boot, log: seq<Entry>)

  datatype Action =
    | Queue(a: Q.Action)
    | Serve
    | JobStep
    | CloseLock
    | CloseBody
    | CloseUnlock

  function Init(capacity: nat, mem: Memory, faults: seq<Fault>): State {
    State(Q.Init(capacity), Idle, Disconnected(mem, faults), NoCloser, NotStarted, [])
  }

  predicate MutexFree(g: State) {
    !InSection(g.x) && g.closer.NoCloser?
  }

  /** What the outside world does: the first call is the initial connect, with a context that never ends. */
  predicate CallAllowed(g: State, c: Q.CallerAction) {
    match c
    case Arrive(_, op, metered) =>
      if g.boot.NotStarted? then op.InitialConnect? && !metered
      else g.boot.Serving? && (op.Do? || op.Reset?) && metered
    case EndContext(id) => !g.boot.NotStarted? && id != g.boot.first
    case _ => true
  }

  ghost predicate Enabled(g: State, a: Action) {
    match a
    case Queue(qa) =>
      && Q.Enabled(g.q, qa)
      && (qa.Caller? ==> CallAllowed(g, qa.call))
      && (qa.Stop? ==> g.boot.Serving?)
      && (qa.Worker? && qa.work.FinishExecute? ==> g.x == Left(qa.work.answer))
    case Serve =>
      g.boot.Connecting? && g.boot.first in g.q.calls && g.q.calls[g.boot.first].pc.Returned?
    case JobStep =>
      && !g.x.Idle? && !g.x.Left? && WellPlaced(g.x, g.link) && g.q.worker.Executing?
      && (g.x.AtMutex? ==> MutexFree(g))
    case CloseLock => g.boot.Serving? && MutexFree(g)
    case CloseBody => g.closer.CloserHolds?
    case CloseUnlock => g.closer.CloserDone?
  }

  ghost function Step(g: State, a: Action): State
    requires Enabled(g, a)
  {
    match a
    case Queue(qa) =>
      var q' := Q.Step(g.q, qa);
      var g' := g.(q := q');
      if qa.Caller? && qa.call.Arrive? && g.boot.NotStarted? then g'.(boot := Connecting(qa.call.id))
      else if qa.Worker? && qa.work.FinishExecute? then g'.(x := Idle)
      else if qa.Worker? && qa.work.TestContext? && q'.worker.Executing? && q'.worker.job in q'.calls then
        g'.(x := AtMutex(q'.calls[q'.worker.job].op))
      else g'
    case Serve => g.(boot := Serving(g.boot.first))
    case JobStep =>
      var (x', l') := ExecStep(g.x, g.link);
      var log' :=
        if g.x.Leaving? && g.q.worker.job in g.q.calls then
          g.log + [Entry(Some(g.q.worker.job), g.q.calls[g.q.worker.job].op, g.x.answer)]
        else g.log;
      g.(x := x', link := l', log := log')
    case CloseLock => g.(closer := CloserHolds)
    case CloseBody => g.(closer := CloserDone, link := Perform(g.link, Close).0)
    case CloseUnlock => g.(closer := NoCloser, log := g.log + [Entry(None, Close, Success([]))])
  }

  ghost predicate Legal(g: State, actions: seq<Action>)
    decreases |actions|
  {
    actions == [] || (Enabled(g, actions[0]) && Legal(Step(g, actions[0]), actions[1..]))
  }

  ghost function Run(g: State, actions: seq<Action>): State
    requires Legal(g, actions)
    decreases |actions|
  {
    if actions == [] then g else Run(Step(g, actions[0]), actions[1..])
  }

  // ---- Invariants ----

  function Ops(log: seq<Entry>): seq<Op> {
    seq(|log|, i requires 0 <= i < |log| => log[i].op)
  }

  function Jobs(log: seq<Entry>): seq<Q.Id> {
    if log == [] then []
    else
      var n := |log| - 1;
      Jobs(log[..n]) + if log[n].job.Some? then [log[n].job.value] else []
  }

  /** The link after the logged sections, each performed whole and alone. */
  function Replay(origin: Link, log: seq<Entry>): Link {
    PerformAll(origin, Ops(log))
  }

  lemma ReplaySnoc(origin: Link, log: seq<Entry>, e: Entry)
    ensures Replay(origin, log + [e]) == Perform(Replay(origin, log), e.op).0
    ensures Jobs(log + [e]) == Jobs(log) + if e.job.Some? then [e.job.value] else []
  {
    assert Ops(log + [e])[..|log|] == Ops(log);
    assert (log + [e])[..|log|] == log;
  }

  ghost predicate Answered(origin: Link, log: seq<Entry>, k: nat)
    requires k < |log|
  {
    log[k].answer == Perform(Replay(origin, log[..k]), log[k].op).1
  }

  /** The link is the replay of the log, advanced by the section in progress. */
  ghost predicate Linearized(origin: Link, g: State) {
    && WellPlaced(g.x, g.link)
    && (g.x.Idle? <==> !g.q.worker.Executing?)
    && (g.q.worker.Executing? ==> g.q.worker.job in g.q.calls)
    && (InSection(g.x) ==> g.closer.NoCloser?)
    && (g.x.AtMutex? || g.x.Holding? ==> g.x.op == g.q.calls[g.q.worker.job].op)
    && (g.x.Holding? ==> g.link == Replay(origin, g.log))
    && (InSection(g.x) ==> Completion(g.x, g.link) == Perform(Replay(origin, g.log), g.q.calls[g.q.worker.job].op))
    && (!InSection(g.x) ==>
          g.link == if g.closer.CloserDone? then Perform(Replay(origin, g.log), Close).0 else Replay(origin, g.log))
  }

  ghost predicate LogSound(origin: Link, g: State) {
    && g.q.started == Jobs(g.log) + (if g.q.worker.Executing? && !g.x.Left? then [g.q.worker.job] else [])
    && (forall k :: 0 <= k < |g.log| ==> Answered(origin, g.log, k))
    && (forall k :: 0 <= k < |g.log| ==> EntryOf(g, g.log[k]))
    && (g.q.worker.Executing? && g.x.Left? ==> InLog(g, g.q.worker.job, g.x.answer))
    && (g.q.worker.Finishing? && g.q.worker.result.Executed? ==> InLog(g, g.q.worker.job, g.q.worker.result.answer))
    && FinishesIn(g)
  }

  predicate EntryOf(g: State, e: Entry) {
    if e.job.None? then e.op.Close? else e.job.value in g.q.calls && e.op == g.q.calls[e.job.value].op
  }

  /** The answer a job got is the one in its log entry. */
  ghost predicate InLog(g: State, id: Q.Id, answer: Answer) {
    id in g.q.calls && exists k :: 0 <= k < |g.log| && g.log[k] == Entry(Some(id), g.q.calls[id].op, answer)
  }

  ghost predicate Booted(g: State) {
    && StartsOnce(Ops(g.log))
    && match g.boot
       case NotStarted => g.q.calls == map[] && g.q.ended == {} && g.log == [] && QuietStart(g)
       case Connecting(b) =>
         && g.q.calls.Keys == {b} && QuietStart(g)
         && (forall k :: 0 <= k < |g.log| ==> g.log[k].job == Some(b))
         && FirstCall(g, b) && Q.Leaves(g.q.calls[b].pc) != Some(Q.Busy)
       case Serving(b) => FirstCall(g, b) && |g.log| > 0 && g.log[0].job == Some(b)
  }

  ghost predicate QuietStart(g: State) {
    g.q.phase.NotStopping? && !g.q.closed && g.closer.NoCloser? && g.q.stops == map[]
  }

  /** The first call, and no other, is the initial connect; its context never ends. */
  ghost predicate FirstCall(g: State, b: Q.Id) {
    && b in g.q.calls && b !in g.q.ended
    && (forall id :: id in g.q.calls ==> (g.q.calls[id].op.InitialConnect? <==> id == b) && !g.q.calls[id].op.Close?)
  }

  ghost predicate Inv(origin: Link, g: State) {
    Q.Inv(g.q) && Linearized(origin, g) && LogSound(origin, g) && Booted(g)
  }

  lemma InitInv(capacity: nat, mem: Memory, faults: seq<Fault>)
    requires 1 <= capacity
    ensures Inv(Disconnected(mem, faults), Init(capacity, mem, faults))
  {
    Q.InitInv(capacity);
  }

  ghost predicate OpsKept(q: Q.State, q': Q.State) {
    forall id :: id in q.calls ==> id in q'.calls && q'.calls[id].op == q.calls[id].op
  }

  // What is in the log stays there as calls come and go and further sections are added.
  lemma LogKept(g: State, g': State)
    requires g.log <= g'.log && OpsKept(g.q, g'.q)
    ensures forall id, answer :: InLog(g, id, answer) ==> InLog(g', id, answer)
    ensures forall e :: EntryOf(g, e) ==> EntryOf(g', e)
  {
    forall id, answer | InLog(g, id, answer)
      ensures InLog(g', id, answer)
    {
      var k :| 0 <= k < |g.log| && g.log[k] == Entry(Some(id), g.q.calls[id].op, answer);
      assert g'.log[k] == Entry(Some(id), g'.q.calls[id].op, answer);
    }
  }

  // ---- Queue steps ----

  lemma CallerFrame(q: Q.State, c: Q.CallerAction)
    requires Q.CallerEnabled(q, c)
    ensures var q' := Q.CallerStep(q, c);
            && OpsKept(q, q') && q'.worker == q.worker && q'.finished == q.finished && q'.started == q.started
            && q'.phase == q.phase && q'.closed == q.closed && q'.stops == q.stops
            && q'.calls.Keys == q.calls.Keys + (if c.Arrive? then {c.id} else {})
            && q'.ended == q.ended + (if c.EndContext? then {c.id} else {})
            && (c.Arrive? ==> q'.calls[c.id].op == c.op)
  {
  }

  lemma CallerKeeps(origin: Link, g: State, c: Q.CallerAction)
    requires Inv(origin, g) && Enabled(g, Queue(Q.Caller(c)))
    ensures Inv(origin, Step(g, Queue(Q.Caller(c))))
  {
    var g' := Step(g, Queue(Q.Caller(c)));
    Q.CallerKeeps(g.q, c);
    CallerFrame(g.q, c);
    assert g'.q == Q.CallerStep(g.q, c);
    LinearizedKept(origin, g, g');
    CallerLogSound(origin, g, g');
    CallerBooted(g, c);
  }

  lemma LinearizedKept(origin: Link, g: State, g': State)
    requires Linearized(origin, g) && OpsKept(g.q, g'.q) && g'.q.worker == g.q.worker
    requires g'.log == g.log && g'.x == g.x && g'.link == g.link && g'.closer == g.closer
    ensures Linearized(origin, g')
  {
  }

  lemma CallerLogSound(origin: Link, g: State, g': State)
    requires LogSound(origin, g) && OpsKept(g.q, g'.q) && g'.log == g.log && g'.x == g.x
    requires g'.q.worker == g.q.worker && g'.q.finished == g.q.finished && g'.q.started == g.q.started
    ensures LogSound(origin, g')
  {
    LogKept(g, g');
  }

  lemma CallerBooted(g: State, c: Q.CallerAction)
    requires Q.Inv(g.q) && Booted(g) && Enabled(g, Queue(Q.Caller(c)))
    ensures Booted(Step(g, Queue(Q.Caller(c))))
  {
    CallerFrame(g.q, c);
    var g' := Step(g, Queue(Q.Caller(c)));
    assert g'.q == Q.CallerStep(g.q, c);
    if g.boot.Connecting? {
      FirstNotBusy(g.q, c, g.boot.first);
    }
  }

  // The queue cannot be full while the first call is the only one there is.
  lemma FirstNotBusy(q: Q.State, c: Q.CallerAction, b: Q.Id)
    requires Q.Inv(q) && Q.CallerEnabled(q, c) && q.calls.Keys == {b} && !c.Arrive?
    requires Q.Leaves(q.calls[b].pc) != Some(Q.Busy)
    ensures Q.Leaves(Q.CallerStep(q, c).calls[b].pc) != Some(Q.Busy)
  {
    if c.SelectDefault? {
      Q.BufferAccepted(q);
    } else if c.Receive? && c.id == b {
      var k :| 0 <= k < |q.finished| && q.finished[k] == Q.Finish(b, q.results[b], true);
      assert Q.FinishKept(q, q.finished[k]);
    }
  }

  lemma StopFrame(q: Q.State, t: Q.StopAction)
    requires Q.StopEnabled(q, t)
    ensures var q' := Q.StopStep(q, t);
            && q'.calls == q.calls && q'.worker == q.worker && q'.finished == q.finished && q'.started == q.started
            && q'.ended == q.ended
  {
  }

  lemma StopKeeps(origin: Link, g: State, t: Q.StopAction)
    requires Inv(origin, g) && Enabled(g, Queue(Q.Stop(t)))
    ensures Inv(origin, Step(g, Queue(Q.Stop(t))))
  {
    var g' := Step(g, Queue(Q.Stop(t)));
    Q.StopKeeps(g.q, t);
    StopFrame(g.q, t);
    CallerLogSound(origin, g, g');
    assert Linearized(origin, g');
    assert Booted(g');
  }

  lemma MeterKeeps(origin: Link, g: State, m: Q.MeterAction)
    requires Inv(origin, g) && Enabled(g, Queue(Q.Meter(m)))
    ensures Inv(origin, Step(g, Queue(Q.Meter(m))))
  {
    var g' := Step(g, Queue(Q.Meter(m)));
    Q.MeterKeeps(g.q, m);
    CallerLogSound(origin, g, g');
    assert Linearized(origin, g');
    assert Booted(g');
  }

  lemma WorkerFrame(q: Q.State, w: Q.WorkerAction)
    requires Q.WorkerEnabled(q, w)
    ensures var q' := Q.WorkerStep(q, w);
            && q'.calls == q.calls && q'.ended == q.ended
            && q'.phase == q.phase && q'.closed == q.closed && q'.stops == q.stops
  {
    match w
    case SendResult =>
    case SkipResult =>
    case TestContext =>
    case WorkerUnlock =>
    case _ =>
  }

  lemma WorkerFinished(q: Q.State, w: Q.WorkerAction)
    requires Q.WorkerEnabled(q, w)
    ensures Q.WorkerStep(q, w).finished == q.finished +
            if w.SendResult? || w.SkipResult? then [Q.Finish(q.worker.job, q.worker.result, w.SendResult?)] else []
  {
    match w
    case SendResult =>
    case SkipResult =>
    case TestContext =>
    case WorkerUnlock =>
    case _ =>
  }

  lemma WorkerStarts(q: Q.State, w: Q.WorkerAction)
    requires Q.WorkerEnabled(q, w)
    ensures var q' := Q.WorkerStep(q, w);
            && (q'.worker.Executing? ==> w.TestContext? && q'.started == q.started + [q'.worker.job])
            && (!q'.worker.Executing? ==> q'.started == q.started)
  {
    match w
    case SendResult =>
    case SkipResult =>
    case TestContext =>
    case WorkerUnlock =>
    case _ =>
  }

  lemma WorkerReturns(q: Q.State, w: Q.WorkerAction)
    requires Q.WorkerEnabled(q, w)
    ensures var q' := Q.WorkerStep(q, w);
            && (q.worker.Executing? <==> w.FinishExecute?)
            && (w.FinishExecute? ==> q'.worker == Q.Finishing(q.worker.job, Q.Executed(w.answer), false))
            && (q'.worker.Finishing? && q'.worker.result.Executed? ==> w.FinishExecute?)
  {
  }

  lemma WorkerKeeps(origin: Link, g: State, w: Q.WorkerAction)
    requires Inv(origin, g) && Enabled(g, Queue(Q.Worker(w)))
    ensures Inv(origin, Step(g, Queue(Q.Worker(w))))
  {
    Q.WorkerKeeps(g.q, w);
    WorkerFrame(g.q, w);
    WorkerLinearized(origin, g, w);
    WorkerLogSound(origin, g, w);
    assert Booted(Step(g, Queue(Q.Worker(w))));
  }

  // The job a worker holds was accepted, so the call it belongs to is known.
  lemma HandIsKnown(q: Q.State)
    requires Q.Order(q) && Q.AcceptedOnce(q) && Q.InHand(q.worker) != []
    ensures Q.InHand(q.worker)[0] in q.calls
  {
    Q.Positions(q);
    assert Q.InHand(q.worker)[0] in q.accepted;
  }

  lemma WorkerLinearized(origin: Link, g: State, w: Q.WorkerAction)
    requires Inv(origin, g) && Enabled(g, Queue(Q.Worker(w)))
    ensures Linearized(origin, Step(g, Queue(Q.Worker(w))))
  {
    WorkerFrame(g.q, w);
    WorkerStarts(g.q, w);
    WorkerReturns(g.q, w);
    var g' := Step(g, Queue(Q.Worker(w)));
    assert g'.q == Q.WorkerStep(g.q, w);
    match w {
      case TestContext => StartLinearized(origin, g, g');
      case FinishExecute(answer) =>
      case _ => OutsideLinearized(origin, g, g');
    }
  }

  // A job that starts waits for the mutex with its own operation.
  lemma StartLinearized(origin: Link, g: State, g': State)
    requires Inv(origin, g) && g.q.worker.Accepted? && g'.q.calls == g.q.calls
    requires g'.log == g.log && g'.link == g.link && g'.closer == g.closer
    requires g'.q.worker.Executing? ==> g'.q.worker.job == g.q.worker.job
    requires var w := g'.q.worker;
             g'.x == if w.Executing? && w.job in g'.q.calls then AtMutex(g'.q.calls[w.job].op) else g.x
    ensures Linearized(origin, g')
  {
    HandIsKnown(g.q);
    assert !g.q.calls[g.q.worker.job].op.Close? by {
      assert Booted(g);
    }
  }

  lemma OutsideLinearized(origin: Link, g: State, g': State)
    requires Linearized(origin, g) && !g.q.worker.Executing? && !g'.q.worker.Executing?
    requires g'.x == g.x && g'.log == g.log && g'.link == g.link && g'.closer == g.closer
    ensures Linearized(origin, g')
  {
  }

  lemma WorkerLogSound(origin: Link, g: State, w: Q.WorkerAction)
    requires Inv(origin, g) && Enabled(g, Queue(Q.Worker(w)))
    ensures LogSound(origin, Step(g, Queue(Q.Worker(w))))
  {
    WorkerFrame(g.q, w);
    WorkerStarts(g.q, w);
    WorkerReturns(g.q, w);
    WorkerFinished(g.q, w);
    var g' := Step(g, Queue(Q.Worker(w)));
    assert g'.q == Q.WorkerStep(g.q, w);
    FinishesLogged(origin, g, g', w);
    match w {
      case TestContext => StartLogSound(origin, g, g');
      case FinishExecute(answer) => ReturnLogSound(origin, g, g', answer);
      case _ => OutsideLogSound(origin, g, g');
    }
  }

  /** Every finish with an answer is in the log. */
  ghost predicate FinishesIn(g: State) {
    forall k :: 0 <= k < |g.q.finished| && g.q.finished[k].result.Executed? ==>
      InLog(g, g.q.finished[k].id, g.q.finished[k].result.answer)
  }

  lemma StartLogSound(origin: Link, g: State, g': State)
    requires LogSound(origin, g) && g.q.worker.Accepted? && g'.q.calls == g.q.calls && g'.log == g.log && FinishesIn(g')
    requires var w := g'.q.worker;
             if w.Executing? then g'.q.started == g.q.started + [w.job] && !g'.x.Left?
             else g'.q.started == g.q.started && !(w.Finishing? && w.result.Executed?)
    ensures LogSound(origin, g')
  {
    LogKept(g, g');
  }

  lemma ReturnLogSound(origin: Link, g: State, g': State, answer: Answer)
    requires LogSound(origin, g) && g.q.worker.Executing? && g.x == Left(answer)
    requires g'.q.calls == g.q.calls && g'.log == g.log && FinishesIn(g') && g'.q.started == g.q.started
    requires g'.q.worker == Q.Finishing(g.q.worker.job, Q.Executed(answer), false)
    ensures LogSound(origin, g')
  {
    LogKept(g, g');
  }

  lemma OutsideLogSound(origin: Link, g: State, g': State)
    requires LogSound(origin, g) && !g.q.worker.Executing? && !g'.q.worker.Executing?
    requires g'.q.calls == g.q.calls && g'.log == g.log && FinishesIn(g') && g'.q.started == g.q.started
    requires !(g'.q.worker.Finishing? && g'.q.worker.result.Executed?)
    ensures LogSound(origin, g')
  {
    LogKept(g, g');
  }

  // The job that is finished with an answer has its section in the log already.
  lemma FinishesLogged(origin: Link, g: State, g': State, w: Q.WorkerAction)
    requires LogSound(origin, g) && Q.WorkerEnabled(g.q, w) && g'.q.calls == g.q.calls && g'.log == g.log
    requires g'.q.finished == g.q.finished +
             if w.SendResult? || w.SkipResult? then [Q.Finish(g.q.worker.job, g.q.worker.result, w.SendResult?)] else []
    ensures FinishesIn(g')
  {
    LogKept(g, g');
    forall k | 0 <= k < |g'.q.finished| && g'.q.finished[k].result.Executed?
      ensures InLog(g', g'.q.finished[k].id, g'.q.finished[k].result.answer)
    {
      if k < |g.q.finished| {
        assert g'.q.finished[k] == g.q.finished[k];
      }
    }
  }

  // ---- Job steps ----

  lemma JobStepKeeps(origin: Link, g: State)
    requires Inv(origin, g) && Enabled(g, JobStep)
    ensures Inv(origin, Step(g, JobStep))
  {
    if g.x.Leaving? {
      LeaveLinearized(origin, g);
      LeaveLogSound(origin, g);
      LeaveBooted(origin, g);
    } else {
      JobStepLinearized(origin, g);
      JobStepLogSound(origin, g);
    }
  }

  lemma JobStepLinearized(origin: Link, g: State)
    requires Linearized(origin, g) && Enabled(g, JobStep) && !g.x.Leaving?
    ensures Linearized(origin, Step(g, JobStep))
  {
    ExecStepCompletes(g.x, g.link);
    var g' := Step(g, JobStep);
    assert InSection(g'.x);
  }

  lemma JobStepLogSound(origin: Link, g: State)
    requires LogSound(origin, g) && Enabled(g, JobStep) && !g.x.Leaving?
    ensures LogSound(origin, Step(g, JobStep)) && Step(g, JobStep).log == g.log
  {
    LogKept(g, Step(g, JobStep));
  }

  function LeaveEntry(g: State): Entry
    requires g.x.Leaving? && g.q.worker.Executing? && g.q.worker.job in g.q.calls
  {
    Entry(Some(g.q.worker.job), g.q.calls[g.q.worker.job].op, g.x.answer)
  }

  // Releasing the mutex is where the job takes its place among the sections.
  lemma LeaveLinearized(origin: Link, g: State)
    requires Linearized(origin, g) && Enabled(g, JobStep) && g.x.Leaving?
    ensures Linearized(origin, Step(g, JobStep))
    ensures Step(g, JobStep).log == g.log + [LeaveEntry(g)]
  {
    ReplaySnoc(origin, g.log, LeaveEntry(g));
  }

  lemma LeaveLogSound(origin: Link, g: State)
    requires Linearized(origin, g) && LogSound(origin, g) && Enabled(g, JobStep) && g.x.Leaving?
    ensures LogSound(origin, Step(g, JobStep))
  {
    var e := LeaveEntry(g);
    assert e.answer == Perform(Replay(origin, g.log), e.op).1;
    LeaveStep(g);
    LoggedAfter(origin, g, Step(g, JobStep), e);
  }

  lemma LeaveStep(g: State)
    requires Enabled(g, JobStep) && g.x.Leaving? && g.q.worker.job in g.q.calls
    ensures var g' := Step(g, JobStep); g'.q == g.q && g'.x == Left(g.x.answer) && g'.log == g.log + [LeaveEntry(g)]
  {
  }

  lemma LoggedAfter(origin: Link, g: State, g': State, e: Entry)
    requires LogSound(origin, g) && g.q.worker.Executing? && g.q.worker.job in g.q.calls
    requires g.x.Leaving? && e == LeaveEntry(g)
    requires g'.q == g.q && g'.x == Left(g.x.answer) && g'.log == g.log + [e]
    requires e.answer == Perform(Replay(origin, g.log), e.op).1
    ensures LogSound(origin, g')
  {
    ReplaySnoc(origin, g.log, e);
    LogKept(g, g');
    assert g'.log[|g.log|] == e;
    AnsweredSnoc(origin, g.log, e);
  }

  lemma AnsweredSnoc(origin: Link, log: seq<Entry>, e: Entry)
    requires forall k :: 0 <= k < |log| ==> Answered(origin, log, k)
    requires e.answer == Perform(Replay(origin, log), e.op).1
    ensures forall k :: 0 <= k < |log + [e]| ==> Answered(origin, log + [e], k)
  {
    forall k | 0 <= k < |log + [e]|
      ensures Answered(origin, log + [e], k)
    {
      assert (log + [e])[..k] == log[..k];
      if k < |log| {
        assert Answered(origin, log, k);
      } else {
        assert log[..k] == log;
      }
    }
  }

  lemma {:induction false} JobsIn(log: seq<Entry>, k: nat)
    requires k < |log| && log[k].job.Some?
    ensures log[k].job.value in Jobs(log)
    decreases |log|
  {
    var n := |log| - 1;
    if k < n {
      JobsIn(log[..n], k);
    }
  }

  lemma StartsOnceSnoc(log: seq<Entry>, e: Entry)
    requires StartsOnce(Ops(log)) && (log == [] || !e.op.InitialConnect?)
    ensures StartsOnce(Ops(log + [e]))
  {
    forall i | 0 < i < |log + [e]|
      ensures !Ops(log + [e])[i].InitialConnect?
    {
      assert i < |log| ==> Ops(log + [e])[i] == Ops(log)[i];
    }
  }

  // A job that has not left has no section in the log yet.
  lemma UnloggedJob(origin: Link, g: State, k: nat)
    requires Q.Inv(g.q) && LogSound(origin, g) && g.q.worker.Executing? && !g.x.Left?
    requires k < |g.log|
    ensures g.log[k].job != Some(g.q.worker.job)
  {
    var p := Q.StartedInOrder(g.q);
    var jobs := Jobs(g.log);
    assert g.q.started == jobs + [g.q.worker.job];
    if g.log[k].job.Some? {
      JobsIn(g.log, k);
      var i :| 0 <= i < |jobs| && jobs[i] == g.log[k].job.value;
      assert g.q.started[i] != g.q.started[|jobs|];
    }
  }

  // The initial connect is the first section, because no other job is accepted before it returns.
  lemma LeaveBooted(origin: Link, g: State)
    requires Inv(origin, g) && Enabled(g, JobStep) && g.x.Leaving?
    ensures Booted(Step(g, JobStep))
  {
    var g', e := Step(g, JobStep), LeaveEntry(g);
    assert g'.log == g.log + [e];
    if g.log != [] {
      UnloggedJob(origin, g, 0);
    }
    StartsOnceSnoc(g.log, e);
  }

  // ---- Close and startup ----

  lemma CloseKeeps(origin: Link, g: State, a: Action)
    requires Inv(origin, g) && Enabled(g, a) && (a.CloseLock? || a.CloseBody? || a.CloseUnlock?)
    ensures Inv(origin, Step(g, a))
  {
    if a.CloseUnlock? {
      CloseUnlockKeeps(origin, g);
    } else {
      CallerLogSound(origin, g, Step(g, a));
      assert Booted(Step(g, a));
    }
  }

  lemma CloseUnlockKeeps(origin: Link, g: State)
    requires Inv(origin, g) && Enabled(g, CloseUnlock)
    ensures Inv(origin, Step(g, CloseUnlock))
  {
    var g', e := Step(g, CloseUnlock), Entry(None, Close, Success([]));
    ReplaySnoc(origin, g.log, e);
    AnsweredSnoc(origin, g.log, e);
    LogKept(g, g');
    StartsOnceSnoc(g.log, e);
    assert g'.q == g.q && g'.log == g.log + [e];
  }

  lemma ServeKeeps(origin: Link, g: State)
    requires Inv(origin, g) && Enabled(g, Serve)
    ensures Inv(origin, Step(g, Serve))
  {
    var g', b := Step(g, Serve), g.boot.first;
    CallerLogSound(origin, g, g');
    FirstSectionLogged(origin, g, b);
    assert Linearized(origin, g') && Booted(g');
  }

  // When the first call returns, its connect is in the log.
  lemma FirstSectionLogged(origin: Link, g: State, b: Q.Id)
    requires Q.Inv(g.q) && LogSound(origin, g) && Booted(g) && g.boot == Connecting(b)
    requires g.q.calls[b].pc.Returned?
    ensures g.log != []
  {
    Q.CallerGetsItsOwn(g.q, b);
    var r := g.q.calls[b].pc.result;
    var k :| 0 <= k < |g.q.finished| && g.q.finished[k] == Q.Finish(b, r, true);
    assert InLog(g, b, r.answer);
  }

  lemma StepKeeps(origin: Link, g: State, a: Action)
    requires Inv(origin, g) && Enabled(g, a)
    ensures Inv(origin, Step(g, a))
  {
    match a
    case Queue(Caller(c)) => CallerKeeps(origin, g, c);
    case Queue(Worker(w)) => WorkerKeeps(origin, g, w);
    case Queue(Stop(t)) => StopKeeps(origin, g, t);
    case Queue(Meter(m)) => MeterKeeps(origin, g, m);
    case JobStep => JobStepKeeps(origin, g);
    case Serve => ServeKeeps(origin, g);
    case _ => CloseKeeps(origin, g, a);
  }

  lemma {:induction false} RunKeeps(origin: Link, g: State, actions: seq<Action>)
    requires Inv(origin, g) && Legal(g, actions)
    ensures Inv(origin, Run(g, actions))
    decreases |actions|
  {
    if actions != [] {
      StepKeeps(origin, g, actions[0]);
      RunKeeps(origin, Step(g, actions[0]), actions[1..]);
    }
  }

  /** A state that some run reaches. */
  ghost predicate Reached(capacity: nat, mem: Memory, faults: seq<Fault>, actions: seq<Action>) {
    1 <= capacity && Legal(Init(capacity, mem, faults), actions)
  }

  lemma ReachedInv(capacity: nat, mem: Memory, faults: seq<Fault>, actions: seq<Action>)
    requires Reached(capacity, mem, faults, actions)
    ensures Inv(Disconnected(mem, faults), Run(Init(capacity, mem, faults), actions))
  {
    InitInv(capacity, mem, faults);
    RunKeeps(Disconnected(mem, faults), Init(capacity, mem, faults), actions);
  }

  // ---- Serial effects ----

  /** `l'` comes after `l`: the record of the network and the request counter only grow. */
  ghost predicate Grew(l: Link, l': Link) {
    l.events <= l'.events && l.requests <= l'.requests
  }

  lemma {:induction false} ProgramGrows(conn: nat, p: Program, s: Session)
    ensures s.events <= RunProgram(conn, p, s).events
    decreases |p|
  {
    if p != [] {
      ProgramGrows(conn, p[1..], RunInstr(conn, p[0], s));
    }
  }

  lemma ExecStepGrows(x: Exec, l: Link)
    requires WellPlaced(x, l) && !x.Idle? && !x.Left?
    ensures Grew(l, ExecStep(x, l).1)
  {
    match x
    case AtMutex(_) =>
    case Holding(_) =>
    case Dialing(_) =>
    case Admitting(_) =>
    case Running(_, _, _) =>
    case Storing(_, _, _, _) =>
    case Timing(_, _) =>
    case Settling(_, _) =>
    case ResetSending =>
    case ResetTiming(_) =>
    case ResetClosing(_) =>
    case ResetSettling(_) =>
    case Leaving(_) =>
  }

  lemma AdmitGrows(l: Link, op: Op)
    requires l.conn.Some? && (op.Do? || op.Reset?)
    ensures Grew(l, Admit(l, op).0)
  {
    if op.Do? {
      ProgramGrows(l.conn.value, op.program, Start(l.mem, l.faults, l.events));
    }
  }

  lemma CompletionGrows(x: Exec, l: Link)
    requires WellPlaced(x, l) && !x.Idle? && !x.AtMutex?
    ensures Grew(l, Completion(x, l).0)
  {
    match x
    case Holding(op) =>
      if !op.InitialConnect? && Ready(l).conn.Some? {
        AdmitGrows(Ready(l), op);
      }
    case Dialing(op) =>
      if Connect(l).conn.Some? {
        AdmitGrows(Connect(l), op);
      }
    case Admitting(op) => AdmitGrows(l, op);
    case Running(rest, replies, outcome) => ProgramGrows(l.conn.value, rest, SessionOf(l, replies, outcome));
    case Storing(at, w, rest, replies) =>
      ProgramGrows(l.conn.value, rest, Transmit(l.conn.value, WriteWords(at, [w]), SessionOf(l, replies, Fine)));
    case Timing(_, _) =>
    case Settling(_, _) =>
    case ResetSending =>
    case ResetTiming(_) =>
    case ResetClosing(_) =>
    case ResetSettling(_) =>
    case Leaving(_) =>
    case Left(_) =>
  }

  /** The section in progress has only added to what the sections before it left. */
  ghost predicate Ahead(origin: Link, g: State) {
    InSection(g.x) ==> Grew(Replay(origin, g.log), g.link)
  }

  lemma StepAhead(origin: Link, g: State, a: Action)
    requires Inv(origin, g) && Ahead(origin, g) && Enabled(g, a)
    ensures Ahead(origin, Step(g, a))
  {
    StepKeeps(origin, g, a);
    if a.JobStep? {
      ExecStepGrows(g.x, g.link);
    } else if InSection(g.x) {
      SectionUndisturbed(origin, g, a);
    } else {
      SectionsBegin(g, a);
    }
  }

  // Only a step of the executing job begins a section.
  lemma SectionsBegin(g: State, a: Action)
    requires Enabled(g, a) && !a.JobStep? && !InSection(g.x)
    ensures !InSection(Step(g, a).x)
  {
  }

  // While a job holds the mutex, for instance between the read and the write of a register, no
  // other step of the gateway touches the link or the job.
  lemma SectionUndisturbed(origin: Link, g: State, a: Action)
    requires Inv(origin, g) && InSection(g.x) && Enabled(g, a) && a != JobStep
    ensures Step(g, a).link == g.link && Step(g, a).x == g.x && Step(g, a).log == g.log
  {
  }

  lemma {:induction false} RunAhead(origin: Link, g: State, actions: seq<Action>)
    requires Inv(origin, g) && Ahead(origin, g) && Legal(g, actions)
    ensures Ahead(origin, Run(g, actions))
    decreases |actions|
  {
    if actions != [] {
      StepKeeps(origin, g, actions[0]);
      StepAhead(origin, g, actions[0]);
      RunAhead(origin, Step(g, actions[0]), actions[1..]);
    }
  }

  /** The operation that is inside its critical section, if any. */
  function Current(g: State): Option<Op> {
    if InSection(g.x) && g.q.worker.Executing? && g.q.worker.job in g.q.calls then Some(g.q.calls[g.q.worker.job].op)
    else if g.closer.CloserDone? then Some(Close)
    else None
  }

  // Whatever the interleaving, in every reachable state the whole link (memory, connection,
  // counters, record of the network) is what the sections so far leave when each is performed
  // whole and alone, plus the calls of at most one operation in progress: what is on record goes
  // on from the sections before it and stays within what it will have done when it is over. The
  // jobs among the sections are the started ones, in acceptance order.
  lemma SerialEffects(capacity: nat, mem: Memory, faults: seq<Fault>, actions: seq<Action>) returns (p: seq<nat>)
    requires Reached(capacity, mem, faults, actions)
    ensures var g := Run(Init(capacity, mem, faults), actions);
            var before := PerformAll(Disconnected(mem, faults), Ops(g.log));
            && (Current(g).None? ==> !InSection(g.x) && g.link == before)
            && (Current(g).Some? ==>
                  before.events <= g.link.events <= Perform(before, Current(g).value).0.events)
            && (g.closer.CloserDone? ==> g.link == Perform(before, Close).0)
            && Jobs(g.log) <= g.q.started && |g.q.started| <= |Jobs(g.log)| + 1
            && Q.StandsAt(g.q.started, g.q.accepted, p)
    ensures var l := Run(Init(capacity, mem, faults), actions).link; l.mem == Acknowledged(mem, l.events)
  {
    var g, origin := Run(Init(capacity, mem, faults), actions), Disconnected(mem, faults);
    ReachedInv(capacity, mem, faults, actions);
    p := Q.StartedInOrder(g.q);
    LedgerBalanced(capacity, mem, faults, actions);
    InitInv(capacity, mem, faults);
    RunAhead(origin, Init(capacity, mem, faults), actions);
    if InSection(g.x) {
      CompletionGrows(g.x, g.link);
    }
  }

  // A caller that gets an answer gets the one its own operation has at its place in that order.
  lemma AnswersAreSerial(capacity: nat, mem: Memory, faults: seq<Fault>, actions: seq<Action>, id: Q.Id, answer: Answer)
    returns (k: nat)
    requires Reached(capacity, mem, faults, actions)
    requires var g := Run(Init(capacity, mem, faults), actions);
             id in g.q.calls && Q.Leaves(g.q.calls[id].pc) == Some(Q.Executed(answer))
    ensures var g := Run(Init(capacity, mem, faults), actions);
            && k < |g.log| && g.log[k].job == Some(id) && g.log[k].op == g.q.calls[id].op
            && answer == Perform(PerformAll(Disconnected(mem, faults), Ops(g.log[..k])), g.q.calls[id].op).1
  {
    ReachedInv(capacity, mem, faults, actions);
    var g := Run(Init(capacity, mem, faults), actions);
    assert Q.Honest(g.q, id, Q.Executed(answer));
    var i :| 0 <= i < |g.q.finished| && g.q.finished[i] == Q.Finish(id, Q.Executed(answer), true);
    assert InLog(g, id, answer);
    k :| 0 <= k < |g.log| && g.log[k] == Entry(Some(id), g.q.calls[id].op, answer);
    assert Answered(Disconnected(mem, faults), g.log, k);
  }

  lemma {:induction false} LogGrows(g: State, actions: seq<Action>)
    requires Legal(g, actions)
    ensures g.log <= Run(g, actions).log
    decreases |actions|
  {
    if actions != [] {
      LogGrows(Step(g, actions[0]), actions[1..]);
    }
  }

  // The serial order respects real time: a call that has its answer comes before every call that
  // has not been made yet.
  lemma RealTimeOrder(origin: Link, g: State, actions: seq<Action>, a: Q.Id, answer: Answer, b: Q.Id, j: nat)
    returns (k: nat)
    requires Inv(origin, g) && Legal(g, actions)
    requires a in g.q.calls && Q.Leaves(g.q.calls[a].pc) == Some(Q.Executed(answer)) && b !in g.q.calls
    requires j < |Run(g, actions).log| && Run(g, actions).log[j].job == Some(b)
    ensures k < j && Run(g, actions).log[k].job == Some(a) && Run(g, actions).log[k].answer == answer
  {
    LogGrows(g, actions);
    assert Q.Honest(g.q, a, Q.Executed(answer));
    var i :| 0 <= i < |g.q.finished| && g.q.finished[i] == Q.Finish(a, Q.Executed(answer), true);
    assert InLog(g, a, answer);
    k :| 0 <= k < |g.log| && g.log[k] == Entry(Some(a), g.q.calls[a].op, answer);
    assert forall i :: 0 <= i < |g.log| && EntryOf(g, g.log[i]) ==> g.log[i].job != Some(b);
  }

  // ---- The ledger in every state ----

  // A single step of a job keeps the ledger balanced, except for a connect over an open connection.
  lemma ExecStepConsistent(mem: Memory, x: Exec, l: Link)
    requires WellPlaced(x, l) && !x.Idle? && !x.Left? && Consistent(mem, l)
    requires x.Holding? && x.op.InitialConnect? ==> l.conn.None?
    ensures Consistent(mem, ExecStep(x, l).1)
  {
    match x {
      case Holding(op) =>
        ConnectConsistent(mem, l);
      case Dialing(op) =>
        ConnectConsistent(mem, l);
      case Running(rest, replies, outcome) =>
        if rest != [] && outcome == Fine {
          match rest[0]
          case Issue(c) => TransmitConsistent(mem, l, c, SessionOf(l, replies, Fine));
          case Modify(at, edits) => TransmitConsistent(mem, l, ReadWords(at, 1), SessionOf(l, replies, Fine));
        }
      case Storing(at, w, rest, replies) =>
        TransmitConsistent(mem, l, WriteWords(at, [w]), SessionOf(l, replies, Fine));
      case Settling(outcome, replies) =>
        if outcome == Lost {
          DropConsistent(mem, l.(errors := l.errors + 1));
        }
      case ResetSending =>
        TransmitConsistent(mem, l, Remote(RemoteReset), SessionOf(l, [], Fine));
      case ResetClosing(outcome) =>
        DropConsistent(mem, l);
      case _ =>
    }
  }

  // The initial connect always finds nothing open.
  lemma FirstConnectIsFresh(mem: Memory, faults: seq<Fault>, g: State)
    requires Inv(Disconnected(mem, faults), g) && g.x.Holding? && g.x.op.InitialConnect?
    ensures g.link.conn.None?
  {
    if g.log != [] {
      UnloggedJob(Disconnected(mem, faults), g, 0);
    }
  }

  lemma StepConsistent(mem: Memory, faults: seq<Fault>, g: State, a: Action)
    requires Inv(Disconnected(mem, faults), g) && Enabled(g, a) && Consistent(mem, g.link)
    ensures Consistent(mem, Step(g, a).link)
  {
    match a
    case JobStep =>
      if g.x.Holding? && g.x.op.InitialConnect? {
        FirstConnectIsFresh(mem, faults, g);
      }
      ExecStepConsistent(mem, g.x, g.link);
    case CloseBody => PerformConsistent(mem, g.link, Close);
    case _ => LinkUntouched(g, a);
  }

  lemma LinkUntouched(g: State, a: Action)
    requires Enabled(g, a) && !a.JobStep? && !a.CloseBody?
    ensures Step(g, a).link == g.link
  {
  }

  lemma {:induction false} RunConsistent(mem: Memory, faults: seq<Fault>, g: State, actions: seq<Action>)
    requires Inv(Disconnected(mem, faults), g) && Legal(g, actions) && Consistent(mem, g.link)
    ensures Consistent(mem, Run(g, actions).link)
    decreases |actions|
  {
    if actions != [] {
      StepKeeps(Disconnected(mem, faults), g, actions[0]);
      StepConsistent(mem, faults, g, actions[0]);
      RunConsistent(mem, faults, Step(g, actions[0]), actions[1..]);
    }
  }

  // In every reachable state, in the middle of a job or not, no connection has been opened over
  // another, used or closed when it was not open, and the device memory is what the acknowledged
  // calls, one after the other, have made it.
  lemma LedgerBalanced(capacity: nat, mem: Memory, faults: seq<Fault>, actions: seq<Action>)
    requires Reached(capacity, mem, faults, actions)
    ensures var l := Run(Init(capacity, mem, faults), actions).link;
            && Consistent(mem, l)
            && Opens(l.events) - Shuts(l.events) == (if l.conn.Some? then 1 else 0)
  {
    InitInv(capacity, mem, faults);
    RunConsistent(mem, faults, Init(capacity, mem, faults), actions);
    LedgerCounts(Run(Init(capacity, mem, faults), actions).link.events);
  }

  function AnswersIn(log: seq<Entry>): seq<Answer> {
    seq(|log|, i requires 0 <= i < |log| => log[i].answer)
  }

  lemma {:induction false} AnswersReplayed(origin: Link, log: seq<Entry>)
    requires forall k :: 0 <= k < |log| ==> Answered(origin, log, k)
    ensures AnswersOf(origin, Ops(log)) == AnswersIn(log)
    decreases |log|
  {
    if log != [] {
      var n := |log| - 1;
      assert Answered(origin, log, n) && Ops(log)[..n] == Ops(log[..n]);
      forall k | 0 <= k < n
        ensures Answered(origin, log[..n], k)
      {
        assert Answered(origin, log, k) && log[..n][..k] == log[..k];
      }
      AnswersReplayed(origin, log[..n]);
    }
  }

  lemma FirstSection(origin: Link, g: State)
    requires LogSound(origin, g) && Booted(g) && g.log != []
    ensures Ops(g.log)[0].InitialConnect?
  {
    assert EntryOf(g, g.log[0]);
  }

  lemma {:induction false} DialFailuresGrow(es: seq<Event>, es': seq<Event>)
    requires es <= es'
    ensures DialFailures(es) <= DialFailures(es')
    decreases |es'|
  {
    if es != es' {
      DialFailuresGrow(es, es'[..|es'| - 1]);
    }
  }

  /** Calls that were admitted or stopped by a failed dial. */
  function Accounted(l: Link): nat {
    l.requests + DialFailures(l.events)
  }

  lemma AccountedGrows(l: Link, l': Link)
    requires Grew(l, l')
    ensures Accounted(l) <= Accounted(l')
  {
    DialFailuresGrow(l.events, l'.events);
  }

  lemma PerformAccounted(l: Link, op: Op)
    ensures Accounted(Perform(l, op).0) <= Accounted(l) + 1
  {
    PerformCounts(l, op);
    InitialDial(l);
  }

  // In every reachable state the PLC counters account for every section so far, plus at most the
  // one in progress: calls are requests or failed reconnects. Outside a section, moreover, each
  // request is timed, each dial but the first is a reconnect, and the errors are the answers that
  // were errors.
  lemma PlcCounters(capacity: nat, mem: Memory, faults: seq<Fault>, actions: seq<Action>)
    requires Reached(capacity, mem, faults, actions)
    ensures var g := Run(Init(capacity, mem, faults), actions);
            var calls := Calls(Ops(g.log)) + (if g.log != [] && Next(faults) != Fine then 1 else 0);
            && calls <= Accounted(g.link) <= calls + 1
            && (!InSection(g.x) ==>
                  && Accounted(g.link) == calls
                  && g.link.recorded == g.link.requests
                  && Dials(g.link.events) == g.link.reconnects + (if g.log != [] then 1 else 0)
                  && g.link.errors == Failures(AnswersIn(g.log)))
  {
    var g, origin := Run(Init(capacity, mem, faults), actions), Disconnected(mem, faults);
    var before := Replay(origin, g.log);
    ReachedInv(capacity, mem, faults, actions);
    if g.log != [] {
      FirstSection(origin, g);
    }
    RequestsAddUp(mem, faults, Ops(g.log));
    if InSection(g.x) {
      SectionAccounted(capacity, mem, faults, actions);
    } else {
      ErrorsAddUp(origin, Ops(g.log));
      AnswersReplayed(origin, g.log);
      PerformCounts(before, Close);
    }
  }

  lemma SectionAccounted(capacity: nat, mem: Memory, faults: seq<Fault>, actions: seq<Action>)
    requires Reached(capacity, mem, faults, actions) && InSection(Run(Init(capacity, mem, faults), actions).x)
    ensures var g := Run(Init(capacity, mem, faults), actions);
            var before := Replay(Disconnected(mem, faults), g.log);
            Accounted(before) <= Accounted(g.link) <= Accounted(before) + 1
  {
    var g, origin := Run(Init(capacity, mem, faults), actions), Disconnected(mem, faults);
    ReachedInv(capacity, mem, faults, actions);
    InitInv(capacity, mem, faults);
    RunAhead(origin, Init(capacity, mem, faults), actions);
    CompletionGrows(g.x, g.link);
    AccountedGrows(Replay(origin, g.log), g.link);
    AccountedGrows(g.link, Completion(g.x, g.link).0);
    PerformAccounted(Replay(origin, g.log), g.q.calls[g.q.worker.job].op);
  }

  // ---- Clean shutdown is final ----

  ghost predicate Quiet(g: State) {
    g.q.workerDone && g.closer.NoCloser? && g.link.conn.None?
  }

  // When Shutdown has returned nil, running Close to its end leaves the client disconnected.
  lemma CloseAfterShutdown(origin: Link, g: State, stop: Q.Id)
    requires Inv(origin, g) && g.boot.Serving? && g.closer.NoCloser?
    requires stop in g.q.stops && g.q.stops[stop] == Q.StopReturned(true)
    ensures Legal(g, [CloseLock, CloseBody, CloseUnlock])
    ensures Quiet(Run(g, [CloseLock, CloseBody, CloseUnlock]))
  {
    var g1 := Step(g, CloseLock);
    var g2 := Step(g1, CloseBody);
    var g3 := Step(g2, CloseUnlock);
    assert [CloseLock, CloseBody, CloseUnlock][1..] == [CloseBody, CloseUnlock];
    assert [CloseBody, CloseUnlock][1..] == [CloseUnlock];
    assert [CloseUnlock][1..] == [];
    assert Legal(g3, []) && Legal(g2, [CloseUnlock]) && Legal(g1, [CloseBody, CloseUnlock]);
    assert Run(g2, [CloseUnlock]) == g3;
    assert Run(g1, [CloseBody, CloseUnlock]) == g3;
  }

  // Once the worker has stopped, closing is all that can still happen to the link, whatever late
  // callers attempt before, during and after it, and no job starts.
  lemma {:induction false} OnlyCloseIsLeft(origin: Link, g: State, actions: seq<Action>)
    requires Inv(origin, g) && Legal(g, actions) && g.q.workerDone
    ensures var g' := Run(g, actions);
            && g'.link == (if CloseBody in actions then Perform(g.link, Close).0 else g.link)
            && g'.q.started == g.q.started && g'.q.workerDone
    decreases |actions|
  {
    if actions != [] {
      StepKeeps(origin, g, actions[0]);
      QuietStep(origin, g, actions[0]);
      OnlyCloseIsLeft(origin, Step(g, actions[0]), actions[1..]);
      InHeadOrTail(CloseBody, actions);
      CloseTwice(g.link);
    }
  }

  lemma InHeadOrTail(a: Action, actions: seq<Action>)
    requires actions != []
    ensures a in actions <==> a == actions[0] || a in actions[1..]
  {
  }

  lemma CloseTwice(l: Link)
    ensures Perform(Perform(l, Close).0, Close).0 == Perform(l, Close).0
  {
  }

  lemma QuietStep(origin: Link, g: State, a: Action)
    requires Inv(origin, g) && Enabled(g, a) && g.q.workerDone
    ensures var g' := Step(g, a);
            && g'.link == (if a.CloseBody? then Perform(g.link, Close).0 else g.link)
            && g'.q.started == g.q.started && g'.q.workerDone
  {
    if a.Queue? {
      Q.StoppedStep(g.q, a.a);
    }
  }

  // Clean shutdown is final: once Shutdown has returned nil, every continuation in which Close gets
  // to close, with anything else stepping in between, ends without a connection, without another
  // job started, and with nothing on the record of the network but that close.
  lemma CleanShutdown(
    capacity: nat, mem: Memory, faults: seq<Fault>, actions: seq<Action>, stop: Q.Id, later: seq<Action>
  )
    requires Reached(capacity, mem, faults, actions)
    requires var g := Run(Init(capacity, mem, faults), actions);
             && stop in g.q.stops && g.q.stops[stop] == Q.StopReturned(true)
             && Legal(g, later) && CloseBody in later
    ensures var g := Run(Init(capacity, mem, faults), actions);
            var g' := Run(g, later);
            && g'.link.conn.None? && g'.link == Perform(g.link, Close).0
            && g'.q.started == g.q.started
  {
    ReachedInv(capacity, mem, faults, actions);
    OnlyCloseIsLeft(Disconnected(mem, faults), Run(Init(capacity, mem, faults), actions), later);
  }

  // After that nothing touches the PLC again: no dial, no call, no job.
  lemma ShutdownIsFinal(origin: Link, g: State, actions: seq<Action>)
    requires Inv(origin, g) && Legal(g, actions)
    requires g.q.workerDone && g.link.conn.None?
    ensures var g' := Run(g, actions);
            g'.link == g.link && g'.q.started == g.q.started && g'.q.workerDone
  {
    OnlyCloseIsLeft(origin, g, actions);
  }

  // ---- Progress ----

  // A job that is executing is never stuck: it can step, or return its answer, or it waits for
  // the mutex only while a Close holds it, and that Close can step.
  lemma ExecutingMoves(origin: Link, g: State) returns (a: Action)
    requires Inv(origin, g) && g.q.worker.Executing?
    ensures Enabled(g, a)
    ensures || a.JobStep? || a.CloseBody? || a.CloseUnlock?
            || (g.x.Left? && a == Queue(Q.Worker(Q.FinishExecute(g.x.answer))))
  {
    if g.x.Left? {
      a := Queue(Q.Worker(Q.FinishExecute(g.x.answer)));
    } else if g.closer.CloserHolds? {
      a := CloseBody;
    } else if g.closer.CloserDone? {
      a := CloseUnlock;
    } else {
      a := JobStep;
    }
  }
}

/**
 No lost updates: in every reachable state of the gateway, every bit of every register and every
 bit device holds what the last instruction that sets it gave it, where the instructions are those
 the jobs have performed, job after job in the order of their sections.
 */
module Updates {
  import opened Options
  import opened Wire
  import opened Programs
  import opened Effects
  import opened Client
  import G = Gateway
  import Words

  // ---- What the sections have performed ----

  /** The instructions of an operation; only jobs that run a program have any. */
  function Instrs(op: Op): Program {
    if op.Do? then op.program else []
  }

  /** The instructions an operation performed: a first part of its program, all of it if it answered success. */
  ghost predicate DoneOf(op: Op, done: Program, answer: Client.Answer) {
    done <= Instrs(op) && (answer.Success? ==> done == Instrs(op))
  }

  lemma OpDone(l: Link, op: Op) returns (done: Program)
    ensures DoneOf(op, done, Perform(l, op).1) && Leaves(l.mem, done, Perform(l, op).0.mem)
  {
    done := [];
    LeavesNothing(l.mem);
    var l' := Ready(l);
    if op.Do? && l'.conn.Some? {
      var j := ProgramLeaves(l'.conn.value, op.program, Start(l'.mem, l'.faults, l'.events));
      done := op.program[..j];
    }
  }

  function Joined<T>(parts: seq<seq<T>>): seq<T> {
    if parts == [] then [] else Joined(parts[..|parts| - 1]) + parts[|parts| - 1]
  }

  lemma JoinedSnoc<T>(parts: seq<seq<T>>, p: seq<T>)
    ensures Joined(parts + [p]) == Joined(parts) + p
  {
    assert (parts + [p])[..|parts|] == parts;
  }

  /** `done[i]` is what section `i` performed. */
  ghost predicate AllDone(log: seq<G.Entry>, done: seq<Program>) {
    |done| == |log| && forall i :: 0 <= i < |log| ==> DoneOf(log[i].op, done[i], log[i].answer)
  }

  lemma LogAnswers(origin: Link, log: seq<G.Entry>, e: G.Entry)
    requires forall k :: 0 <= k < |log + [e]| ==> G.Answered(origin, log + [e], k)
    ensures forall k :: 0 <= k < |log| ==> G.Answered(origin, log, k)
    ensures e.answer == Perform(G.Replay(origin, log), e.op).1
  {
    forall k | 0 <= k < |log|
      ensures G.Answered(origin, log, k)
    {
      assert G.Answered(origin, log + [e], k) && (log + [e])[..k] == log[..k];
    }
    assert G.Answered(origin, log + [e], |log|) && (log + [e])[..|log|] == log;
  }

  lemma {:induction false} SectionsDone(origin: Link, log: seq<G.Entry>) returns (done: seq<Program>)
    requires forall k :: 0 <= k < |log| ==> G.Answered(origin, log, k)
    ensures AllDone(log, done) && Leaves(origin.mem, Joined(done), G.Replay(origin, log).mem)
    decreases |log|
  {
    done := [];
    LeavesNothing(origin.mem);
    if log != [] {
      var n := |log| - 1;
      var init, e := log[..n], log[n];
      assert log == init + [e];
      LogAnswers(origin, init, e);
      var before := SectionsDone(origin, init);
      var last := OpDone(G.Replay(origin, init), e.op);
      done := before + [last];
      JoinedSnoc(before, last);
      G.ReplaySnoc(origin, init, e);
      LeavesConcat(origin.mem, Joined(before), G.Replay(origin, init).mem, last, G.Replay(origin, log).mem);
    }
  }

  // ---- The job in progress ----

  /** In the middle of `op`, begun on memory `m`, its first `j` instructions have been performed. */
  ghost predicate MidJob(m: Memory, x: G.Exec, op: Op, l: Link, j: nat) {
    j <= |Instrs(op)| && Leaves(m, Instrs(op)[..j], l.mem) && Placed(x, op, l, j)
  }

  predicate Placed(x: G.Exec, op: Op, l: Link, j: nat)
    requires j <= |Instrs(op)|
  {
    match x
    case Holding(o) => o == op && j == 0
    case Dialing(o) => o == op && j == 0
    case Admitting(o) => o == op && j == 0
    case Running(rest, _, outcome) => outcome == Fine ==> Instrs(op)[j..] == rest
    case Storing(at, w, rest, _) =>
      j < |Instrs(op)| && Awaits(Instrs(op)[j], at, w, l.mem) && Instrs(op)[j + 1..] == rest
    case _ => true
  }

  /** Between the read and the write of a register: `w` is what the instruction makes of it. */
  predicate Awaits(i: Instr, at: DeviceAddr, w: Words.Word, m: Memory) {
    i.Modify? && i.at == at && w == EditAll(m.words[at], i.edits)
  }

  lemma PrefixSnoc(p: Program, j: nat)
    requires j < |p|
    ensures p[..j + 1] == p[..j] + [p[j]] && p[j..][0] == p[j] && p[j..][1..] == p[j + 1..]
  {
  }

  lemma RunningMid(m: Memory, x: G.Exec, op: Op, l: Link, j: nat) returns (j': nat)
    requires x.Running? && G.WellPlaced(x, l) && MidJob(m, x, op, l, j)
    ensures var (x', l') := G.ExecStep(x, l); MidJob(m, x', op, l', j')
  {
    j' := j;
    if x.outcome == Fine && x.rest != [] {
      PrefixSnoc(Instrs(op), j);
      if x.rest[0].Issue? {
        j' := IssueMid(m, x, op, l, j);
      }
    }
  }

  lemma IssueMid(m: Memory, x: G.Exec, op: Op, l: Link, j: nat) returns (j': nat)
    requires x.Running? && x.outcome == Fine && x.rest != [] && x.rest[0].Issue?
    requires G.WellPlaced(x, l) && MidJob(m, x, op, l, j)
    ensures var (x', l') := G.ExecStep(x, l); MidJob(m, x', op, l', j')
  {
    var p, s := Instrs(op), G.SessionOf(l, x.replies, Fine);
    var s' := RunInstr(l.conn.value, p[j], s);
    PrefixSnoc(p, j);
    InstrLeaves(l.conn.value, p[j], s);
    j' := j;
    if s'.outcome == Fine {
      j' := j + 1;
      LeavesConcat(m, p[..j], l.mem, [p[j]], s'.mem);
    }
  }

  lemma StoringMid(m: Memory, x: G.Exec, op: Op, l: Link, j: nat) returns (j': nat)
    requires x.Storing? && G.WellPlaced(x, l) && MidJob(m, x, op, l, j)
    ensures var (x', l') := G.ExecStep(x, l); MidJob(m, x', op, l', j')
  {
    j' := j;
    var p := Instrs(op);
    PrefixSnoc(p, j);
    if Next(l.faults) == Fine {
      j' := j + 1;
      ModifyLeaves(l.mem, x.at, p[j].edits);
      LeavesConcat(m, p[..j], l.mem, [p[j]], Apply(l.mem, WriteWords(x.at, [x.w])));
    }
  }

  lemma ExecStepMid(m: Memory, x: G.Exec, op: Op, l: Link, j: nat) returns (j': nat)
    requires G.InSection(x) && G.WellPlaced(x, l) && MidJob(m, x, op, l, j)
    ensures var (x', l') := G.ExecStep(x, l); MidJob(m, x', op, l', j')
  {
    j' := j;
    match x
    case Running(_, _, _) => j' := RunningMid(m, x, op, l, j);
    case Storing(_, _, _, _) => j' := StoringMid(m, x, op, l, j);
    case _ => QuietMid(m, x, op, l, j);
  }

  lemma QuietMid(m: Memory, x: G.Exec, op: Op, l: Link, j: nat)
    requires G.InSection(x) && !x.Running? && !x.Storing? && G.WellPlaced(x, l) && MidJob(m, x, op, l, j)
    ensures var (x', l') := G.ExecStep(x, l); MidJob(m, x', op, l', j)
  {
    QuietMemory(x, l);
    QuietPlace(x, op, l, j);
  }

  lemma QuietMemory(x: G.Exec, l: Link)
    requires G.InSection(x) && !x.Running? && !x.Storing? && G.WellPlaced(x, l)
    ensures G.ExecStep(x, l).1.mem == l.mem
  {
    match x
    case Holding(_) =>
    case Dialing(_) =>
    case Admitting(_) =>
    case Timing(_, _) =>
    case Settling(_, _) =>
    case ResetSending =>
    case ResetTiming(_) =>
    case ResetClosing(_) =>
    case ResetSettling(_) =>
    case Leaving(_) =>
  }

  lemma QuietPlace(x: G.Exec, op: Op, l: Link, j: nat)
    requires G.InSection(x) && !x.Running? && !x.Storing? && G.WellPlaced(x, l)
    requires j <= |Instrs(op)| && Placed(x, op, l, j)
    ensures Placed(G.ExecStep(x, l).0, op, G.ExecStep(x, l).1, j)
  {
    match x
    case Holding(_) =>
    case Dialing(_) =>
    case Admitting(_) =>
    case Timing(_, _) =>
    case Settling(_, _) =>
    case ResetSending =>
    case ResetTiming(_) =>
    case ResetClosing(_) =>
    case ResetSettling(_) =>
    case Leaving(_) =>
  }

  /** The job inside its section, if any, has performed a first part of its program. */
  ghost predicate Mid(origin: Link, g: G.State) {
    G.InSection(g.x) ==>
      && G.Current(g).Some?
      && exists j :: MidJob(G.Replay(origin, g.log).mem, g.x, G.Current(g).value, g.link, j)
  }

  lemma StepMid(origin: Link, g: G.State, a: G.Action)
    requires G.Inv(origin, g) && Mid(origin, g) && G.Enabled(g, a)
    ensures Mid(origin, G.Step(g, a))
  {
    G.StepKeeps(origin, g, a);
    if a.JobStep? {
      JobStepMid(origin, g);
    } else if G.InSection(g.x) {
      G.SectionUndisturbed(origin, g, a);
      OperationStays(origin, g, a);
    } else {
      G.SectionsBegin(g, a);
    }
  }

  lemma OperationStays(origin: Link, g: G.State, a: G.Action)
    requires G.Linearized(origin, g) && G.InSection(g.x) && G.Enabled(g, a) && a != G.JobStep
    ensures G.Current(G.Step(g, a)) == G.Current(g)
  {
    match a
    case Queue(Caller(c)) => G.CallerFrame(g.q, c);
    case Queue(Worker(w)) =>
    case Queue(Stop(t)) => G.StopFrame(g.q, t);
    case Queue(Meter(m)) =>
    case _ =>
  }

  lemma JobStepMid(origin: Link, g: G.State)
    requires G.Inv(origin, g) && Mid(origin, g) && G.Enabled(g, G.JobStep)
    requires G.Inv(origin, G.Step(g, G.JobStep))
    ensures Mid(origin, G.Step(g, G.JobStep))
  {
    var m, op := G.Replay(origin, g.log).mem, g.q.calls[g.q.worker.job].op;
    if g.x.AtMutex? {
      LeavesNothing(m);
      assert MidJob(m, G.Step(g, G.JobStep).x, op, g.link, 0);
    } else {
      var j :| MidJob(m, g.x, op, g.link, j);
      var j' := ExecStepMid(m, g.x, op, g.link, j);
    }
  }

  lemma {:induction false} RunMid(origin: Link, g: G.State, actions: seq<G.Action>)
    requires G.Inv(origin, g) && Mid(origin, g) && G.Legal(g, actions)
    ensures Mid(origin, G.Run(g, actions))
    decreases |actions|
  {
    if actions != [] {
      G.StepKeeps(origin, g, actions[0]);
      StepMid(origin, g, actions[0]);
      RunMid(origin, G.Step(g, actions[0]), actions[1..]);
    }
  }

  // ---- No lost updates ----

  /** `now` is the first part of the operation in progress that has been performed. */
  ghost predicate InProgress(g: G.State, now: Program) {
    if G.Current(g).Some? then now <= Instrs(G.Current(g).value) else now == []
  }

  // In every reachable state of every run, whatever fails and however the callers interleave, no
  // update is lost: each bit is as the last performed instruction that sets it left it. What each
  // section performed is a first part of its job's program, all of it when the job answered
  // success, and only the job in progress can have performed anything more.
  lemma NoLostUpdate(capacity: nat, mem: Memory, faults: seq<Fault>, actions: seq<G.Action>)
    returns (done: seq<Program>, now: Program)
    requires G.Reached(capacity, mem, faults, actions)
    ensures var g := G.Run(G.Init(capacity, mem, faults), actions);
            AllDone(g.log, done) && InProgress(g, now) && Leaves(mem, Joined(done) + now, g.link.mem)
  {
    var g, origin := G.Run(G.Init(capacity, mem, faults), actions), Disconnected(mem, faults);
    G.ReachedInv(capacity, mem, faults, actions);
    G.InitInv(capacity, mem, faults);
    RunMid(origin, G.Init(capacity, mem, faults), actions);
    done := SectionsDone(origin, g.log);
    now := NowDone(origin, g);
    LeavesConcat(mem, Joined(done), G.Replay(origin, g.log).mem, now, g.link.mem);
  }

  lemma NowDone(origin: Link, g: G.State) returns (now: Program)
    requires G.Linearized(origin, g) && Mid(origin, g)
    ensures InProgress(g, now) && Leaves(G.Replay(origin, g.log).mem, now, g.link.mem)
  {
    var m := G.Replay(origin, g.log).mem;
    if G.InSection(g.x) {
      var j: nat :| MidJob(m, g.x, G.Current(g).value, g.link, j);
      now := Instrs(G.Current(g).value)[..j];
    } else {
      now := [];
      LeavesNothing(m);
    }
  }

  // ---- Bit writes to one register ----

  /** After instructions that leave register `a` alone, `op` writes the bits `w`. */
  ghost predicate WritesBits(op: Op, w: seq<WordBitWrite>, a: DeviceAddr) {
    && |GroupedProgram(w)| <= |Instrs(op)|
    && var n := |Instrs(op)| - |GroupedProgram(w)|;
       Instrs(op)[n..] == GroupedProgram(w) && Spares(Instrs(op)[..n], a)
  }

  ghost predicate Spares(p: Program, a: DeviceAddr) {
    forall i, k: nat :: 0 <= i < |p| && k < 16 ==> Sets(p[i], a, k).None?
  }

  // A random write whose words and double words avoid the register writes its word bits to it.
  lemma RandomWriteWritesBits(
    words: seq<(DeviceAddr, Words.Word)>, dwords: seq<(DeviceAddr, Words.Dword)>,
    bits: seq<(DeviceAddr, bool)>, wordBits: seq<WordBitWrite>, a: DeviceAddr
  )
    requires Stored(RandomWrite(words, dwords), a).None?
    ensures WritesBits(Op.Do(RandomWriteProgram(words, dwords, bits, wordBits)), wordBits, a)
  {
    var first := Optional(|words| + |dwords| > 0, RandomWrite(words, dwords))
                 + Optional(|bits| > 0, RandomWriteBits(bits));
    var p := RandomWriteProgram(words, dwords, bits, wordBits);
    assert p == first + GroupedProgram(wordBits);
    assert p[..|first|] == first && p[|first|..] == GroupedProgram(wordBits);
  }

  // A job that leaves the register alone, such as any read, writes no bits of it.
  lemma SparingWritesNoBits(op: Op, a: DeviceAddr)
    requires Spares(Instrs(op), a)
    ensures WritesBits(op, [], a)
  {
    assert GroupedProgram([]) == [];
    assert Instrs(op)[..|Instrs(op)|] == Instrs(op) && Instrs(op)[|Instrs(op)|..] == [];
  }

  /** A part of the bit writes `w`: the entries of the first registers it names, all of them after a success. */
  ghost predicate PartOf(w: seq<WordBitWrite>, part: seq<WordBitWrite>, success: bool) {
    && (success ==> part == w)
    && exists j :: 0 <= j <= |FirstMentions(w)| && part == OnlyTo(w, FirstMentions(w)[..j])
  }

  /** On register `a`, performing `p` is writing the bits `w`. */
  ghost predicate SameOn(p: Program, w: seq<WordBitWrite>, a: DeviceAddr) {
    forall k: nat, before :: k < 16 ==> LastSet(p, a, k, before) == LastWritten(w, a, k, before)
  }

  lemma {:induction false} SparedRegister(p: Program, a: DeviceAddr, k: nat, before: bool)
    requires Spares(p, a) && k < 16
    ensures LastSet(p, a, k, before) == before
  {
    if p != [] {
      SparedRegister(p[..|p| - 1], a, k, before);
    }
  }

  lemma {:induction false} LastWrittenConcat(
    x: seq<WordBitWrite>, y: seq<WordBitWrite>, a: DeviceAddr, k: nat, before: bool
  )
    ensures LastWritten(x + y, a, k, before) == LastWritten(y, a, k, LastWritten(x, a, k, before))
    decreases |y|
  {
    if y == [] {
      assert x + y == x;
    } else {
      var n := |y| - 1;
      assert (x + y)[..|x| + n] == x + y[..n];
      LastWrittenConcat(x, y[..n], a, k, before);
    }
  }

  lemma SameOnConcat(p: Program, w: seq<WordBitWrite>, p': Program, w': seq<WordBitWrite>, a: DeviceAddr)
    requires SameOn(p, w, a) && SameOn(p', w', a)
    ensures SameOn(p + p', w + w', a)
  {
    forall k: nat, before | k < 16
      ensures LastSet(p + p', a, k, before) == LastWritten(w + w', a, k, before)
    {
      LastSetConcat(p, p', a, k, before);
      LastWrittenConcat(w, w', a, k, before);
    }
  }

  lemma GroupsAfterSpared(spared: Program, w: seq<WordBitWrite>, j: nat, a: DeviceAddr)
    requires Spares(spared, a) && j <= |FirstMentions(w)|
    ensures SameOn(spared + GroupedProgram(w)[..j], OnlyTo(w, FirstMentions(w)[..j]), a)
  {
    var groups, part := GroupedProgram(w)[..j], OnlyTo(w, FirstMentions(w)[..j]);
    forall k: nat, v | k < 16
      ensures LastSet(spared + groups, a, k, v) == LastWritten(part, a, k, v)
    {
      LastSetConcat(spared, groups, a, k, v);
      SparedRegister(spared, a, k, v);
      GroupsSet(w, j, a, k, v);
    }
  }

  // What was performed of such an operation is, on the register, a part of its bit writes.
  lemma PartDone(op: Op, w: seq<WordBitWrite>, a: DeviceAddr, done: Program) returns (part: seq<WordBitWrite>)
    requires WritesBits(op, w, a) && done <= Instrs(op)
    ensures PartOf(w, part, done == Instrs(op)) && SameOn(done, part, a)
  {
    var n, order := |Instrs(op)| - |GroupedProgram(w)|, FirstMentions(w);
    var spared := if |done| <= n then done else Instrs(op)[..n];
    var j := |done| - |spared|;
    part := OnlyTo(w, order[..j]);
    assert done == spared + GroupedProgram(w)[..j];
    GroupsAfterSpared(spared, w, j, a);
    if done == Instrs(op) {
      assert order[..j] == order;
      AllMentioned(w);
      OnlyToAll(w, order);
    }
  }

  ghost predicate AllWriteBits(log: seq<G.Entry>, ws: seq<seq<WordBitWrite>>, a: DeviceAddr) {
    |ws| == |log| && forall i :: 0 <= i < |log| ==> WritesBits(log[i].op, ws[i], a)
  }

  ghost predicate AllParts(log: seq<G.Entry>, ws: seq<seq<WordBitWrite>>, parts: seq<seq<WordBitWrite>>) {
    |ws| == |log| == |parts| && forall i :: 0 <= i < |log| ==> PartOf(ws[i], parts[i], log[i].answer.Success?)
  }

  lemma AllPartsSnoc(
    log: seq<G.Entry>, ws: seq<seq<WordBitWrite>>, before: seq<seq<WordBitWrite>>, part: seq<WordBitWrite>
  )
    requires log != [] && |ws| == |log|
    requires AllParts(log[..|log| - 1], ws[..|log| - 1], before)
    requires PartOf(ws[|log| - 1], part, log[|log| - 1].answer.Success?)
    ensures AllParts(log, ws, before + [part])
  {
    var n, parts := |log| - 1, before + [part];
    forall i | 0 <= i < |log|
      ensures PartOf(ws[i], parts[i], log[i].answer.Success?)
    {
      if i < n {
        assert PartOf(ws[..n][i], before[i], log[..n][i].answer.Success?);
      }
    }
  }

  lemma PartIsPart(w: seq<WordBitWrite>, part: seq<WordBitWrite>, all: bool, success: bool)
    requires PartOf(w, part, all) && (success ==> all)
    ensures PartOf(w, part, success)
  {
  }

  lemma {:induction false} PartsDone(log: seq<G.Entry>, ws: seq<seq<WordBitWrite>>, a: DeviceAddr, done: seq<Program>)
    returns (parts: seq<seq<WordBitWrite>>)
    requires AllDone(log, done) && AllWriteBits(log, ws, a)
    ensures AllParts(log, ws, parts) && SameOn(Joined(done), Joined(parts), a)
    decreases |log|
  {
    parts := [];
    if log != [] {
      var n := |log| - 1;
      assert AllDone(log[..n], done[..n]) && AllWriteBits(log[..n], ws[..n], a);
      var before := PartsDone(log[..n], ws[..n], a, done[..n]);
      var part := PartDone(log[n].op, ws[n], a, done[n]);
      PartIsPart(ws[n], part, done[n] == Instrs(log[n].op), log[n].answer.Success?);
      parts := before + [part];
      AllPartsSnoc(log, ws, before, part);
      JoinedSnoc(before, part);
      SameOnConcat(Joined(done[..n]), Joined(before), done[n], part, a);
    }
  }

  // The same for one register `a`, in terms of the requests. Take the bits that each operation
  // writes to it last: none for a job that leaves it alone, `ws[i]` for a bit write, or for a random
  // write whose words and double words avoid it. Then in every reachable state each of its bits
  // holds what the last entry naming it says, the operations taken in the order of their sections;
  // one that answered success has written all its entries, one that failed those of its first
  // registers.
  lemma BitWritesKept(
    capacity: nat, mem: Memory, faults: seq<Fault>, actions: seq<G.Action>,
    ws: seq<seq<WordBitWrite>>, current: seq<WordBitWrite>, a: DeviceAddr
  )
    returns (parts: seq<seq<WordBitWrite>>, now: seq<WordBitWrite>)
    requires G.Reached(capacity, mem, faults, actions)
    requires var g := G.Run(G.Init(capacity, mem, faults), actions);
             && AllWriteBits(g.log, ws, a)
             && (G.Current(g).Some? ==> WritesBits(G.Current(g).value, current, a))
    ensures var g := G.Run(G.Init(capacity, mem, faults), actions);
            && AllParts(g.log, ws, parts)
            && (if G.Current(g).Some? then PartOf(current, now, false) else now == [])
            && forall k: nat :: k < 16 ==>
                 Words.Bit(g.link.mem.words[a], k) == LastWritten(Joined(parts) + now, a, k, Words.Bit(mem.words[a], k))
  {
    var g := G.Run(G.Init(capacity, mem, faults), actions);
    var done, p := NoLostUpdate(capacity, mem, faults, actions);
    parts := PartsDone(g.log, ws, a, done);
    now := [];
    if G.Current(g).Some? {
      now := PartDone(G.Current(g).value, current, a, p);
    }
    SameOnConcat(Joined(done), Joined(parts), p, now, a);
  }
}

/**
 Requests through the whole gateway: what a client that writes can rely on when it, or any
 other client, reads afterwards.
 */
module EndToEnd {
  import opened Options
  import opened Programs
  import opened Effects
  import opened Client
  import opened ReadWrite
  import opened Updates
  import Words
  import Wire
  import Gateway

  // ---- What a read can see ----

  /** Bit `k` of register `a` shows in the values of the read. */
  predicate Seen(plan: ReadPlan, a: Wire.DeviceAddr, k: nat) {
    match plan.shape
    case BitRange(bit, count) => a == plan.at && bit <= k < bit + count
    case WordList(count, dword, _) => InRun(plan.at, if dword then 2 * count else count, a)
    case _ => false
  }

  predicate SeenDevice(plan: ReadPlan, a: Wire.DeviceAddr) {
    match plan.shape
    case Packed(nibbles, _) => InRun(plan.at, 4 * nibbles, a)
    case BitList(count) => InRun(plan.at, count, a)
    case _ => false
  }

  ghost predicate SameView(m: Wire.Memory, m': Wire.Memory, plan: ReadPlan) {
    && (forall a, k: nat :: k < 16 && Seen(plan, a, k) ==> Words.Bit(m'.words[a], k) == Words.Bit(m.words[a], k))
    && (forall a :: SeenDevice(plan, a) ==> m'.bits[a] == m.bits[a])
  }

  lemma SameWords(m: Wire.Memory, m': Wire.Memory, at: Wire.DeviceAddr, n: nat)
    requires forall a, k: nat :: k < 16 && InRun(at, n, a) ==> Words.Bit(m'.words[a], k) == Words.Bit(m.words[a], k)
    ensures Wire.Answer(m', Wire.ReadWords(at, n)) == Wire.Answer(m, Wire.ReadWords(at, n))
  {
    forall i | 0 <= i < n
      ensures m'.words[Wire.Offset(at, i)] == m.words[Wire.Offset(at, i)]
    {
      SameWord(m'.words[Wire.Offset(at, i)], m.words[Wire.Offset(at, i)]);
    }
    assert Wire.Answer(m', Wire.ReadWords(at, n)).words == Wire.Answer(m, Wire.ReadWords(at, n)).words;
  }

  lemma SameBits(m: Wire.Memory, m': Wire.Memory, at: Wire.DeviceAddr, n: nat)
    requires forall a :: InRun(at, n, a) ==> m'.bits[a] == m.bits[a]
    ensures Wire.Answer(m', Wire.ReadBits(at, n)) == Wire.Answer(m, Wire.ReadBits(at, n))
  {
    assert Wire.Answer(m', Wire.ReadBits(at, n)).bits == Wire.Answer(m, Wire.ReadBits(at, n)).bits;
  }

  // What a read returns depends on nothing but what it sees.
  lemma ViewDecides(m: Wire.Memory, m': Wire.Memory, plan: ReadPlan)
    requires SameView(m, m', plan) && (plan.shape.BitRange? ==> plan.shape.bit + plan.shape.count <= 16)
    ensures ReadFrom(m', plan) == ReadFrom(m, plan)
  {
    match plan.shape
    case Packed(nibbles, _) => SameBits(m, m', plan.at, 4 * nibbles);
    case BitList(count) => SameBits(m, m', plan.at, count);
    case WordList(count, dword, _) => SameWords(m, m', plan.at, if dword then 2 * count else count);
    case BitRange(bit, count) =>
      assert Wire.Offset(plan.at, 0) == plan.at;
      assert BitsOf(m'.words[plan.at], bit, count) == BitsOf(m.words[plan.at], bit, count);
  }

  /** An operation none of whose instructions sets anything the read can see; resets and remote commands set nothing. */
  ghost predicate Avoids(op: Op, plan: ReadPlan) {
    forall i :: 0 <= i < |Instrs(op)| ==> SetsNoneOf(Instrs(op)[i], plan)
  }

  ghost predicate SetsNoneOf(i: Instr, plan: ReadPlan) {
    && (forall a, k: nat :: k < 16 && Seen(plan, a, k) ==> Sets(i, a, k).None?)
    && (forall a :: SeenDevice(plan, a) ==> SetsDevice(i, a).None?)
  }

  lemma {:induction false} NothingSet(p: Program, a: Wire.DeviceAddr, k: nat, before: bool)
    ensures (forall i :: 0 <= i < |p| ==> Sets(p[i], a, k).None?) ==> LastSet(p, a, k, before) == before
    ensures (forall i :: 0 <= i < |p| ==> SetsDevice(p[i], a).None?) ==> LastSetDevice(p, a, before) == before
  {
    if p != [] {
      NothingSet(p[..|p| - 1], a, k, before);
    }
  }

  lemma AvoidingKeepsView(l: Link, op: Op, plan: ReadPlan)
    requires Avoids(op, plan)
    ensures SameView(l.mem, Perform(l, op).0.mem, plan)
  {
    var done := OpDone(l, op);
    var m, m' := l.mem, Perform(l, op).0.mem;
    assert forall i :: 0 <= i < |done| ==> done[i] == Instrs(op)[i];
    forall a, k: nat | k < 16 && Seen(plan, a, k)
      ensures Words.Bit(m'.words[a], k) == Words.Bit(m.words[a], k)
    {
      NothingSet(done, a, k, Words.Bit(m.words[a], k));
    }
    forall a | SeenDevice(plan, a)
      ensures m'.bits[a] == m.bits[a]
    {
      NothingSet(done, a, 0, m.bits[a]);
    }
  }

  lemma ViewsCompose(m: Wire.Memory, m': Wire.Memory, m'': Wire.Memory, plan: ReadPlan)
    requires SameView(m, m', plan) && SameView(m', m'', plan)
    ensures SameView(m, m'', plan)
  {
  }

  lemma PerformLast(l: Link, ops: seq<Op>, j: nat)
    requires 1 <= j <= |ops|
    ensures PerformAll(l, ops[..j]) == Perform(PerformAll(l, ops[..j - 1]), ops[j - 1]).0
  {
    assert ops[..j][..j - 1] == ops[..j - 1];
  }

  lemma {:induction false} SpanKeepsView(l: Link, ops: seq<Op>, plan: ReadPlan, i: nat, j: nat)
    requires i <= j <= |ops| && forall k :: i <= k < j ==> Avoids(ops[k], plan)
    ensures SameView(PerformAll(l, ops[..i]).mem, PerformAll(l, ops[..j]).mem, plan)
    decreases j
  {
    if i < j {
      SpanKeepsView(l, ops, plan, i, j - 1);
      PerformLast(l, ops, j);
      var before := PerformAll(l, ops[..j - 1]);
      AvoidingKeepsView(before, ops[j - 1], plan);
      ViewsCompose(PerformAll(l, ops[..i]).mem, before.mem, Perform(before, ops[j - 1]).0.mem, plan);
    }
  }

  // ---- Read your writes ----

  // A call that answered success ran its whole program on the link's memory.
  lemma SucceededRun(l: Link, p: Program) returns (conn: nat, s: Session)
    requires Perform(l, Op.Do(p)).1.Success?
    ensures s.mem == l.mem && s.outcome == Wire.Fine && s.replies == []
    ensures var r := RunProgram(conn, p, s);
            && r.outcome == Wire.Fine
            && r.mem == Perform(l, Op.Do(p)).0.mem
            && r.replies == Perform(l, Op.Do(p)).1.replies
  {
    var l' := Ready(l);
    conn, s := l'.conn.value, Start(l'.mem, l'.faults, l'.events);
  }

  lemma WriteThenReadAnswers(
    l: Link, l': Link, addr: string, dword: bool, sint: bool, values: Values, plan: ReadPlan
  )
    requires PlanWrite(addr, dword, sint, values).Some? && PlanRead(addr, Length(values), dword, sint) == Some(plan)
    requires var write := Op.Do(PlanWrite(addr, dword, sint, values).value);
             Perform(l, write).1.Success? && SameView(Perform(l, write).0.mem, l'.mem, plan)
    requires Perform(l', Op.Do([Issue(ReadCall(plan))])).1.Success?
    ensures var replies := Perform(l', Op.Do([Issue(ReadCall(plan))])).1.replies;
            |replies| == 1 && Response(plan.shape, replies[0]) == Some(values)
  {
    var conn, s := SucceededRun(l, PlanWrite(addr, dword, sint, values).value);
    WriteThenRead(addr, dword, sint, values, conn, s);
    ReadWithinLimits(addr, Length(values), dword, sint, l'.mem);
    ViewDecides(Perform(l, Op.Do(PlanWrite(addr, dword, sint, values).value)).0.mem, l'.mem, plan);
    var conn', s' := SucceededRun(l', [Issue(ReadCall(plan))]);
    CallRun(conn', ReadCall(plan), s');
  }

  ghost predicate Wrote(log: seq<Gateway.Entry>, w: nat, addr: string, dword: bool, sint: bool, values: Values) {
    && w < |log| && PlanWrite(addr, dword, sint, values).Some?
    && log[w].op == Op.Do(PlanWrite(addr, dword, sint, values).value) && log[w].answer.Success?
  }

  ghost predicate ReadBack(log: seq<Gateway.Entry>, r: nat, plan: ReadPlan) {
    r < |log| && log[r].op == Op.Do([Issue(ReadCall(plan))]) && log[r].answer.Success?
  }

  // Read your writes, for any clients and any interleaving and any failures before, between or
  // after: a successful read of what a successful write wrote, with nothing between them in the
  // serial order that writes what the read can see, is answered with exactly the written values.
  lemma ReadYourWrites(
    capacity: nat, mem: Wire.Memory, faults: seq<Wire.Fault>, actions: seq<Gateway.Action>,
    w: nat, r: nat, addr: string, dword: bool, sint: bool, values: Values, plan: ReadPlan
  )
    requires Gateway.Reached(capacity, mem, faults, actions)
    requires PlanRead(addr, Length(values), dword, sint) == Some(plan)
    requires var log := Gateway.Run(Gateway.Init(capacity, mem, faults), actions).log;
             && w < r && Wrote(log, w, addr, dword, sint, values) && ReadBack(log, r, plan)
             && forall k :: w < k < r ==> Avoids(log[k].op, plan)
    ensures var log := Gateway.Run(Gateway.Init(capacity, mem, faults), actions).log;
            |log[r].answer.replies| == 1 && Response(plan.shape, log[r].answer.replies[0]) == Some(values)
  {
    Gateway.ReachedInv(capacity, mem, faults, actions);
    ReadBackInLog(Disconnected(mem, faults), Gateway.Run(Gateway.Init(capacity, mem, faults), actions).log,
                  w, r, addr, dword, sint, values, plan);
  }

  lemma ReadBackInLog(
    origin: Link, log: seq<Gateway.Entry>, w: nat, r: nat,
    addr: string, dword: bool, sint: bool, values: Values, plan: ReadPlan
  )
    requires w < r < |log| && Gateway.Answered(origin, log, w) && Gateway.Answered(origin, log, r)
    requires PlanRead(addr, Length(values), dword, sint) == Some(plan)
    requires Wrote(log, w, addr, dword, sint, values) && ReadBack(log, r, plan)
    requires forall k :: w < k < r ==> Avoids(log[k].op, plan)
    ensures |log[r].answer.replies| == 1 && Response(plan.shape, log[r].answer.replies[0]) == Some(values)
  {
    var ops := Gateway.Ops(log);
    AnsweredInTurn(origin, log, w);
    AnsweredInTurn(origin, log, r);
    SpanKeepsView(origin, ops, plan, w + 1, r);
    PerformLast(origin, ops, w + 1);
    WriteThenReadAnswers(PerformAll(origin, ops[..w]), PerformAll(origin, ops[..r]), addr, dword, sint, values, plan);
  }

  lemma AnsweredInTurn(origin: Link, log: seq<Gateway.Entry>, k: nat)
    requires k < |log| && Gateway.Answered(origin, log, k)
    ensures log[k].answer == Perform(PerformAll(origin, Gateway.Ops(log)[..k]), log[k].op).1
  {
    assert Gateway.Ops(log[..k]) == Gateway.Ops(log)[..k];
  }
}

/**
 What a queued job does on the wire.

 Every operation in queue.go issues a list of calls on one connection, where the only
 data flowing from one call to a later one is the read-modify-write of a single
 register. A program is that list; running it stops at the first failure, and the
 outcome of every call is drawn from a script of faults (calls past the end of the
 script succeed), so a statement for every script covers every behaviour of the network.
 */
module Programs {
  import opened Words
  import opened Wire

  datatype Edit = Edit(bit: nat, value: bool)

  datatype Instr =
    | Issue(call: Call)
    | Modify(at: DeviceAddr, edits: seq<Edit>) // read one register, edit it, write it back

  type Program = seq<Instr>

  /** One entry of the record kept of the network: connections opened and closed, calls sent. */
  datatype Event =
    | Opened(conn: nat)
    | DialFailed
    | Sent(conn: nat, call: Call, fault: Fault)
    | Shut(conn: nat)

  /** The network as a program finds it and leaves it, with the replies received so far. */
  datatype Session = Session(mem: Memory, faults: seq<Fault>, events: seq<Event>, replies: seq<Reply>, outcome: Fault)

  function Next(faults: seq<Fault>): Fault {
    if faults == [] then Fine else faults[0]
  }

  function Later(faults: seq<Fault>): seq<Fault> {
    if faults == [] then [] else faults[1..]
  }

  /** A shift by 16 or more leaves a 16-bit register as it is. */
  function EditWord(w: Word, e: Edit): Word {
    if e.bit < 16 then
      PowersOfTwo();
      PutBitBound(w, e.bit, e.value, 16);
      PutBit(w, e.bit, e.value)
    else w
  }

  function EditAll(w: Word, edits: seq<Edit>): Word
    decreases |edits|
  {
    if edits == [] then w else EditAll(EditWord(w, edits[0]), edits[1..])
  }

  /** One call on a connection. Nothing more is sent once a call has failed. */
  function Transmit(conn: nat, c: Call, s: Session): Session {
    if s.outcome != Fine then s
    else
      var fault := Next(s.faults);
      s.(mem := if fault == Fine then Apply(s.mem, c) else s.mem,
         faults := Later(s.faults),
         events := s.events + [Sent(conn, c, fault)],
         outcome := fault)
  }

  function RunInstr(conn: nat, i: Instr, s: Session): Session {
    match i
    case Issue(c) =>
      var s' := Transmit(conn, c, s);
      if s'.outcome != Fine then s' else s'.(replies := s.replies + [Answer(s.mem, c)])
    case Modify(at, edits) =>
      Transmit(conn, WriteWords(at, [EditAll(s.mem.words[at], edits)]), Transmit(conn, ReadWords(at, 1), s))
  }

  function RunProgram(conn: nat, p: Program, s: Session): Session
    decreases |p|
  {
    if p == [] then s else RunProgram(conn, p[1..], RunInstr(conn, p[0], s))
  }

  /** How a program finds the network: nothing asked and nothing failed yet. */
  function Start(mem: Memory, faults: seq<Fault>, events: seq<Event>): Session {
    Session(mem, faults, events, [], Fine)
  }

  // ---- The programs of queue.go ----

  datatype WordBitWrite = WordBitWrite(at: DeviceAddr, bit: nat, value: bool)

  function Edits(bit: nat, values: seq<bool>): seq<Edit> {
    seq(|values|, i requires 0 <= i < |values| => Edit(bit + i, values[i]))
  }

  function WriteWordBitsProgram(at: DeviceAddr, bit: nat, values: seq<bool>): Program {
    [Modify(at, Edits(bit, values))]
  }

  function BitsOf(w: Word, bit: nat, count: nat): seq<bool> {
    seq(count, i requires 0 <= i < count => Bit(w, bit + i))
  }

  ghost predicate Distinct(order: seq<DeviceAddr>) {
    forall i, j :: 0 <= i < j < |order| ==> order[i] != order[j]
  }

  /** The registers touched by a list of bit writes, in order of first mention. */
  function FirstMentions(wbs: seq<WordBitWrite>): (order: seq<DeviceAddr>)
    ensures Distinct(order)
  {
    if wbs == [] then []
    else
      var n := |wbs| - 1;
      var order := FirstMentions(wbs[..n]);
      if wbs[n].at in order then order else order + [wbs[n].at]
  }

  /** Where a register is mentioned first; the length of the list if it is not. */
  function FirstIndex(wbs: seq<WordBitWrite>, a: DeviceAddr): (i: nat)
    ensures i <= |wbs|
    ensures i < |wbs| ==> wbs[i].at == a
    ensures forall j :: 0 <= j < i ==> wbs[j].at != a
  {
    if wbs == [] || wbs[0].at == a then 0 else 1 + FirstIndex(wbs[1..], a)
  }

  /** The edits of one register, in request order. */
  function EditsFor(wbs: seq<WordBitWrite>, a: DeviceAddr): seq<Edit> {
    if wbs == [] then []
    else
      var n := |wbs| - 1;
      EditsFor(wbs[..n], a) + if wbs[n].at == a then [Edit(wbs[n].bit, wbs[n].value)] else []
  }

  /** `writeWordBits`: one read-modify-write per register. */
  function GroupedProgram(wbs: seq<WordBitWrite>): Program {
    ProgramOver(FirstMentions(wbs), wbs)
  }

  function ProgramOver(order: seq<DeviceAddr>, wbs: seq<WordBitWrite>): Program {
    seq(|order|, i requires 0 <= i < |order| => Modify(order[i], EditsFor(wbs, order[i])))
  }

  /** The reference: one read-modify-write per requested bit. */
  function NaiveProgram(wbs: seq<WordBitWrite>): Program {
    seq(|wbs|, i requires 0 <= i < |wbs| => Modify(wbs[i].at, [Edit(wbs[i].bit, wbs[i].value)]))
  }

  /** A phase that is skipped when it has nothing to write. */
  function Optional(needed: bool, c: Call): Program {
    if needed then [Issue(c)] else []
  }

  function RandomWriteProgram(
    words: seq<(DeviceAddr, Word)>, dwords: seq<(DeviceAddr, Dword)>,
    bits: seq<(DeviceAddr, bool)>, wordBits: seq<WordBitWrite>
  ): Program {
    Optional(|words| + |dwords| > 0, RandomWrite(words, dwords))
    + Optional(|bits| > 0, RandomWriteBits(bits))
    + GroupedProgram(wordBits)
  }

  function RandomReadProgram(words: seq<DeviceAddr>, dwords: seq<DeviceAddr>, bits: seq<DeviceAddr>): Program {
    Optional(|words| + |dwords| > 0, RandomRead(words, dwords))
    + ReadEach(bits)
  }

  function ReadEach(bits: seq<DeviceAddr>): Program {
    seq(|bits|, i requires 0 <= i < |bits| => Issue(ReadBits(bits[i], 1)))
  }

  // ---- Running programs ----

  // Running p and then q.
  lemma {:induction false} RunConcat(conn: nat, p: Program, q: Program, s: Session)
    ensures RunProgram(conn, p + q, s) == RunProgram(conn, q, RunProgram(conn, p, s))
    decreases |p|
  {
    if p == [] {
      assert p + q == q;
    } else {
      assert (p + q)[0] == p[0] && (p + q)[1..] == p[1..] + q;
      RunConcat(conn, p[1..], q, RunInstr(conn, p[0], s));
    }
  }

  lemma RunSingle(conn: nat, i: Instr, s: Session)
    ensures RunProgram(conn, [i], s) == RunInstr(conn, i, s)
  {
    assert [i][1..] == [];
  }

  // Nothing happens after a failure.
  lemma {:induction false} RunStopped(conn: nat, p: Program, s: Session)
    requires s.outcome != Fine
    ensures RunProgram(conn, p, s) == s
    decreases |p|
  {
    if p != [] {
      RunStopped(conn, p[1..], s);
    }
  }

  // ---- What goes over the wire ----

  /** How many calls a program makes when none of them fails. */
  function CallCount(p: Program): nat {
    if p == [] then 0 else (if p[0].Issue? then 1 else 2) + CallCount(p[1..])
  }

  function LastFault(sent: seq<Event>): Fault {
    if sent != [] && sent[|sent| - 1].Sent? then sent[|sent| - 1].fault else Fine
  }

  /** Calls on `conn`, all fine but possibly the last; fewer than `count` only if that one failed. */
  ghost predicate SentUntilFailure(sent: seq<Event>, conn: nat, count: nat) {
    && |sent| <= count && (LastFault(sent) == Fine ==> |sent| == count)
    && (forall i :: 0 <= i < |sent| ==> sent[i].Sent? && sent[i].conn == conn)
    && (forall i :: 0 <= i < |sent| - 1 ==> sent[i].fault == Fine)
  }

  lemma InstrStopsAtFailure(conn: nat, i: Instr, s: Session) returns (sent: seq<Event>)
    requires s.outcome == Fine
    ensures RunInstr(conn, i, s).events == s.events + sent && RunInstr(conn, i, s).outcome == LastFault(sent)
    ensures SentUntilFailure(sent, conn, if i.Issue? then 1 else 2) && sent != []
  {
    match i
    case Issue(c) => sent := [Sent(conn, c, Next(s.faults))];
    case Modify(at, edits) =>
      var s' := Transmit(conn, ReadWords(at, 1), s);
      sent := [Sent(conn, ReadWords(at, 1), Next(s.faults))];
      if s'.outcome == Fine {
        sent := sent + [Sent(conn, WriteWords(at, [EditAll(s.mem.words[at], edits)]), Next(s'.faults))];
      }
  }

  // A run makes its calls one after the other on its connection until one fails; then it makes no
  // other, and its outcome is that of the last.
  lemma {:induction false} StopsAtFailure(conn: nat, p: Program, s: Session) returns (sent: seq<Event>)
    requires s.outcome == Fine
    ensures RunProgram(conn, p, s).events == s.events + sent && RunProgram(conn, p, s).outcome == LastFault(sent)
    ensures SentUntilFailure(sent, conn, CallCount(p))
    decreases |p|
  {
    sent := [];
    if p != [] {
      var s' := RunInstr(conn, p[0], s);
      var first := InstrStopsAtFailure(conn, p[0], s);
      if s'.outcome == Fine {
        var rest := StopsAtFailure(conn, p[1..], s');
        sent := first + rest;
        assert rest != [] ==> sent[|sent| - 1] == rest[|rest| - 1];
        assert rest == [] ==> sent == first;
        assert s.events + sent == s.events + first + rest;
      } else {
        sent := first;
        RunStopped(conn, p[1..], s');
      }
    }
  }

  // A run that ends well never met a fault, so it is the run on a network that does not fail.
  lemma {:induction false} FineIsFaultless(conn: nat, p: Program, s: Session)
    requires RunProgram(conn, p, s).outcome == Fine
    ensures s.outcome == Fine
    ensures var r := RunProgram(conn, p, s);
            RunProgram(conn, p, s.(faults := [])) == r.(faults := [])
    decreases |p|
  {
    if p != [] {
      var s' := RunInstr(conn, p[0], s);
      FineIsFaultless(conn, p[1..], s');
      InstrFaultless(conn, p[0], s);
    }
  }

  lemma InstrFaultless(conn: nat, i: Instr, s: Session)
    requires RunInstr(conn, i, s).outcome == Fine
    ensures s.outcome == Fine
    ensures RunInstr(conn, i, s.(faults := [])) == RunInstr(conn, i, s).(faults := [])
  {
    match i {
      case Issue(c) =>
        TransmitFaultless(conn, c, s);
      case Modify(at, edits) =>
        TransmitFaultless(conn, ReadWords(at, 1), s);
        TransmitFaultless(conn, WriteWords(at, [EditAll(s.mem.words[at], edits)]), Transmit(conn, ReadWords(at, 1), s));
    }
  }

  lemma TransmitFaultless(conn: nat, c: Call, s: Session)
    requires Transmit(conn, c, s).outcome == Fine
    ensures s.outcome == Fine
    ensures Transmit(conn, c, s.(faults := [])) == Transmit(conn, c, s).(faults := [])
  {
  }

  // A read-modify-write of one register when both its calls succeed.
  lemma ModifyRun(conn: nat, at: DeviceAddr, edits: seq<Edit>, s: Session)
    requires s.outcome == Fine && Next(s.faults) == Fine && Next(Later(s.faults)) == Fine
    ensures var w := EditAll(s.mem.words[at], edits);
            RunInstr(conn, Modify(at, edits), s) ==
            s.(mem := s.mem.(words := s.mem.words[at := w]),
               events := s.events + [Sent(conn, ReadWords(at, 1), Fine)] + [Sent(conn, WriteWords(at, [w]), Fine)],
               faults := Later(Later(s.faults)))
  {
    StoreOne(s.mem, at, EditAll(s.mem.words[at], edits));
  }

  // Writing one register is a plain update.
  lemma StoreOne(mem: Memory, at: DeviceAddr, w: Word)
    ensures Apply(mem, WriteWords(at, [w])) == mem.(words := mem.words[at := w])
  {
    assert StoreWords(mem.words[at := w], Offset(at, 1), [w][1..]) == mem.words[at := w];
  }

  lemma {:induction false} EditAllConcat(w: Word, xs: seq<Edit>, ys: seq<Edit>)
    ensures EditAll(w, xs + ys) == EditAll(EditAll(w, xs), ys)
    decreases |xs|
  {
    if xs == [] {
      assert xs + ys == ys;
    } else {
      assert (xs + ys)[0] == xs[0] && (xs + ys)[1..] == xs[1..] + ys;
      EditAllConcat(EditWord(w, xs[0]), xs[1..], ys);
    }
  }

  lemma EditOne(w: Word, e: Edit)
    ensures EditAll(w, [e]) == EditWord(w, e)
  {
    assert EditAll(EditWord(w, e), [e][1..]) == EditWord(w, e);
  }

  // ---- Grouped bit writes ----

  // The registers are exactly those an entry names, in the order in which the entries name them first.
  lemma {:induction false} MentionedInOrder(wbs: seq<WordBitWrite>)
    ensures forall a :: a in FirstMentions(wbs) <==> FirstIndex(wbs, a) < |wbs|
    ensures forall i, j :: 0 <= i < j < |FirstMentions(wbs)| ==>
              FirstIndex(wbs, FirstMentions(wbs)[i]) < FirstIndex(wbs, FirstMentions(wbs)[j])
  {
    if wbs != [] {
      var n := |wbs| - 1;
      MentionedInOrder(wbs[..n]);
      forall a
        ensures FirstIndex(wbs, a) == if a in FirstMentions(wbs[..n]) then FirstIndex(wbs[..n], a)
                                      else if a == wbs[n].at then n else |wbs|
      {
        IndexSnoc(wbs[..n], wbs[n], a);
        assert wbs == wbs[..n] + [wbs[n]];
      }
    }
  }

  lemma {:induction false} IndexSnoc(wbs: seq<WordBitWrite>, wb: WordBitWrite, a: DeviceAddr)
    ensures FirstIndex(wbs + [wb], a) ==
            if FirstIndex(wbs, a) < |wbs| then FirstIndex(wbs, a) else if wb.at == a then |wbs| else |wbs| + 1
    decreases |wbs|
  {
    if wbs == [] {
      assert FirstIndex([wb][1..], a) == 0;
    } else {
      assert (wbs + [wb])[1..] == wbs[1..] + [wb];
      IndexSnoc(wbs[1..], wb, a);
    }
  }

  /** The memory after every entry has been applied, in order, to its own register. */
  function BitsApplied(m: WordStore, wbs: seq<WordBitWrite>): WordStore {
    if wbs == [] then m
    else
      var n := |wbs| - 1;
      var m' := BitsApplied(m, wbs[..n]);
      m'[wbs[n].at := EditWord(m'[wbs[n].at], Edit(wbs[n].bit, wbs[n].value))]
  }

  /** What bit `k` of register `a` was last set to, or `before` if no entry names it. */
  function LastWritten(wbs: seq<WordBitWrite>, a: DeviceAddr, k: nat, before: bool): bool {
    if wbs == [] then before
    else
      var n := |wbs| - 1;
      if wbs[n].at == a && wbs[n].bit == k then wbs[n].value else LastWritten(wbs[..n], a, k, before)
  }

  // Each bit of each register ends as its last entry says, and is untouched if there is none.
  lemma {:induction false} BitsAppliedMeaning(m: WordStore, wbs: seq<WordBitWrite>, a: DeviceAddr, k: nat)
    requires k < 16
    ensures Bit(BitsApplied(m, wbs)[a], k) == LastWritten(wbs, a, k, Bit(m[a], k))
  {
    if wbs != [] {
      var n := |wbs| - 1;
      BitsAppliedMeaning(m, wbs[..n], a, k);
      if wbs[n].at == a && wbs[n].bit < 16 {
        PutBitBits(BitsApplied(m, wbs[..n])[a], wbs[n].bit, wbs[n].value, k);
      }
    }
  }

  // Register by register, applying the entries one at a time is folding that register's edits.
  lemma {:induction false} BitsAppliedByRegister(m: WordStore, wbs: seq<WordBitWrite>, a: DeviceAddr)
    ensures BitsApplied(m, wbs)[a] == EditAll(m[a], EditsFor(wbs, a))
  {
    if wbs != [] {
      var n := |wbs| - 1;
      BitsAppliedByRegister(m, wbs[..n], a);
      var last := if wbs[n].at == a then [Edit(wbs[n].bit, wbs[n].value)] else [];
      EditAllConcat(m[a], EditsFor(wbs[..n], a), last);
      EditOne(EditAll(m[a], EditsFor(wbs[..n], a)), Edit(wbs[n].bit, wbs[n].value));
    }
  }

  lemma {:induction false} EditsOfUnmentioned(wbs: seq<WordBitWrite>, a: DeviceAddr)
    requires a !in FirstMentions(wbs)
    ensures EditsFor(wbs, a) == []
  {
    if wbs != [] {
      var n := |wbs| - 1;
      assert wbs[n].at in FirstMentions(wbs);
      EditsOfUnmentioned(wbs[..n], a);
    }
  }

  /** The registers after the first `j` groups have been written. */
  function GroupsApplied(m: WordStore, order: seq<DeviceAddr>, wbs: seq<WordBitWrite>): WordStore
  {
    if order == [] then m
    else
      var n := |order| - 1;
      GroupsApplied(m, order[..n], wbs)[order[n] := EditAll(m[order[n]], EditsFor(wbs, order[n]))]
  }

  lemma {:induction false} GroupsAppliedAt(m: WordStore, order: seq<DeviceAddr>, wbs: seq<WordBitWrite>, a: DeviceAddr)
    ensures GroupsApplied(m, order, wbs)[a] == if a in order then EditAll(m[a], EditsFor(wbs, a)) else m[a]
  {
    if order != [] {
      var n := |order| - 1;
      GroupsAppliedAt(m, order[..n], wbs, a);
      assert a in order <==> a in order[..n] || a == order[n];
    }
  }

  // Writing every group leaves exactly the memory of writing every entry.
  lemma GroupsEqualEntries(m: WordStore, wbs: seq<WordBitWrite>)
    ensures GroupsApplied(m, FirstMentions(wbs), wbs) == BitsApplied(m, wbs)
  {
    forall a
      ensures GroupsApplied(m, FirstMentions(wbs), wbs)[a] == BitsApplied(m, wbs)[a]
    {
      GroupsEqualEntriesAt(m, wbs, a);
    }
  }

  lemma GroupsEqualEntriesAt(m: WordStore, wbs: seq<WordBitWrite>, a: DeviceAddr)
    ensures GroupsApplied(m, FirstMentions(wbs), wbs)[a] == BitsApplied(m, wbs)[a]
  {
    GroupsAppliedAt(m, FirstMentions(wbs), wbs, a);
    BitsAppliedByRegister(m, wbs, a);
    if a !in FirstMentions(wbs) {
      EditsOfUnmentioned(wbs, a);
    }
  }

  /** The calls of the groups in `order`: for each, one read of the register and one write. */
  function GroupEvents(conn: nat, order: seq<DeviceAddr>, m: WordStore, wbs: seq<WordBitWrite>): seq<Event> {
    if order == [] then []
    else
      var n := |order| - 1;
      GroupEvents(conn, order[..n], m, wbs)
      + [Sent(conn, ReadWords(order[n], 1), Fine),
         Sent(conn, WriteWords(order[n], [EditAll(m[order[n]], EditsFor(wbs, order[n]))]), Fine)]
  }

  /** Whether the next `n` steps against the network all succeed. */
  ghost predicate FineFor(faults: seq<Fault>, n: nat) {
    forall i :: 0 <= i < n && i < |faults| ==> faults[i] == Fine
  }

  function Skip(faults: seq<Fault>, n: nat): seq<Fault> {
    if n <= |faults| then faults[n..] else []
  }

  lemma SkipTwo(faults: seq<Fault>, n: nat)
    requires FineFor(faults, 2 * n + 2)
    ensures Next(Skip(faults, 2 * n)) == Fine && Next(Later(Skip(faults, 2 * n))) == Fine
    ensures Later(Later(Skip(faults, 2 * n))) == Skip(faults, 2 * n + 2)
  {
  }

  // As long as no call fails, each group takes one read and one write and has its full effect.
  lemma {:induction false} GroupsRun(conn: nat, order: seq<DeviceAddr>, wbs: seq<WordBitWrite>, s: Session)
    requires s.outcome == Fine && Distinct(order) && FineFor(s.faults, 2 * |order|)
    ensures RunProgram(conn, ProgramOver(order, wbs), s) == GroupsOutcome(conn, order, wbs, s)
    decreases |order|
  {
    if order != [] {
      var n := |order| - 1;
      var init, last := order[..n], order[n];
      GroupsRun(conn, init, wbs, s);
      var i := Modify(last, EditsFor(wbs, last));
      assert ProgramOver(order, wbs) == ProgramOver(init, wbs) + [i];
      RunConcat(conn, ProgramOver(init, wbs), [i], s);
      RunSingle(conn, i, GroupsOutcome(conn, init, wbs, s));
      GroupsRunLast(conn, order, wbs, s);
    } else {
      assert s.events + [] == s.events;
    }
  }

  /** The full effect of the groups in `order`, when every call they make succeeds. */
  function GroupsOutcome(conn: nat, order: seq<DeviceAddr>, wbs: seq<WordBitWrite>, s: Session): Session {
    s.(mem := s.mem.(words := GroupsApplied(s.mem.words, order, wbs)),
       events := s.events + GroupEvents(conn, order, s.mem.words, wbs),
       faults := Skip(s.faults, 2 * |order|))
  }

  lemma EventsSnoc(before: seq<Event>, es: seq<Event>, x: Event, y: Event)
    ensures before + (es + [x, y]) == before + es + [x] + [y]
  {
  }

  lemma GroupsRunLast(conn: nat, order: seq<DeviceAddr>, wbs: seq<WordBitWrite>, s: Session)
    requires s.outcome == Fine && order != [] && Distinct(order) && FineFor(s.faults, 2 * |order|)
    ensures var n := |order| - 1;
            RunInstr(conn, Modify(order[n], EditsFor(wbs, order[n])), GroupsOutcome(conn, order[..n], wbs, s))
            == GroupsOutcome(conn, order, wbs, s)
  {
    var n := |order| - 1;
    var init, last := order[..n], order[n];
    assert last !in init;
    GroupsAppliedAt(s.mem.words, init, wbs, last);
    SkipTwo(s.faults, n);
    var s' := GroupsOutcome(conn, init, wbs, s);
    ModifyRun(conn, last, EditsFor(wbs, last), s');
    var w := EditAll(s.mem.words[last], EditsFor(wbs, last));
    EventsSnoc(s.events, GroupEvents(conn, init, s.mem.words, wbs),
               Sent(conn, ReadWords(last, 1), Fine), Sent(conn, WriteWords(last, [w]), Fine));
  }

  // Grouped equals naive: when nothing fails, `writeWordBits` leaves exactly the memory of
  // applying each entry by its own read-modify-write, with one read and one write per register.
  lemma GroupedEqualsNaive(conn: nat, wbs: seq<WordBitWrite>, s: Session)
    requires s.outcome == Fine && s.faults == []
    ensures var grouped := RunProgram(conn, GroupedProgram(wbs), s);
            var naive := RunProgram(conn, NaiveProgram(wbs), s);
            && grouped.outcome == naive.outcome == Fine
            && grouped.mem == naive.mem == s.mem.(words := BitsApplied(s.mem.words, wbs))
            && grouped.events == s.events + GroupEvents(conn, FirstMentions(wbs), s.mem.words, wbs)
            && |grouped.events| == |s.events| + 2 * |FirstMentions(wbs)|
  {
    GroupedRun(conn, wbs, s);
    GroupEventCount(conn, FirstMentions(wbs), s.mem.words, wbs);
    NaiveRun(conn, wbs, s);
  }

  lemma GroupedRun(conn: nat, wbs: seq<WordBitWrite>, s: Session)
    requires s.outcome == Fine && s.faults == []
    ensures RunProgram(conn, GroupedProgram(wbs), s) ==
            s.(mem := s.mem.(words := BitsApplied(s.mem.words, wbs)),
               events := s.events + GroupEvents(conn, FirstMentions(wbs), s.mem.words, wbs))
  {
    GroupsRun(conn, FirstMentions(wbs), wbs, s);
    GroupsEqualEntries(s.mem.words, wbs);
  }

  lemma {:induction false} GroupEventCount(conn: nat, order: seq<DeviceAddr>, m: WordStore, wbs: seq<WordBitWrite>)
    ensures |GroupEvents(conn, order, m, wbs)| == 2 * |order|
  {
    if order != [] {
      GroupEventCount(conn, order[..|order| - 1], m, wbs);
    }
  }

  lemma {:induction false} NaiveRun(conn: nat, wbs: seq<WordBitWrite>, s: Session)
    requires s.outcome == Fine && s.faults == []
    ensures var r := RunProgram(conn, NaiveProgram(wbs), s);
            r.outcome == Fine && r.faults == [] && r.mem == s.mem.(words := BitsApplied(s.mem.words, wbs))
    decreases |wbs|
  {
    if wbs != [] {
      var n := |wbs| - 1;
      var init, last := wbs[..n], wbs[n];
      NaiveRun(conn, init, s);
      var i := Modify(last.at, [Edit(last.bit, last.value)]);
      assert NaiveProgram(wbs) == NaiveProgram(init) + [i];
      RunConcat(conn, NaiveProgram(init), [i], s);
      var s' := RunProgram(conn, NaiveProgram(init), s);
      RunSingle(conn, i, s');
      OneBitRun(conn, last, s');
    }
  }

  lemma OneBitRun(conn: nat, wb: WordBitWrite, s: Session)
    requires s.outcome == Fine && s.faults == []
    ensures var e := Edit(wb.bit, wb.value);
            var r := RunInstr(conn, Modify(wb.at, [e]), s);
            && r.outcome == Fine && r.faults == []
            && r.mem == s.mem.(words := s.mem.words[wb.at := EditWord(s.mem.words[wb.at], e)])
  {
    EditOne(s.mem.words[wb.at], Edit(wb.bit, wb.value));
    ModifyRun(conn, wb.at, [Edit(wb.bit, wb.value)], s);
  }

  // A failure in group j leaves the groups before it fully applied and the later ones untouched.
  lemma FailureInGroup(conn: nat, wbs: seq<WordBitWrite>, s: Session, at: nat)
    requires s.outcome == Fine && at < |s.faults| && at < 2 * |FirstMentions(wbs)|
    requires FineFor(s.faults, at) && s.faults[at] != Fine
    ensures var r := RunProgram(conn, GroupedProgram(wbs), s);
            && r.outcome == s.faults[at]
            && r.mem == s.mem.(words := GroupsApplied(s.mem.words, FirstMentions(wbs)[..at / 2], wbs))
  {
    var order, j := FirstMentions(wbs), at / 2;
    var done, rest := order[..j], order[j..];
    assert ProgramOver(order, wbs) == ProgramOver(done, wbs) + ProgramOver(rest, wbs);
    RunConcat(conn, ProgramOver(done, wbs), ProgramOver(rest, wbs), s);
    assert Distinct(done);
    GroupsRun(conn, done, wbs, s);
    ModifyFails(conn, ProgramOver(rest, wbs), GroupsOutcome(conn, done, wbs, s), at % 2);
  }

  // When either call of the leading read-modify-write fails, the program stops without an effect.
  lemma ModifyFails(conn: nat, p: Program, s: Session, at: nat)
    requires s.outcome == Fine && p != [] && p[0].Modify?
    requires at < 2 && at < |s.faults| && s.faults[at] != Fine && (at == 1 ==> s.faults[0] == Fine)
    ensures RunProgram(conn, p, s).outcome == s.faults[at]
    ensures RunProgram(conn, p, s).mem == s.mem
  {
    var s' := RunInstr(conn, p[0], s);
    assert s'.outcome == s.faults[at] && s'.mem == s.mem;
    RunStopped(conn, p[1..], s');
  }

  /** The entries that touch the registers in `order`. */
  function OnlyTo(wbs: seq<WordBitWrite>, order: seq<DeviceAddr>): seq<WordBitWrite> {
    if wbs == [] then []
    else
      var n := |wbs| - 1;
      OnlyTo(wbs[..n], order) + if wbs[n].at in order then [wbs[n]] else []
  }

  lemma EditsForSnoc(wbs: seq<WordBitWrite>, wb: WordBitWrite, a: DeviceAddr)
    ensures EditsFor(wbs + [wb], a) == EditsFor(wbs, a) + if wb.at == a then [Edit(wb.bit, wb.value)] else []
  {
    assert (wbs + [wb])[..|wbs|] == wbs;
  }

  lemma {:induction false} OnlyToEdits(wbs: seq<WordBitWrite>, order: seq<DeviceAddr>, a: DeviceAddr)
    ensures EditsFor(OnlyTo(wbs, order), a) == if a in order then EditsFor(wbs, a) else []
  {
    if wbs != [] {
      var n := |wbs| - 1;
      OnlyToEdits(wbs[..n], order, a);
      if wbs[n].at in order {
        assert OnlyTo(wbs, order) == OnlyTo(wbs[..n], order) + [wbs[n]];
        EditsForSnoc(OnlyTo(wbs[..n], order), wbs[n], a);
      } else {
        assert OnlyTo(wbs, order) == OnlyTo(wbs[..n], order);
      }
    }
  }

  lemma {:induction false} OnlyToAll(wbs: seq<WordBitWrite>, order: seq<DeviceAddr>)
    requires forall i :: 0 <= i < |wbs| ==> wbs[i].at in order
    ensures OnlyTo(wbs, order) == wbs
  {
    if wbs != [] {
      var n := |wbs| - 1;
      OnlyToAll(wbs[..n], order);
      assert OnlyTo(wbs, order) == wbs[..n] + [wbs[n]];
    }
  }

  lemma {:induction false} AllMentioned(wbs: seq<WordBitWrite>)
    ensures forall i :: 0 <= i < |wbs| ==> wbs[i].at in FirstMentions(wbs)
  {
    if wbs != [] {
      AllMentioned(wbs[..|wbs| - 1]);
    }
  }

  lemma OnlyToApplied(m: WordStore, wbs: seq<WordBitWrite>, order: seq<DeviceAddr>)
    ensures GroupsApplied(m, order, wbs) == BitsApplied(m, OnlyTo(wbs, order))
  {
    forall a
      ensures GroupsApplied(m, order, wbs)[a] == BitsApplied(m, OnlyTo(wbs, order))[a]
    {
      GroupsAppliedAt(m, order, wbs, a);
      BitsAppliedByRegister(m, OnlyTo(wbs, order), a);
      OnlyToEdits(wbs, order, a);
    }
  }

  // Whatever fails, a grouped write has applied, in request order, exactly the entries of the first
  // `j` registers it mentions: all of them when it ends well, and not all when a group failed.
  lemma GroupedAnyFaults(conn: nat, wbs: seq<WordBitWrite>, s: Session) returns (j: nat)
    requires s.outcome == Fine
    ensures var r, order := RunProgram(conn, GroupedProgram(wbs), s), FirstMentions(wbs);
            && j <= |order| && (r.outcome == Fine <==> j == |order|) && (s.faults == [] ==> r.outcome == Fine)
            && r.mem == s.mem.(words := BitsApplied(s.mem.words, OnlyTo(wbs, order[..j])))
            && OnlyTo(wbs, order) == wbs
  {
    var order := FirstMentions(wbs);
    AllMentioned(wbs);
    OnlyToAll(wbs, order);
    if FineFor(s.faults, 2 * |order|) {
      j := |order|;
      GroupsRun(conn, order, wbs, s);
      assert order[..j] == order;
    } else {
      var at := FirstFault(s.faults, 2 * |order|);
      j := at / 2;
      FailureInGroup(conn, wbs, s, at);
    }
    OnlyToApplied(s.mem.words, wbs, order[..j]);
  }

  lemma FirstFault(faults: seq<Fault>, n: nat) returns (at: nat)
    requires !FineFor(faults, n)
    ensures at < n && at < |faults| && FineFor(faults, at) && faults[at] != Fine
  {
    at := 0;
    while faults[at] == Fine
      invariant at < n && at < |faults| && FineFor(faults, at)
      decreases n - at
    {
      at := at + 1;
    }
  }

  // ---- One bit range ----

  // Writing consecutive bits of one register is `writeWordBits` on the corresponding entries.
  lemma RangeIsGrouped(at: DeviceAddr, bit: nat, values: seq<bool>)
    requires values != []
    ensures WriteWordBitsProgram(at, bit, values) == GroupedProgram(RangeEntries(at, bit, values))
  {
    RangeGroups(at, bit, values);
    var wbs := RangeEntries(at, bit, values);
    assert ProgramOver([at], wbs) == [Modify(at, Edits(bit, values))];
  }

  function RangeEntries(at: DeviceAddr, bit: nat, values: seq<bool>): seq<WordBitWrite> {
    seq(|values|, i requires 0 <= i < |values| => WordBitWrite(at, bit + i, values[i]))
  }

  lemma RangeGroups(at: DeviceAddr, bit: nat, values: seq<bool>)
    ensures FirstMentions(RangeEntries(at, bit, values)) == if values == [] then [] else [at]
    ensures EditsFor(RangeEntries(at, bit, values), at) == Edits(bit, values)
  {
    OneRegisterMentioned(RangeEntries(at, bit, values), at);
    RangeEdits(at, bit, values);
  }

  lemma {:induction false} OneRegisterMentioned(wbs: seq<WordBitWrite>, at: DeviceAddr)
    requires forall i :: 0 <= i < |wbs| ==> wbs[i].at == at
    ensures FirstMentions(wbs) == if wbs == [] then [] else [at]
  {
    if wbs != [] {
      OneRegisterMentioned(wbs[..|wbs| - 1], at);
    }
  }

  lemma {:induction false} RangeEdits(at: DeviceAddr, bit: nat, values: seq<bool>)
    ensures EditsFor(RangeEntries(at, bit, values), at) == Edits(bit, values)
    decreases |values|
  {
    if values != [] {
      var n := |values| - 1;
      RangeEdits(at, bit, values[..n]);
      EditsForSnoc(RangeEntries(at, bit, values[..n]), WordBitWrite(at, bit + n, values[n]), at);
      assert RangeEntries(at, bit, values) ==
             RangeEntries(at, bit, values[..n]) + [WordBitWrite(at, bit + n, values[n])];
      assert Edits(bit, values) == Edits(bit, values[..n]) + [Edit(bit + n, values[n])];
    }
  }

  // After writing a range, each bit of the register is the written value inside it and unchanged outside.
  lemma {:induction false} EditsMeaning(w: Word, bit: nat, values: seq<bool>, k: nat)
    requires bit + |values| <= 16 && k < 16
    ensures Bit(EditAll(w, Edits(bit, values)), k) ==
            if bit <= k < bit + |values| then values[k - bit] else Bit(w, k)
    decreases |values|
  {
    if values != [] {
      var n := |values| - 1;
      EditsMeaning(w, bit, values[..n], k);
      var e := Edit(bit + n, values[n]);
      assert Edits(bit, values) == Edits(bit, values[..n]) + [e];
      EditAllConcat(w, Edits(bit, values[..n]), [e]);
      var w' := EditAll(w, Edits(bit, values[..n]));
      EditOne(w', e);
      PutBitBits(w', e.bit, e.value, k);
    }
  }

  lemma RangeReadBack(w: Word, bit: nat, values: seq<bool>)
    requires bit + |values| <= 16
    ensures BitsOf(EditAll(w, Edits(bit, values)), bit, |values|) == values
  {
    forall i | 0 <= i < |values|
      ensures Bit(EditAll(w, Edits(bit, values)), bit + i) == values[i]
    {
      EditsMeaning(w, bit, values, bit + i);
    }
  }

  // ---- Random write ----

  // Random write end to end, whatever fails: words first, then dwords, then native bits, then the
  // word bits register by register, each list in its own order, and a bit write sees the value its
  // word was just given. The phases before the one that fails have their full effect, and those
  // after it none.
  lemma RandomWriteAnyFaults(
    conn: nat, words: seq<(DeviceAddr, Word)>, dwords: seq<(DeviceAddr, Dword)>,
    bits: seq<(DeviceAddr, bool)>, wordBits: seq<WordBitWrite>, s: Session
  )
    returns (phase: nat, j: nat)
    requires s.outcome == Fine
    ensures var r := RunProgram(conn, RandomWriteProgram(words, dwords, bits, wordBits), s);
            && phase <= 2 && j <= |FirstMentions(wordBits)|
            && r.mem == RandomWritten(words, dwords, bits, wordBits, s.mem, phase, j)
            && (r.outcome == Fine <==> phase == 2 && j == |FirstMentions(wordBits)|)
            && (s.faults == [] ==> r.outcome == Fine)
            && (phase == 0 ==> |words| + |dwords| > 0 && r.outcome == Next(s.faults))
            && (phase == 1 ==> |bits| > 0)
  {
    var a := Optional(|words| + |dwords| > 0, RandomWrite(words, dwords));
    var b := Optional(|bits| > 0, RandomWriteBits(bits));
    var p := GroupedProgram(wordBits);
    RunConcat(conn, a, b, s);
    RunConcat(conn, a + b, p, s);
    OptionalAnyFaults(conn, |words| + |dwords| > 0, RandomWrite(words, dwords), s);
    EmptyListWrites(words, dwords, bits, s.mem);
    var sa := RunProgram(conn, a, s);
    phase, j := 0, 0;
    if sa.outcome != Fine {
      RunStopped(conn, b, sa);
      RunStopped(conn, p, sa);
    } else {
      OptionalAnyFaults(conn, |bits| > 0, RandomWriteBits(bits), sa);
      var sb := RunProgram(conn, b, sa);
      phase := 1;
      if sb.outcome != Fine {
        RunStopped(conn, p, sb);
      } else {
        phase := 2;
        j := GroupedAnyFaults(conn, wordBits, sb);
      }
    }
  }

  /** The memory once `phase` of the phases are over, and in the last one `j` registers are done. */
  function RandomWritten(
    words: seq<(DeviceAddr, Word)>, dwords: seq<(DeviceAddr, Dword)>,
    bits: seq<(DeviceAddr, bool)>, wordBits: seq<WordBitWrite>, mem: Memory, phase: nat, j: nat
  ): Memory
    requires j <= |FirstMentions(wordBits)|
  {
    if phase == 0 then mem
    else if phase == 1 then Apply(mem, RandomWrite(words, dwords))
    else
      var m := Apply(Apply(mem, RandomWrite(words, dwords)), RandomWriteBits(bits));
      m.(words := BitsApplied(m.words, OnlyTo(wordBits, FirstMentions(wordBits)[..j])))
  }

  lemma OptionalAnyFaults(conn: nat, needed: bool, c: Call, s: Session)
    requires s.outcome == Fine
    ensures var r := RunProgram(conn, Optional(needed, c), s);
            && (r.outcome == Fine <==> needed ==> Next(s.faults) == Fine)
            && (r.outcome != Fine ==> r.outcome == Next(s.faults) && r.mem == s.mem)
            && (r.outcome == Fine ==> r.mem == if needed then Apply(s.mem, c) else s.mem)
            && (s.faults == [] ==> r.faults == [])
  {
    RunSingle(conn, Issue(c), s);
  }

  lemma EmptyListWrites(
    words: seq<(DeviceAddr, Word)>, dwords: seq<(DeviceAddr, Dword)>, bits: seq<(DeviceAddr, bool)>, mem: Memory
  )
    ensures |words| + |dwords| == 0 ==> Apply(mem, RandomWrite(words, dwords)) == mem
    ensures |bits| == 0 ==> forall m :: Apply(m, RandomWriteBits(bits)) == m
  {
  }

  lemma OptionalRun(conn: nat, needed: bool, c: Call, s: Session)
    requires s.outcome == Fine && s.faults == []
    ensures var r := RunProgram(conn, Optional(needed, c), s);
            r.outcome == Fine && r.faults == [] && r.mem == if needed then Apply(s.mem, c) else s.mem
    ensures RunProgram(conn, Optional(needed, c), s).replies
            == if needed then s.replies + [Answer(s.mem, c)] else s.replies
  {
    RunSingle(conn, Issue(c), s);
  }

  // ---- Random read ----

  lemma {:induction false} NativeReads(conn: nat, bits: seq<DeviceAddr>, s: Session)
    requires s.outcome == Fine && s.faults == []
    ensures var r := RunProgram(conn, ReadEach(bits), s);
            && r.outcome == Fine && r.mem == s.mem
            && r.replies == s.replies + seq(|bits|, i requires 0 <= i < |bits| => Bits([s.mem.bits[bits[i]]]))
    decreases |bits|
  {
    if bits != [] {
      assert Offset(bits[0], 0) == bits[0];
      assert Answer(s.mem, ReadBits(bits[0], 1)) == Bits([s.mem.bits[bits[0]]]);
      assert ReadEach(bits)[1..] == ReadEach(bits[1..]);
      NativeReads(conn, bits[1..], RunInstr(conn, ReadEach(bits)[0], s));
    }
  }

  function WordsAt(m: Memory, addrs: seq<DeviceAddr>): seq<Word> {
    seq(|addrs|, i requires 0 <= i < |addrs| => m.words[addrs[i]])
  }

  function DwordsAt(m: Memory, addrs: seq<DeviceAddr>): seq<Dword> {
    seq(|addrs|, i requires 0 <= i < |addrs| => DwordAt(m.words, addrs[i]))
  }

  function BitsAt(m: Memory, addrs: seq<DeviceAddr>): seq<bool> {
    seq(|addrs|, i requires 0 <= i < |addrs| => m.bits[addrs[i]])
  }

  // A random read returns every register, double register and bit as it stands, in order.
  lemma RandomReadRun(conn: nat, words: seq<DeviceAddr>, dwords: seq<DeviceAddr>, bits: seq<DeviceAddr>, s: Session)
    requires s.outcome == Fine && s.faults == [] && s.replies == []
    ensures var r := RunProgram(conn, RandomReadProgram(words, dwords, bits), s);
            && r.outcome == Fine && r.mem == s.mem
            && RandomWordsOf(words, dwords, r.replies) == WordsAt(s.mem, words)
            && RandomDwordsOf(words, dwords, r.replies) == DwordsAt(s.mem, dwords)
            && RandomBitsOf(words, dwords, bits, r.replies) == BitsAt(s.mem, bits)
  {
    var needed, c := |words| + |dwords| > 0, RandomRead(words, dwords);
    RunConcat(conn, Optional(needed, c), ReadEach(bits), s);
    OptionalRun(conn, needed, c, s);
    NativeReads(conn, bits, RunProgram(conn, Optional(needed, c), s));
  }

  function RandomWordsOf(words: seq<DeviceAddr>, dwords: seq<DeviceAddr>, replies: seq<Reply>): seq<Word> {
    if |words| + |dwords| > 0 && |replies| > 0 && replies[0].Mixed? then replies[0].randomWords else []
  }

  function RandomDwordsOf(words: seq<DeviceAddr>, dwords: seq<DeviceAddr>, replies: seq<Reply>): seq<Dword> {
    if |words| + |dwords| > 0 && |replies| > 0 && replies[0].Mixed? then replies[0].randomDwords else []
  }

  /** `len(vals) > 0 && vals[0]` for each native bit read. */
  function RandomBitsOf(
    words: seq<DeviceAddr>, dwords: seq<DeviceAddr>, bits: seq<DeviceAddr>, replies: seq<Reply>
  ): seq<bool> {
    var first := if |words| + |dwords| > 0 then 1 else 0;
    seq(|bits|, i requires 0 <= i < |bits| =>
      && first + i < |replies| && replies[first + i].Bits?
      && |replies[first + i].bits| > 0 && replies[first + i].bits[0])
  }

  // ---- How many calls the random programs make ----

  lemma {:induction false} CallCountConcat(p: Program, q: Program)
    ensures CallCount(p + q) == CallCount(p) + CallCount(q)
    decreases |p|
  {
    if p == [] {
      assert p + q == q;
    } else {
      assert (p + q)[0] == p[0] && (p + q)[1..] == p[1..] + q;
      CallCountConcat(p[1..], q);
    }
  }

  lemma {:induction false} CallCountUniform(p: Program, n: nat)
    requires forall i :: 0 <= i < |p| ==> (if p[i].Issue? then 1 else 2) == n
    ensures CallCount(p) == n * |p|
    decreases |p|
  {
    if p != [] {
      CallCountUniform(p[1..], n);
      assert n * |p| == n + n * |p[1..]|;
    }
  }

  // A random read makes one call for all words and double words, and one for each bit device.
  lemma RandomReadCalls(words: seq<DeviceAddr>, dwords: seq<DeviceAddr>, bits: seq<DeviceAddr>)
    ensures CallCount(RandomReadProgram(words, dwords, bits))
            == (if words == [] && dwords == [] then 0 else 1) + |bits|
  {
    var first := Optional(|words| + |dwords| > 0, RandomRead(words, dwords));
    CallCountConcat(first, ReadEach(bits));
    CallCountUniform(first, 1);
    CallCountUniform(ReadEach(bits), 1);
  }

  // A random write makes one call for all words and double words, one for all bit devices, and two for
  // each register that has word bits.
  lemma RandomWriteCalls(
    words: seq<(DeviceAddr, Word)>, dwords: seq<(DeviceAddr, Dword)>,
    bits: seq<(DeviceAddr, bool)>, wordBits: seq<WordBitWrite>
  )
    ensures CallCount(RandomWriteProgram(words, dwords, bits, wordBits))
            == (if words == [] && dwords == [] then 0 else 1) + (if bits == [] then 0 else 1)
               + 2 * |FirstMentions(wordBits)|
  {
    var a := Optional(|words| + |dwords| > 0, RandomWrite(words, dwords));
    var b := Optional(|bits| > 0, RandomWriteBits(bits));
    CallCountConcat(a, b);
    CallCountConcat(a + b, GroupedProgram(wordBits));
    CallCountUniform(a, 1);
    CallCountUniform(b, 1);
    CallCountUniform(GroupedProgram(wordBits), 2);
  }
}

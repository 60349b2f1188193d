/**
 The bodies that queue.go runs on an open connection, as the loops they are. Each method
 is proved to do to the network exactly what its program says, whatever calls fail, and to
 return what that program's replies mean.
 */
module Operations {
  import opened Words
  import opened Wire
  import opened Programs

  /** The PLC and the way to it: device memory, the faults still to come, and what was done so far. */
  class Network {
    var mem: Memory
    var faults: seq<Fault>
    var events: seq<Event>
    var nextConn: nat

    constructor (mem: Memory, faults: seq<Fault>)
      ensures this.mem == mem && this.faults == faults && events == [] && nextConn == 0
    {
      this.mem, this.faults, events, nextConn := mem, faults, [], 0;
    }

    /** The network as a new job finds it. */
    ghost function Fresh(): Session
      reads this
    {
      Start(mem, faults, events)
    }

    ghost predicate At(s: Session)
      reads this
    {
      mem == s.mem && faults == s.faults && events == s.events
    }

    method Send(conn: nat, c: Call) returns (fault: Fault, reply: Reply)
      modifies this`mem, this`faults, this`events
      ensures At(Transmit(conn, c, old(Fresh()))) && fault == Next(old(faults))
      ensures fault == Fine ==> reply == Answer(old(mem), c)
    {
      fault, reply := Next(faults), Ack;
      faults := Later(faults);
      events := events + [Sent(conn, c, fault)];
      if fault == Fine {
        reply := Answer(mem, c);
        mem := Apply(mem, c);
      }
    }

    /** `newConnection` followed by `Connect`. */
    method Dial() returns (ok: bool, conn: nat)
      modifies this
      ensures mem == old(mem) && faults == Later(old(faults)) && ok == (Next(old(faults)) == Fine)
      ensures ok ==> conn == old(nextConn) && nextConn == conn + 1 && events == old(events) + [Opened(conn)]
      ensures !ok ==> nextConn == old(nextConn) && events == old(events) + [DialFailed]
    {
      ok, conn := Next(faults) == Fine, nextConn;
      faults := Later(faults);
      if ok {
        nextConn := nextConn + 1;
        events := events + [Opened(conn)];
      } else {
        events := events + [DialFailed];
      }
    }

    method Shutdown(conn: nat)
      modifies this`events
      ensures events == old(events) + [Shut(conn)]
    {
      events := events + [Shut(conn)];
    }
  }

  method ReadWordBits(net: Network, conn: nat, at: DeviceAddr, bit: nat, count: nat)
    returns (fault: Fault, result: seq<bool>)
    modifies net`mem, net`faults, net`events
    ensures var s := RunProgram(conn, [Issue(ReadWords(at, 1))], old(net.Fresh()));
            net.At(s) && fault == s.outcome
    ensures fault == Fine ==> result == BitsOf(old(net.mem).words[at], bit, count)
  {
    RunSingle(conn, Issue(ReadWords(at, 1)), net.Fresh());
    assert Offset(at, 0) == at;
    var reply;
    fault, reply := net.Send(conn, ReadWords(at, 1));
    result := [];
    if fault != Fine {
      return;
    }
    var bits := new bool[count];
    for i := 0 to count
      modifies bits
      invariant forall j :: 0 <= j < i ==> bits[j] == Bit(reply.words[0], bit + j)
    {
      bits[i] := Bit(reply.words[0], bit + i);
    }
    result := bits[..];
  }

  method WriteWordBits(net: Network, conn: nat, at: DeviceAddr, bit: nat, values: seq<bool>) returns (fault: Fault)
    modifies net`mem, net`faults, net`events
    ensures var s := RunProgram(conn, WriteWordBitsProgram(at, bit, values), old(net.Fresh()));
            net.At(s) && fault == s.outcome
  {
    RunSingle(conn, Modify(at, Edits(bit, values)), net.Fresh());
    assert Offset(at, 0) == at;
    var reply;
    fault, reply := net.Send(conn, ReadWords(at, 1));
    if fault != Fine {
      return;
    }
    var word := reply.words[0];
    ghost var edits := Edits(bit, values);
    for i := 0 to |values|
      modifies {}
      invariant word == EditAll(reply.words[0], edits[..i])
    {
      EditSnoc(reply.words[0], edits, i);
      word := EditWord(word, Edit(bit + i, values[i]));
    }
    assert edits[..|values|] == edits;
    fault, reply := net.Send(conn, WriteWords(at, [word]));
  }

  lemma EditSnoc(w: Word, edits: seq<Edit>, i: nat)
    requires i < |edits|
    ensures EditAll(w, edits[..i + 1]) == EditWord(EditAll(w, edits[..i]), edits[i])
  {
    assert edits[..i + 1] == edits[..i] + [edits[i]];
    EditAllConcat(w, edits[..i], [edits[i]]);
    EditOne(EditAll(w, edits[..i]), edits[i]);
  }

  method ReadBitsAsWord(net: Network, conn: nat, at: DeviceAddr, nibbles: nat) returns (fault: Fault, packed: nat)
    modifies net`mem, net`faults, net`events
    ensures var s := RunProgram(conn, [Issue(ReadBits(at, 4 * nibbles))], old(net.Fresh()));
            net.At(s) && fault == s.outcome
    ensures fault == Fine ==> Answer(old(net.mem), ReadBits(at, 4 * nibbles)) == Bits(Unpack(packed, 4 * nibbles))
    ensures fault == Fine ==> packed < Pow2(4 * nibbles)
  {
    var width := 4 * nibbles;
    RunSingle(conn, Issue(ReadBits(at, width)), net.Fresh());
    var reply;
    fault, reply := net.Send(conn, ReadBits(at, width));
    packed := 0;
    if fault != Fine {
      return;
    }
    var bits := reply.bits;
    for i := 0 to |bits|
      modifies {}
      invariant packed == Pack(bits[..i])
    {
      PackSnoc(bits[..i], bits[i]);
      PackBits(bits[..i]);
      HighBitsClear(packed, i, i);
      assert bits[..i + 1] == bits[..i] + [bits[i]];
      if bits[i] {
        packed := PutBit(packed, i, true);
      }
    }
    assert bits[..|bits|] == bits;
    UnpackOfPack(bits);
    PackBits(bits);
  }

  method WriteBitsAsWord(net: Network, conn: nat, at: DeviceAddr, nibbles: nat, value: nat) returns (fault: Fault)
    modifies net`mem, net`faults, net`events
    ensures var s := RunProgram(conn, [Issue(WriteBits(at, Unpack(value, 4 * nibbles)))], old(net.Fresh()));
            net.At(s) && fault == s.outcome
  {
    var bits := new bool[4 * nibbles];
    for i := 0 to bits.Length
      modifies bits
      invariant forall j :: 0 <= j < i ==> bits[j] == Bit(value, j)
    {
      bits[i] := Bit(value, i);
    }
    assert bits[..] == Unpack(value, 4 * nibbles);
    RunSingle(conn, Issue(WriteBits(at, Unpack(value, 4 * nibbles))), net.Fresh());
    var reply;
    fault, reply := net.Send(conn, WriteBits(at, bits[..]));
  }

  // ---- Several calls on one connection ----

  // Taking instruction j of a program.
  lemma StepAt(conn: nat, p: Program, j: nat, s: Session)
    requires j < |p|
    ensures RunProgram(conn, p[j..], s) == RunProgram(conn, p[j + 1..], RunInstr(conn, p[j], s))
    ensures var s' := RunInstr(conn, p[j], s);
            s'.outcome != Fine ==> RunProgram(conn, p[j..], s) == s'
  {
    assert p[j..][0] == p[j] && p[j..][1..] == p[j + 1..];
    var s' := RunInstr(conn, p[j], s);
    if s'.outcome != Fine {
      RunStopped(conn, p[j + 1..], s');
    }
  }

  // The replies received before a program starts do not change what it does.
  lemma {:induction false} RepliesIgnored(conn: nat, p: Program, s: Session, replies: seq<Reply>)
    ensures var r := RunProgram(conn, p, s);
            var r' := RunProgram(conn, p, s.(replies := replies));
            r' == r.(replies := r'.replies)
    decreases |p|
  {
    if p != [] {
      var s' := RunInstr(conn, p[0], s);
      var s'' := RunInstr(conn, p[0], s.(replies := replies));
      assert s'' == s'.(replies := s''.replies);
      RepliesIgnored(conn, p[1..], s', s''.replies);
    }
  }

  method GroupByRegister(wbs: seq<WordBitWrite>) returns (groups: map<DeviceAddr, seq<Edit>>, order: seq<DeviceAddr>)
    ensures order == FirstMentions(wbs)
    ensures forall j :: 0 <= j < |order| ==> order[j] in groups && groups[order[j]] == EditsFor(wbs, order[j])
  {
    groups, order := map[], [];
    for i := 0 to |wbs|
      invariant order == FirstMentions(wbs[..i])
      invariant forall a :: a in groups <==> a in order
      invariant forall a :: a in groups ==> groups[a] == EditsFor(wbs[..i], a)
    {
      assert wbs[..i + 1][..i] == wbs[..i];
      var wb := wbs[i];
      if wb.at !in groups {
        EditsOfUnmentioned(wbs[..i], wb.at);
        order := order + [wb.at];
        groups := groups[wb.at := []];
      }
      groups := groups[wb.at := groups[wb.at] + [Edit(wb.bit, wb.value)]];
    }
    assert wbs[..|wbs|] == wbs;
  }

  /** `writeWordBits`: groups the entries by register, then reads, edits and writes each register once. */
  method WriteGroupedWordBits(net: Network, conn: nat, wbs: seq<WordBitWrite>) returns (fault: Fault)
    modifies net`mem, net`faults, net`events
    ensures var s := RunProgram(conn, GroupedProgram(wbs), old(net.Fresh()));
            net.At(s) && fault == s.outcome
  {
    var groups, order := GroupByRegister(wbs);
    ghost var p := GroupedProgram(wbs);
    ghost var s := net.Fresh();
    assert p[0..] == p;
    fault := Fine;
    for j := 0 to |order|
      invariant fault == Fine && net.Fresh() == s
      invariant RunProgram(conn, p[j..], s) == RunProgram(conn, p, old(net.Fresh()))
    {
      StepAt(conn, p, j, s);
      s := RunInstr(conn, p[j], s);
      fault := ModifyRegister(net, conn, order[j], groups[order[j]]);
      if fault != Fine {
        return;
      }
    }
    assert p[|order|..] == [];
  }

  method ModifyRegister(net: Network, conn: nat, at: DeviceAddr, edits: seq<Edit>) returns (fault: Fault)
    modifies net`mem, net`faults, net`events
    ensures var s := RunInstr(conn, Modify(at, edits), old(net.Fresh()));
            net.At(s) && fault == s.outcome && s.replies == []
  {
    assert Offset(at, 0) == at;
    var reply;
    fault, reply := net.Send(conn, ReadWords(at, 1));
    if fault != Fine {
      return;
    }
    var word := reply.words[0];
    for i := 0 to |edits|
      modifies {}
      invariant word == EditAll(reply.words[0], edits[..i])
    {
      EditSnoc(reply.words[0], edits, i);
      word := EditWord(word, edits[i]);
    }
    assert edits[..|edits|] == edits;
    fault, reply := net.Send(conn, WriteWords(at, [word]));
  }

  method RandomReadOn(net: Network, conn: nat, words: seq<DeviceAddr>, dwords: seq<DeviceAddr>, bits: seq<DeviceAddr>)
    returns (fault: Fault, wordVals: seq<Word>, dwordVals: seq<Dword>, bitVals: seq<bool>)
    modifies net`mem, net`faults, net`events
    ensures var s := RunProgram(conn, RandomReadProgram(words, dwords, bits), old(net.Fresh()));
            && net.At(s) && fault == s.outcome
            && (fault == Fine ==>
                  && wordVals == RandomWordsOf(words, dwords, s.replies)
                  && dwordVals == RandomDwordsOf(words, dwords, s.replies)
                  && bitVals == RandomBitsOf(words, dwords, bits, s.replies))
  {
    wordVals, dwordVals, bitVals := [], [], [];
    ghost var needed, c := |words| + |dwords| > 0, RandomRead(words, dwords);
    ghost var s := RunProgram(conn, Optional(needed, c), net.Fresh());
    RunConcat(conn, Optional(needed, c), ReadEach(bits), net.Fresh());
    RunSingle(conn, Issue(c), net.Fresh());
    if |words| + |dwords| > 0 {
      var reply;
      fault, reply := net.Send(conn, RandomRead(words, dwords));
      if fault != Fine {
        RunStopped(conn, ReadEach(bits), s);
        return;
      }
      wordVals, dwordVals := reply.randomWords, reply.randomDwords;
    }
    fault, bitVals := ReadEachBit(net, conn, bits, s);
  }

  /** Native bit devices have no random read, so each costs its own `ReadBits`. */
  method ReadEachBit(net: Network, conn: nat, bits: seq<DeviceAddr>, ghost s: Session)
    returns (fault: Fault, result: seq<bool>)
    requires net.At(s) && s.outcome == Fine
    modifies net`mem, net`faults, net`events
    ensures var s' := RunProgram(conn, ReadEach(bits), s);
            && net.At(s') && fault == s'.outcome
            && (fault == Fine ==>
                  && |s'.replies| == |s.replies| + |bits| && s.replies <= s'.replies
                  && |result| == |bits|
                  && forall j :: 0 <= j < |bits| ==> FirstBit(s'.replies[|s.replies| + j], result[j]))
  {
    ghost var p := ReadEach(bits);
    ghost var now := s;
    assert p[0..] == p;
    fault := Fine;
    result := [];
    for i := 0 to |bits|
      invariant fault == Fine && now.outcome == Fine && net.At(now)
      invariant RunProgram(conn, p[i..], now) == RunProgram(conn, p, s)
      invariant |result| == i && |now.replies| == |s.replies| + i && s.replies <= now.replies
      invariant forall j :: 0 <= j < i ==> FirstBit(now.replies[|s.replies| + j], result[j])
    {
      StepAt(conn, p, i, now);
      now := RunInstr(conn, p[i], now);
      var reply;
      fault, reply := net.Send(conn, ReadBits(bits[i], 1));
      if fault != Fine {
        return;
      }
      result := result + [|reply.bits| > 0 && reply.bits[0]];
    }
    assert p[|bits|..] == [];
  }

  ghost predicate FirstBit(reply: Reply, v: bool) {
    reply.Bits? && v == (|reply.bits| > 0 && reply.bits[0])
  }

  method RandomWriteOn(
    net: Network, conn: nat, words: seq<(DeviceAddr, Word)>, dwords: seq<(DeviceAddr, Dword)>,
    bits: seq<(DeviceAddr, bool)>, wordBits: seq<WordBitWrite>
  ) returns (fault: Fault)
    modifies net`mem, net`faults, net`events
    ensures var s := RunProgram(conn, RandomWriteProgram(words, dwords, bits, wordBits), old(net.Fresh()));
            net.At(s) && fault == s.outcome
  {
    ghost var c, c' := RandomWrite(words, dwords), RandomWriteBits(bits);
    ghost var a, b, p := Optional(|words| + |dwords| > 0, c), Optional(|bits| > 0, c'), GroupedProgram(wordBits);
    ghost var s := net.Fresh();
    RunConcat(conn, a, b, s);
    RunConcat(conn, a + b, p, s);
    RunSingle(conn, Issue(c), s);
    ghost var sa := RunProgram(conn, a, s);
    RunSingle(conn, Issue(c'), sa);
    ghost var sb := RunProgram(conn, b, sa);
    var reply;
    if |words| + |dwords| > 0 {
      fault, reply := net.Send(conn, RandomWrite(words, dwords));
      if fault != Fine {
        RunStopped(conn, b, sa);
        RunStopped(conn, p, sa);
        return;
      }
    }
    if |bits| > 0 {
      fault, reply := net.Send(conn, RandomWriteBits(bits));
      if fault != Fine {
        RunStopped(conn, p, sb);
        return;
      }
    }
    RepliesIgnored(conn, p, sb, []);
    fault := WriteGroupedWordBits(net, conn, wordBits);
  }
}

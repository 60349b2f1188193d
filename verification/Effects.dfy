/**
 Which bits a program sets, and to what: the memory a run leaves is that of the instructions it
 performed, each bit as the last of them that sets it left it.
 */
module Effects {
  import opened Options
  import opened Words
  import opened Wire
  import opened Programs

  // ---- What one call stores ----

  predicate InRun(at: DeviceAddr, count: nat, a: DeviceAddr) {
    a.device == at.device && at.addr <= a.addr < at.addr + count
  }

  /** What a call stores in register `a`, if anything. */
  function Stored(c: Call, a: DeviceAddr): Option<Word> {
    match c
    case WriteWords(at, words) => if InRun(at, |words|, a) then Some(words[a.addr - at.addr]) else None
    case RandomWrite(ws, ds) => if InDwords(ds, a).Some? then InDwords(ds, a) else InList(ws, a)
    case _ => None
  }

  /** The last value listed for `a`. */
  function InList<V>(writes: seq<(DeviceAddr, V)>, a: DeviceAddr): Option<V> {
    if writes == [] then None
    else
      var later := InList(writes[1..], a);
      if later.Some? then later else if writes[0].0 == a then Some(writes[0].1) else None
  }

  /** The last half of a double word listed for `a`. */
  function InDwords(writes: seq<(DeviceAddr, Dword)>, a: DeviceAddr): Option<Word> {
    if writes == [] then None
    else
      var (at, v) := writes[0];
      var later := InDwords(writes[1..], a);
      if later.Some? then later
      else if a == Offset(at, 1) then Some(v / 0x1_0000)
      else if a == at then Some(v % 0x1_0000)
      else None
  }

  /** What a call stores in bit device `a`, if anything. */
  function StoredBit(c: Call, a: DeviceAddr): Option<bool> {
    match c
    case WriteBits(at, bits) => if InRun(at, |bits|, a) then Some(bits[a.addr - at.addr]) else None
    case RandomWriteBits(bs) => InList(bs, a)
    case _ => None
  }

  function Or<V>(v: Option<V>, before: V): V {
    if v.Some? then v.value else before
  }

  lemma {:induction false} WordListStored(m: WordStore, writes: seq<(DeviceAddr, Word)>, a: DeviceAddr)
    ensures StoreWordList(m, writes)[a] == Or(InList(writes, a), m[a])
    decreases |writes|
  {
    if writes != [] {
      WordListStored(m[writes[0].0 := writes[0].1], writes[1..], a);
    }
  }

  lemma {:induction false} DwordListStored(m: WordStore, writes: seq<(DeviceAddr, Dword)>, a: DeviceAddr)
    ensures StoreDwordList(m, writes)[a] == Or(InDwords(writes, a), m[a])
    decreases |writes|
  {
    if writes != [] {
      var (at, v) := writes[0];
      DwordListStored(m[at := v % 0x1_0000][Offset(at, 1) := v / 0x1_0000], writes[1..], a);
    }
  }

  lemma {:induction false} BitListStored(m: BitStore, writes: seq<(DeviceAddr, bool)>, a: DeviceAddr)
    ensures StoreBitList(m, writes)[a] == Or(InList(writes, a), m[a])
    decreases |writes|
  {
    if writes != [] {
      BitListStored(m[writes[0].0 := writes[0].1], writes[1..], a);
    }
  }

  // A call leaves each register and each bit device as it stored it, or as it was.
  lemma CallStores(m: Memory, c: Call, a: DeviceAddr)
    ensures Apply(m, c).words[a] == Or(Stored(c, a), m.words[a])
    ensures Apply(m, c).bits[a] == Or(StoredBit(c, a), m.bits[a])
  {
    match c
    case WriteWords(at, words) => StoreWordsAt(m.words, at, words, a);
    case WriteBits(at, bits) => StoreBitsAt(m.bits, at, bits, a);
    case RandomWrite(ws, ds) =>
      WordListStored(m.words, ws, a);
      DwordListStored(StoreWordList(m.words, ws), ds, a);
    case RandomWriteBits(bs) => BitListStored(m.bits, bs, a);
    case _ =>
  }

  // ---- What one instruction sets ----

  /** The last edit of bit `k`. */
  function LastEdit(edits: seq<Edit>, k: nat): Option<bool> {
    if edits == [] then None
    else
      var later := LastEdit(edits[1..], k);
      if later.Some? then later else if edits[0].bit == k then Some(edits[0].value) else None
  }

  lemma {:induction false} EditAllBit(w: Word, edits: seq<Edit>, k: nat)
    requires k < 16
    ensures Bit(EditAll(w, edits), k) == Or(LastEdit(edits, k), Bit(w, k))
    decreases |edits|
  {
    if edits != [] {
      EditAllBit(EditWord(w, edits[0]), edits[1..], k);
      if edits[0].bit < 16 {
        PutBitBits(w, edits[0].bit, edits[0].value, k);
      }
    }
  }

  /** The value an instruction gives to bit `k` of register `a`, if it sets that bit. */
  function Sets(i: Instr, a: DeviceAddr, k: nat): Option<bool> {
    match i
    case Issue(c) => if Stored(c, a).Some? then Some(Bit(Stored(c, a).value, k)) else None
    case Modify(at, edits) => if at == a then LastEdit(edits, k) else None
  }

  /** The value an instruction gives to bit device `a`, if it sets it. */
  function SetsDevice(i: Instr, a: DeviceAddr): Option<bool> {
    match i
    case Issue(c) => StoredBit(c, a)
    case Modify(_, _) => None
  }

  // ---- What a list of instructions leaves ----

  /** What bit `k` of register `a` was last set to, or `before` if nothing sets it. */
  function LastSet(p: Program, a: DeviceAddr, k: nat, before: bool): bool {
    if p == [] then before
    else
      var n := |p| - 1;
      Or(Sets(p[n], a, k), LastSet(p[..n], a, k, before))
  }

  function LastSetDevice(p: Program, a: DeviceAddr, before: bool): bool {
    if p == [] then before
    else
      var n := |p| - 1;
      Or(SetsDevice(p[n], a), LastSetDevice(p[..n], a, before))
  }

  /** `m'` is what the instructions of `p` make of `m`. */
  ghost predicate Leaves(m: Memory, p: Program, m': Memory) {
    && (forall a: DeviceAddr, k: nat :: k < 16 ==>
          Bit(m'.words[a], k) == LastSet(p, a, k, Bit(m.words[a], k)))
    && (forall a: DeviceAddr :: m'.bits[a] == LastSetDevice(p, a, m.bits[a]))
  }

  lemma {:induction false} LastSetConcat(p: Program, q: Program, a: DeviceAddr, k: nat, before: bool)
    ensures LastSet(p + q, a, k, before) == LastSet(q, a, k, LastSet(p, a, k, before))
    ensures LastSetDevice(p + q, a, before) == LastSetDevice(q, a, LastSetDevice(p, a, before))
    decreases |q|
  {
    if q == [] {
      assert p + q == p;
    } else {
      var n := |q| - 1;
      assert (p + q)[..|p| + n] == p + q[..n];
      LastSetConcat(p, q[..n], a, k, before);
    }
  }

  lemma LeavesConcat(m: Memory, p: Program, m': Memory, q: Program, m'': Memory)
    requires Leaves(m, p, m') && Leaves(m', q, m'')
    ensures Leaves(m, p + q, m'')
  {
    forall a: DeviceAddr, k: nat | k < 16
      ensures Bit(m''.words[a], k) == LastSet(p + q, a, k, Bit(m.words[a], k))
    {
      LastSetConcat(p, q, a, k, Bit(m.words[a], k));
    }
    forall a: DeviceAddr
      ensures m''.bits[a] == LastSetDevice(p + q, a, m.bits[a])
    {
      LastSetConcat(p, q, a, 0, m.bits[a]);
    }
  }

  lemma LeavesNothing(m: Memory)
    ensures Leaves(m, [], m)
  {
  }

  // What is left is determined: no two memories differ in every bit as prescribed.
  lemma LeavesOne(m: Memory, p: Program, x: Memory, y: Memory)
    requires Leaves(m, p, x) && Leaves(m, p, y)
    ensures x == y
  {
    forall a
      ensures x.words[a] == y.words[a]
    {
      forall k: nat | k < 16
        ensures Bit(x.words[a], k) == Bit(y.words[a], k)
      {
        assert Bit(x.words[a], k) == LastSet(p, a, k, Bit(m.words[a], k));
      }
      SameWord(x.words[a], y.words[a]);
    }
  }

  lemma SameWord(x: Word, y: Word)
    requires forall k: nat :: k < 16 ==> Bit(x, k) == Bit(y, k)
    ensures x == y
  {
    PowersOfTwo();
    BitsDetermine(x, y, 16);
  }

  lemma OneInstruction(i: Instr, a: DeviceAddr, k: nat, before: bool)
    ensures LastSet([i], a, k, before) == Or(Sets(i, a, k), before)
    ensures LastSetDevice([i], a, before) == Or(SetsDevice(i, a), before)
  {
    assert [i][..0] == [];
    assert LastSet([], a, k, before) == before && LastSetDevice([], a, before) == before;
  }

  lemma CallLeaves(m: Memory, c: Call)
    ensures Leaves(m, [Issue(c)], Apply(m, c))
  {
    forall a: DeviceAddr, k: nat | k < 16
      ensures Bit(Apply(m, c).words[a], k) == LastSet([Issue(c)], a, k, Bit(m.words[a], k))
    {
      CallStores(m, c, a);
      OneInstruction(Issue(c), a, k, Bit(m.words[a], k));
    }
    forall a: DeviceAddr
      ensures Apply(m, c).bits[a] == LastSetDevice([Issue(c)], a, m.bits[a])
    {
      CallStores(m, c, a);
      OneInstruction(Issue(c), a, 0, m.bits[a]);
    }
  }

  lemma ModifyLeaves(m: Memory, at: DeviceAddr, edits: seq<Edit>)
    ensures Leaves(m, [Modify(at, edits)], Apply(m, WriteWords(at, [EditAll(m.words[at], edits)])))
  {
    var i, m' := Modify(at, edits), m.(words := m.words[at := EditAll(m.words[at], edits)]);
    StoreOne(m, at, EditAll(m.words[at], edits));
    forall a: DeviceAddr, k: nat | k < 16
      ensures Bit(m'.words[a], k) == LastSet([i], a, k, Bit(m.words[a], k))
    {
      OneInstruction(i, a, k, Bit(m.words[a], k));
      EditAllBit(m.words[at], edits, k);
    }
    forall a: DeviceAddr
      ensures m'.bits[a] == LastSetDevice([i], a, m.bits[a])
    {
      OneInstruction(i, a, 0, m.bits[a]);
    }
  }

  // An instruction whose calls all succeed leaves what it sets; otherwise it leaves the memory alone.
  lemma InstrLeaves(conn: nat, i: Instr, s: Session)
    requires s.outcome == Fine
    ensures var s' := RunInstr(conn, i, s);
            if s'.outcome == Fine then Leaves(s.mem, [i], s'.mem) else s'.mem == s.mem
  {
    match i
    case Issue(c) => CallLeaves(s.mem, c);
    case Modify(at, edits) => ModifyLeaves(s.mem, at, edits);
  }

  // Whatever fails, a run has performed its first `j` instructions and nothing else: all of them
  // exactly when it ends well.
  lemma {:induction false} ProgramLeaves(conn: nat, p: Program, s: Session) returns (j: nat)
    requires s.outcome == Fine
    ensures var r := RunProgram(conn, p, s);
            j <= |p| && (r.outcome == Fine <==> j == |p|) && Leaves(s.mem, p[..j], r.mem)
    decreases |p|
  {
    j := 0;
    LeavesNothing(s.mem);
    if p != [] {
      var s' := RunInstr(conn, p[0], s);
      InstrLeaves(conn, p[0], s);
      if s'.outcome == Fine {
        var j' := ProgramLeaves(conn, p[1..], s');
        j := j' + 1;
        LeavesConcat(s.mem, [p[0]], s'.mem, p[1..][..j'], RunProgram(conn, p[1..], s').mem);
        assert [p[0]] + p[1..][..j'] == p[..j];
      } else {
        RunStopped(conn, p[1..], s');
      }
    }
  }

  // ---- Grouped bit writes ----

  // The first `j` groups set exactly the bits their entries name, each to the last entry's value.
  lemma GroupsSet(wbs: seq<WordBitWrite>, j: nat, a: DeviceAddr, k: nat, before: bool)
    requires j <= |FirstMentions(wbs)| && k < 16
    ensures LastSet(GroupedProgram(wbs)[..j], a, k, before)
            == LastWritten(OnlyTo(wbs, FirstMentions(wbs)[..j]), a, k, before)
  {
    var order := FirstMentions(wbs)[..j];
    assert GroupedProgram(wbs)[..j] == ProgramOver(order, wbs);
    GroupsSetBit(order, wbs, a, k, before);
    OnlyToEdits(wbs, order, a);
    LastWrittenByEdits(OnlyTo(wbs, order), a, k, before);
  }

  lemma {:induction false} GroupsSetBit(
    order: seq<DeviceAddr>, wbs: seq<WordBitWrite>, a: DeviceAddr, k: nat, before: bool
  )
    requires Distinct(order)
    ensures LastSet(ProgramOver(order, wbs), a, k, before)
            == if a in order then Or(LastEdit(EditsFor(wbs, a), k), before) else before
    decreases |order|
  {
    if order != [] {
      var n := |order| - 1;
      GroupsSetBit(order[..n], wbs, a, k, before);
      assert ProgramOver(order, wbs)[..n] == ProgramOver(order[..n], wbs);
      assert a in order <==> a in order[..n] || a == order[n];
      assert order[n] !in order[..n];
    }
  }

  lemma {:induction false} LastEditSnoc(edits: seq<Edit>, e: Edit, k: nat)
    ensures LastEdit(edits + [e], k) == if e.bit == k then Some(e.value) else LastEdit(edits, k)
    decreases |edits|
  {
    if edits == [] {
      assert LastEdit([e][1..], k) == None;
    } else {
      assert (edits + [e])[1..] == edits[1..] + [e];
      LastEditSnoc(edits[1..], e, k);
    }
  }

  lemma {:induction false} LastWrittenByEdits(wbs: seq<WordBitWrite>, a: DeviceAddr, k: nat, before: bool)
    ensures LastWritten(wbs, a, k, before) == Or(LastEdit(EditsFor(wbs, a), k), before)
  {
    if wbs != [] {
      var n := |wbs| - 1;
      LastWrittenByEdits(wbs[..n], a, k, before);
      if wbs[n].at == a {
        LastEditSnoc(EditsFor(wbs[..n], a), Edit(wbs[n].bit, wbs[n].value), k);
      } else {
        assert EditsFor(wbs, a) == EditsFor(wbs[..n], a);
      }
    }
  }
}

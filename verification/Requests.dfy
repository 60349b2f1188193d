/**
 The meaning of /read and /write, stated on the device memory directly: which requests are
 accepted, which values a memory shows at an address, and which devices a write can touch. The
 planned calls of `ReadWrite` are proved to meet it.
 */
module Requests {
  import opened Options
  import opened Words
  import opened Wire
  import opened Programs
  import opened Addresses
  import opened Effects
  import opened ReadWrite

  // ---- Which requests are accepted ----

  predicate InRange(v: int, dword: bool, sint: bool) {
    if dword then (if sint then -0x8000_0000 <= v <= 0x7fff_ffff else 0 <= v <= 0xffff_ffff)
    else (if sint then -0x8000 <= v <= 0x7fff else 0 <= v <= 0xffff)
  }

  // A read asks for a single number in K notation, for bits of one register, for up to 1024 registers
  // or 512 double words, or for up to 1024 bit devices; flags only where numbers are read.
  lemma ReadAcceptedIff(addr: string, count: int, dword: bool, sint: bool)
    ensures PlanRead(addr, count, dword, sint).Some? <==>
            && Parse(addr).Some?
            && var pa := Parse(addr).value;
               if pa.nibbles > 0 then count == 1 && !dword
               else if pa.bit >= 0 then 1 <= count <= 16 - pa.bit && !dword && !sint
               else if IsWordDevice(pa.at.device) then 1 <= count <= if dword then 512 else 1024
               else 1 <= count <= 1024 && !dword && !sint
  {
    if Parse(addr).Some? {
      AcceptedIsWellFormed(addr);
    }
  }

  // A write brings one number that fits the devices in K notation, booleans that stay within one
  // register, up to 1024 numbers or 512 double words all in range, or up to 1024 booleans.
  lemma WriteAcceptedIff(addr: string, dword: bool, sint: bool, values: Values)
    ensures PlanWrite(addr, dword, sint, values).Some? <==>
            && Parse(addr).Some?
            && var pa := Parse(addr).value;
               if pa.nibbles > 0 then
                 !dword && values.Ints? && |values.ints| == 1 && FitsInBits(values.ints[0], 4 * pa.nibbles, sint)
               else if pa.bit >= 0 then !dword && !sint && values.Bools? && 1 <= |values.bools| <= 16 - pa.bit
               else if IsWordDevice(pa.at.device) then
                 && values.Ints? && 1 <= |values.ints| <= (if dword then 512 else 1024)
                 && forall i :: 0 <= i < |values.ints| ==> InRange(values.ints[i], dword, sint)
               else !dword && !sint && values.Bools? && 1 <= |values.bools| <= 1024
  {
    if values.Ints? {
      forall i | 0 <= i < |values.ints|
        ensures FitsInBits(values.ints[i], if dword then 32 else 16, sint) <==> InRange(values.ints[i], dword, sint)
      {
        RangeOf(values.ints[i], sint);
      }
    }
  }

  // ---- Which values a memory shows ----

  /** The number of item `i`: a register, or a register with the next one above it. */
  function Stands(m: Memory, at: DeviceAddr, dword: bool, i: nat): int {
    var low: int := m.words[Offset(at, if dword then 2 * i else i)];
    var high: int := m.words[Offset(at, 2 * i + 1)];
    if dword then low + 0x1_0000 * high else low
  }

  /** `v` is the number in range that agrees with what stands in the registers, bit for bit. */
  predicate ShowsNumber(v: int, stands: int, dword: bool, sint: bool) {
    InRange(v, dword, sint) && (v - stands) % (if dword then 0x1_0000_0000 else 0x1_0000) == 0
  }

  /** `v` fits `width` bits, and its bits, lowest first, are the devices from `at` on. */
  ghost predicate ShowsDevices(m: Memory, at: DeviceAddr, width: nat, sint: bool, v: int)
    requires 1 <= width
  {
    FitsInBits(v, width, sint) && forall i: nat :: i < width ==> m.bits[Offset(at, i)] == Bit(v % 0x1_0000_0000, i)
  }

  ghost predicate ShowsNumbers(m: Memory, at: DeviceAddr, dword: bool, sint: bool, vals: seq<int>) {
    forall i :: 0 <= i < |vals| ==> ShowsNumber(vals[i], Stands(m, at, dword, i), dword, sint)
  }

  predicate ShowsBits(w: Word, bit: nat, vals: seq<bool>) {
    forall i :: 0 <= i < |vals| ==> vals[i] == Bit(w, bit + i)
  }

  predicate ShowsBools(m: Memory, at: DeviceAddr, vals: seq<bool>) {
    forall i :: 0 <= i < |vals| ==> vals[i] == m.bits[Offset(at, i)]
  }

  /** What the memory shows at an address. */
  ghost predicate Shows(m: Memory, pa: ParsedAddr, dword: bool, sint: bool, values: Values) {
    if pa.nibbles > 0 then
      values.Ints? && |values.ints| == 1 && ShowsDevices(m, pa.at, 4 * pa.nibbles, sint, values.ints[0])
    else if pa.bit >= 0 then values.Bools? && ShowsBits(m.words[pa.at], pa.bit, values.bools)
    else if IsWordDevice(pa.at.device) then values.Ints? && ShowsNumbers(m, pa.at, dword, sint, values.ints)
    else values.Bools? && ShowsBools(m, pa.at, values.bools)
  }

  lemma WordShown(w: Word, sint: bool)
    ensures ShowsNumber(Shown(w, 16, sint), w, false, sint)
  {
    PowersOfTwo();
    ShownFits(w, 16, sint);
    RangeOf(Shown(w, 16, sint), sint);
  }

  lemma DwordShown(u: Dword, sint: bool)
    ensures ShowsNumber(Shown(u, 32, sint), u, true, sint)
  {
    PowersOfTwo();
    ShownFits(u, 32, sint);
    RangeOf(Shown(u, 32, sint), sint);
  }

  lemma NumbersShown(m: Memory, at: DeviceAddr, words: seq<Word>, sint: bool)
    requires Standing(m.words, at, words)
    ensures ShowsNumbers(m, at, false, sint, ShownWords(words, sint))
  {
    forall i | 0 <= i < |words|
      ensures ShowsNumber(ShownWords(words, sint)[i], Stands(m, at, false, i), false, sint)
    {
      WordShown(words[i], sint);
    }
  }

  lemma DwordsShown(m: Memory, at: DeviceAddr, words: seq<Word>, sint: bool)
    requires Standing(m.words, at, words)
    ensures ShowsNumbers(m, at, true, sint, ShownDwords(words, sint))
  {
    forall i | 0 <= i < |words| / 2
      ensures ShowsNumber(ShownDwords(words, sint)[i], Stands(m, at, true, i), true, sint)
    {
      ShownAt(words, sint, i);
      DwordShown(Combined(words[2 * i], words[2 * i + 1]), sint);
    }
  }

  lemma WordsShown(m: Memory, at: DeviceAddr, count: nat, dword: bool, sint: bool)
    ensures var values := ReadFrom(m, ReadPlan(at, WordList(count, dword, sint)));
            && values.Some? && values.value.Ints? && |values.value.ints| == count
            && ShowsNumbers(m, at, dword, sint, values.value.ints)
  {
    WordListRead(m, at, count, dword, sint);
    var words := Wire.Answer(m, ReadWords(at, if dword then 2 * count else count)).words;
    if dword {
      DwordsShown(m, at, words, sint);
    } else {
      NumbersShown(m, at, words, sint);
    }
  }

  lemma RangeShown(m: Memory, at: DeviceAddr, bit: nat, count: nat)
    ensures var values := ReadFrom(m, ReadPlan(at, BitRange(bit, count)));
            && values.Some? && values.value.Bools? && |values.value.bools| == count
            && ShowsBits(m.words[at], bit, values.value.bools)
  {
    assert Offset(at, 0) == at;
  }

  lemma BoolsShown(m: Memory, at: DeviceAddr, count: nat)
    ensures var values := ReadFrom(m, ReadPlan(at, BitList(count)));
            && values.Some? && values.value.Bools? && |values.value.bools| == count
            && ShowsBools(m, at, values.value.bools)
  {
  }

  lemma DevicesShown(m: Memory, at: DeviceAddr, nibbles: nat, sint: bool)
    requires 1 <= nibbles <= 8
    ensures var values := ReadFrom(m, ReadPlan(at, Packed(nibbles, sint)));
            && values.Some? && values.value.Ints? && |values.value.ints| == 1
            && ShowsDevices(m, at, 4 * nibbles, sint, values.value.ints[0])
  {
    var bits := Wire.Answer(m, ReadBits(at, 4 * nibbles)).bits;
    var v := Shown(Pack(bits), 4 * nibbles, sint);
    PackedReadFits(bits, nibbles, sint);
    PowersOfTwo();
    forall i: nat | i < 4 * nibbles
      ensures m.bits[Offset(at, i)] == Bit(v % 0x1_0000_0000, i)
    {
      assert bits[i] == Unpack(Wrap(v, 32), 4 * nibbles)[i];
    }
  }

  // Every accepted read returns as many values as were asked for, and exactly those the memory shows.
  lemma ReadShows(addr: string, count: int, dword: bool, sint: bool, m: Memory)
    requires PlanRead(addr, count, dword, sint).Some?
    ensures var values := ReadFrom(m, PlanRead(addr, count, dword, sint).value);
            && values.Some? && Length(values.value) == count
            && Shows(m, Parse(addr).value, dword, sint, values.value)
  {
    AcceptedIsWellFormed(addr);
    var plan := PlanRead(addr, count, dword, sint).value;
    match plan.shape {
      case Packed(nibbles, _) => DevicesShown(m, plan.at, nibbles, sint);
      case BitRange(bit, n) => RangeShown(m, plan.at, bit, n);
      case WordList(n, _, _) => WordsShown(m, plan.at, n, dword, sint);
      case BitList(n) => BoolsShown(m, plan.at, n);
    }
  }

  // After every accepted write that ends well the memory shows the written values.
  lemma WriteShows(addr: string, dword: bool, sint: bool, values: Values, conn: nat, s: Session)
    requires PlanWrite(addr, dword, sint, values).Some? && s.outcome == Fine
    ensures var r := RunProgram(conn, PlanWrite(addr, dword, sint, values).value, s);
            && (s.faults == [] ==> r.outcome == Fine)
            && (r.outcome == Fine ==> Shows(r.mem, Parse(addr).value, dword, sint, values))
  {
    WriteThenRead(addr, dword, sint, values, conn, s);
    ReadShows(addr, Length(values), dword, sint, RunProgram(conn, PlanWrite(addr, dword, sint, values).value, s).mem);
  }

  // ---- Which devices a write touches ----

  /** The bits of registers, and the bit devices, that the values of a write go to. */
  predicate Target(pa: ParsedAddr, dword: bool, count: nat, a: DeviceAddr, k: nat) {
    && pa.nibbles == 0 && IsWordDevice(pa.at.device)
    && if pa.bit >= 0 then a == pa.at && pa.bit <= k < pa.bit + count
       else a.device == pa.at.device && pa.at.addr <= a.addr < pa.at.addr + if dword then 2 * count else count
  }

  predicate TargetDevice(pa: ParsedAddr, count: nat, a: DeviceAddr) {
    && (pa.nibbles > 0 || !IsWordDevice(pa.at.device)) && a.device == pa.at.device
    && pa.at.addr <= a.addr < pa.at.addr + if pa.nibbles > 0 then 4 * pa.nibbles else count
  }

  lemma {:induction false} EditsSet(bit: nat, values: seq<bool>, k: nat)
    ensures LastEdit(Edits(bit, values), k).Some? <==> bit <= k < bit + |values|
    decreases |values|
  {
    if values != [] {
      var n := |values| - 1;
      EditsSet(bit, values[..n], k);
      LastEditSnoc(Edits(bit, values[..n]), Edit(bit + n, values[n]), k);
      assert Edits(bit, values) == Edits(bit, values[..n]) + [Edit(bit + n, values[n])];
    }
  }

  // An accepted write sets exactly the bits and devices its values go to, and nothing else.
  lemma WriteTouches(addr: string, dword: bool, sint: bool, values: Values, a: DeviceAddr, k: nat)
    requires PlanWrite(addr, dword, sint, values).Some? && k < 16
    ensures var p, pa := PlanWrite(addr, dword, sint, values).value, Parse(addr).value;
            && |p| == 1
            && (Sets(p[0], a, k).Some? <==> Target(pa, dword, Length(values), a, k))
            && (SetsDevice(p[0], a).Some? <==> TargetDevice(pa, Length(values), a))
  {
    AcceptedIsWellFormed(addr);
    var pa := Parse(addr).value;
    if pa.nibbles == 0 && pa.bit >= 0 {
      EditsSet(pa.bit, values.bools, k);
    }
  }

  // So an accepted write leaves every other bit and device as it was, whatever fails.
  lemma WriteSparesOthers(
    addr: string, dword: bool, sint: bool, values: Values, conn: nat, s: Session, a: DeviceAddr, k: nat
  )
    requires PlanWrite(addr, dword, sint, values).Some? && s.outcome == Fine && k < 16
    ensures var m' := RunProgram(conn, PlanWrite(addr, dword, sint, values).value, s).mem;
            var pa := Parse(addr).value;
            && (!Target(pa, dword, Length(values), a, k) ==> Bit(m'.words[a], k) == Bit(s.mem.words[a], k))
            && (!TargetDevice(pa, Length(values), a) ==> m'.bits[a] == s.mem.bits[a])
  {
    var p := PlanWrite(addr, dword, sint, values).value;
    var j := ProgramLeaves(conn, p, s);
    WriteTouches(addr, dword, sint, values, a, k);
    assert p[..j] == [] || p[..j] == [p[0]];
    OneInstruction(p[0], a, k, Bit(s.mem.words[a], k));
    OneInstruction(p[0], a, k, s.mem.bits[a]);
  }
}

/**
 What /read and /write do between the decoded request and the PLC: which call a request
 becomes, how numbers are converted on the way in and out, and that reading back what was
 written returns it.
 */
module ReadWrite {
  import opened Options
  import opened Words
  import opened Wire
  import opened Programs
  import opened Addresses

  const MAX_READ_COUNT := 1024
  const MAX_WRITE_VALUES := 1024

  /** A decoded JSON array, in a request body or in a response. */
  datatype Values = Ints(ints: seq<int>) | Bools(bools: seq<bool>)

  function Length(v: Values): nat {
    if v.Ints? then |v.ints| else |v.bools|
  }

  // ---- Converting numbers ----

  predicate AllFit(vals: seq<int>, width: nat, sint: bool)
    requires 1 <= width
  {
    forall i :: 0 <= i < |vals| ==> FitsInBits(vals[i], width, sint)
  }

  function Low(u: Dword): Word {
    u % 0x1_0000
  }

  function High(u: Dword): Word {
    u / 0x1_0000
  }

  function ToWord(v: int): Word {
    PowersOfTwo();
    Wrap(v, 16)
  }

  function ToDword(v: int): Dword {
    PowersOfTwo();
    Wrap(v, 32)
  }

  function EncodedWords(vals: seq<int>): seq<Word> {
    seq(|vals|, i requires 0 <= i < |vals| => ToWord(vals[i]))
  }

  /** Value `i` takes words `2 i` and `2 i + 1`, low half first. */
  function EncodedDwords(vals: seq<int>): seq<Word> {
    seq(2 * |vals|, k requires 0 <= k < 2 * |vals| =>
      if k % 2 == 0 then Low(ToDword(vals[k / 2])) else High(ToDword(vals[k / 2])))
  }

  lemma EncodedAt(vals: seq<int>, i: nat)
    requires i < |vals|
    ensures EncodedDwords(vals)[2 * i] == Low(ToDword(vals[i]))
    ensures EncodedDwords(vals)[2 * i + 1] == High(ToDword(vals[i]))
  {
    assert 2 * i / 2 == i && (2 * i + 1) / 2 == i;
  }

  function ShownWords(words: seq<Word>, sint: bool): seq<int> {
    seq(|words|, i requires 0 <= i < |words| => Shown(words[i], 16, sint))
  }

  function ShownDwords(words: seq<Word>, sint: bool): seq<int> {
    seq(|words| / 2, i requires 0 <= i < |words| / 2 => Shown(Combined(words[2 * i], words[2 * i + 1]), 32, sint))
  }

  lemma RangeOf(v: int, sint: bool)
    ensures FitsInBits(v, 32, sint) <==> if sint then -0x8000_0000 <= v <= 0x7fff_ffff else 0 <= v <= 0xffff_ffff
    ensures FitsInBits(v, 16, sint) <==> if sint then -0x8000 <= v <= 0x7fff else 0 <= v <= 0xffff
  {
    PowersOfTwo();
  }

  lemma AllFitSnoc(vals: seq<int>, width: nat, sint: bool, i: nat)
    requires i < |vals| && 1 <= width && AllFit(vals[..i], width, sint)
    ensures AllFit(vals[..i + 1], width, sint) <==> FitsInBits(vals[i], width, sint)
    ensures AllFit(vals, width, sint) ==> FitsInBits(vals[i], width, sint)
  {
    assert vals[..i + 1] == vals[..i] + [vals[i]];
  }

  lemma EncodedSnoc(vals: seq<int>, i: nat)
    requires i < |vals|
    ensures EncodedDwords(vals[..i + 1]) == EncodedDwords(vals[..i]) + [Low(ToDword(vals[i])), High(ToDword(vals[i]))]
  {
    var all, some := EncodedDwords(vals[..i + 1]), EncodedDwords(vals[..i]);
    EncodedAt(vals[..i + 1], i);
    forall k | 0 <= k < 2 * i
      ensures all[k] == some[k]
    {
      assert k / 2 < i;
    }
  }

  method EncodeDwords(vals: seq<int>, sint: bool) returns (r: Option<seq<Word>>)
    ensures r == if AllFit(vals, 32, sint) then Some(EncodedDwords(vals)) else None
  {
    var words := new Word[2 * |vals|](_ => 0);
    for i := 0 to |vals|
      invariant AllFit(vals[..i], 32, sint)
      invariant words[..2 * i] == EncodedDwords(vals[..i])
    {
      var v := vals[i];
      RangeOf(v, sint);
      AllFitSnoc(vals, 32, sint, i);
      var low, high := if sint then -0x8000_0000 else 0, if sint then 0x7fff_ffff else 0xffff_ffff;
      if v < low || v > high {
        return None;
      }
      var u := ToDword(v);
      EncodedSnoc(vals, i);
      words[i * 2] := Low(u);
      words[i * 2 + 1] := High(u);
      assert words[..2 * (i + 1)] == words[..2 * i] + [Low(u), High(u)];
    }
    assert vals[..|vals|] == vals && words[..2 * |vals|] == words[..];
    r := Some(words[..]);
  }

  /** Signed words are checked by the handler, unsigned ones by the JSON decoder; the range rule is the same. */
  method EncodeWords(vals: seq<int>, sint: bool) returns (r: Option<seq<Word>>)
    ensures r == if AllFit(vals, 16, sint) then Some(EncodedWords(vals)) else None
  {
    var words := new Word[|vals|](_ => 0);
    for i := 0 to |vals|
      invariant AllFit(vals[..i], 16, sint)
      invariant forall k :: 0 <= k < i ==> words[k] == EncodedWords(vals)[k]
    {
      var v := vals[i];
      RangeOf(v, sint);
      AllFitSnoc(vals, 16, sint, i);
      var low, high := if sint then -0x8000 else 0, if sint then 0x7fff else 0xffff;
      if v < low || v > high {
        return None;
      }
      words[i] := ToWord(v);
    }
    assert vals[..|vals|] == vals;
    assert words[..] == EncodedWords(vals);
    r := Some(words[..]);
  }

  method DecodeDwords(words: seq<Word>, count: nat, sint: bool) returns (vals: seq<int>)
    requires |words| == 2 * count
    ensures vals == ShownDwords(words, sint)
  {
    var a := new int[count];
    ghost var shown := ShownDwords(words, sint);
    for i := 0 to count
      invariant a[..i] == shown[..i]
    {
      var combined := Combined(words[i * 2], words[i * 2 + 1]);
      a[i] := if sint then SignExtend(combined, 32) else combined;
      ShownAt(words, sint, i);
      assert a[..i + 1] == a[..i] + [a[i]] && shown[..i + 1] == shown[..i] + [shown[i]];
    }
    assert shown[..count] == shown && a[..count] == a[..];
    vals := a[..];
  }

  method DecodeWords(words: seq<Word>, sint: bool) returns (vals: seq<int>)
    ensures vals == ShownWords(words, sint)
  {
    var a := new int[|words|];
    for i := 0 to |words|
      invariant forall k :: 0 <= k < i ==> a[k] == ShownWords(words, sint)[k]
    {
      a[i] := if sint then SignExtend(words[i], 16) else words[i];
    }
    vals := a[..];
  }

  // Word and double-word lists survive the trip, for exactly the lists that are accepted.
  lemma WordsRoundTrip(vals: seq<int>, sint: bool)
    ensures ShownWords(EncodedWords(vals), sint) == vals <==> AllFit(vals, 16, sint)
  {
    PowersOfTwo();
    var back := ShownWords(EncodedWords(vals), sint);
    forall i | 0 <= i < |vals|
      ensures back[i] == vals[i] <==> FitsInBits(vals[i], 16, sint)
    {
      FitsIffShownBack(vals[i], 16, sint);
    }
  }

  lemma HalvesBack(u: Dword)
    ensures Combined(Low(u), High(u)) == u
  {
  }

  lemma ShownAt(words: seq<Word>, sint: bool, i: nat)
    requires i < |words| / 2
    ensures ShownDwords(words, sint)[i] == Shown(Combined(words[2 * i], words[2 * i + 1]), 32, sint)
  {
  }

  lemma DwordBack(vals: seq<int>, sint: bool, i: nat)
    requires i < |vals|
    ensures ShownDwords(EncodedDwords(vals), sint)[i] == Shown(ToDword(vals[i]), 32, sint)
  {
    EncodedAt(vals, i);
    HalvesBack(ToDword(vals[i]));
    ShownAt(EncodedDwords(vals), sint, i);
  }

  lemma DwordsRoundTrip(vals: seq<int>, sint: bool)
    ensures ShownDwords(EncodedDwords(vals), sint) == vals <==> AllFit(vals, 32, sint)
  {
    var back := ShownDwords(EncodedDwords(vals), sint);
    forall i | 0 <= i < |vals|
      ensures back[i] == vals[i] <==> FitsInBits(vals[i], 32, sint)
    {
      DwordBack(vals, sint, i);
      FitsIffShownBack(vals[i], 32, sint);
    }
  }

  // ---- Which call a request becomes ----

  datatype Shape =
    | Packed(nibbles: nat, sint: bool)            // K notation
    | BitRange(bit: nat, count: nat)              // bits of one register
    | WordList(count: nat, dword: bool, sint: bool)
    | BitList(count: nat)

  datatype ReadPlan = ReadPlan(at: DeviceAddr, shape: Shape)

  /** `handleRead`, from the decoded query to the call it makes; None is a rejected request. */
  function PlanRead(addr: string, count: int, dword: bool, sint: bool): Option<ReadPlan> {
    if count < 1 || count > MAX_READ_COUNT then None
    else if dword && count > MAX_READ_COUNT / 2 then None
    else if Parse(addr).None? then None
    else
      var pa := Parse(addr).value;
      if pa.nibbles > 0 then
        if dword || count != 1 then None else Some(ReadPlan(pa.at, Packed(pa.nibbles, sint)))
      else if pa.bit >= 0 then
        if dword || sint || pa.bit + count > 16 then None else Some(ReadPlan(pa.at, BitRange(pa.bit, count)))
      else if (dword || sint) && !IsWordDevice(pa.at.device) then None
      else if IsWordDevice(pa.at.device) then Some(ReadPlan(pa.at, WordList(count, dword, sint)))
      else Some(ReadPlan(pa.at, BitList(count)))
  }

  function ReadCall(plan: ReadPlan): Call {
    match plan.shape
    case Packed(nibbles, _) => ReadBits(plan.at, 4 * nibbles)
    case BitRange(_, _) => ReadWords(plan.at, 1)
    case WordList(count, dword, _) => ReadWords(plan.at, if dword then 2 * count else count)
    case BitList(count) => ReadBits(plan.at, count)
  }

  /** The values shown for the reply of the call. */
  function Response(shape: Shape, reply: Reply): Option<Values> {
    match shape
    case Packed(nibbles, sint) =>
      if reply.Bits? && nibbles > 0 then Some(Ints([Shown(Pack(reply.bits), 4 * nibbles, sint)])) else None
    case BitRange(bit, count) =>
      if reply.Words? && |reply.words| == 1 then Some(Bools(BitsOf(reply.words[0], bit, count))) else None
    case WordList(count, dword, sint) =>
      if !reply.Words? then None
      else Some(Ints(if dword then ShownDwords(reply.words, sint) else ShownWords(reply.words, sint)))
    case BitList(_) => if reply.Bits? then Some(Bools(reply.bits)) else None
  }

  /** The reply has the length that was asked for. */
  predicate Matches(shape: Shape, reply: Reply) {
    match shape
    case Packed(nibbles, _) => nibbles > 0 && reply.Bits? && |reply.bits| == 4 * nibbles
    case BitRange(_, _) => reply.Words? && |reply.words| == 1
    case WordList(count, dword, _) => reply.Words? && |reply.words| == if dword then 2 * count else count
    case BitList(count) => reply.Bits? && |reply.bits| == count
  }

  /** The tail of `handleRead`: the words of the reply are converted one at a time. */
  method HandleReply(shape: Shape, reply: Reply) returns (r: Values)
    requires Matches(shape, reply)
    ensures Response(shape, reply) == Some(r)
  {
    match shape
    case Packed(nibbles, sint) =>
      var packed := Pack(reply.bits);
      r := Ints([if sint then SignExtend(packed, 4 * nibbles) else packed]);
    case BitRange(bit, count) =>
      r := Bools(BitsOf(reply.words[0], bit, count));
    case WordList(count, dword, sint) =>
      var vals;
      if dword {
        vals := DecodeDwords(reply.words, count, sint);
      } else {
        vals := DecodeWords(reply.words, sint);
      }
      r := Ints(vals);
    case BitList(_) =>
      r := Bools(reply.bits);
  }

  function WriteLimit(dword: bool): nat {
    if dword then MAX_WRITE_VALUES / 2 else MAX_WRITE_VALUES
  }

  /** `handleWrite`, from the decoded query and body to the program it runs. */
  function PlanWrite(addr: string, dword: bool, sint: bool, values: Values): Option<Program> {
    if Parse(addr).None? then None
    else
      var pa := Parse(addr).value;
      if pa.nibbles > 0 then PlanPacked(pa, dword, sint, values)
      else if pa.bit >= 0 then
        if dword || sint || values.Ints? || |values.bools| == 0 || pa.bit + |values.bools| > 16 then None
        else Some(WriteWordBitsProgram(pa.at, pa.bit, values.bools))
      else if (dword || sint) && !IsWordDevice(pa.at.device) then None
      else if IsWordDevice(pa.at.device) then
        if values.Bools? || |values.ints| == 0 || |values.ints| > WriteLimit(dword) then None
        else if !AllFit(values.ints, if dword then 32 else 16, sint) then None
        else Some([Issue(WriteWords(pa.at, if dword then EncodedDwords(values.ints) else EncodedWords(values.ints)))])
      else
        if values.Ints? || |values.bools| == 0 || |values.bools| > MAX_WRITE_VALUES then None
        else Some([Issue(WriteBits(pa.at, values.bools))])
  }

  function PlanPacked(pa: ParsedAddr, dword: bool, sint: bool, values: Values): Option<Program>
    requires pa.nibbles > 0
  {
    if dword || values.Bools? || |values.ints| != 1 || !FitsInBits(values.ints[0], 4 * pa.nibbles, sint) then None
    else Some([Issue(WriteBits(pa.at, Unpack(Wrap(values.ints[0], 32), 4 * pa.nibbles)))])
  }

  /**
   `handleWrite` as written: the words are converted one at a time, and the first that does not
   fit rejects them all.
   */
  method HandleWrite(addr: string, dword: bool, sint: bool, values: Values) returns (r: Option<Program>)
    ensures r == PlanWrite(addr, dword, sint, values)
  {
    var parsed := Parse(addr);
    if parsed.None? {
      return None;
    }
    AcceptedIsWellFormed(addr);
    var pa := parsed.value;
    if pa.nibbles > 0 {
      return PlanPacked(pa, dword, sint, values);
    }
    if pa.bit >= 0 {
      if dword || sint || values.Ints? || |values.bools| == 0 || pa.bit + |values.bools| > 16 {
        return None;
      }
      return Some(WriteWordBitsProgram(pa.at, pa.bit, values.bools));
    }
    if (dword || sint) && !IsWordDevice(pa.at.device) {
      return None;
    }
    if IsWordDevice(pa.at.device) {
      if values.Bools? || |values.ints| == 0 || |values.ints| > WriteLimit(dword) {
        return None;
      }
      var words;
      if dword {
        words := EncodeDwords(values.ints, sint);
      } else {
        words := EncodeWords(values.ints, sint);
      }
      if words.None? {
        return None;
      }
      return Some([Issue(WriteWords(pa.at, words.value))]);
    }
    if values.Ints? || |values.bools| == 0 || |values.bools| > MAX_WRITE_VALUES {
      return None;
    }
    r := Some([Issue(WriteBits(pa.at, values.bools))]);
  }

  // An accepted write is one call within the limits, or one read-modify-write of one register.
  lemma WriteIsOneInstruction(addr: string, dword: bool, sint: bool, values: Values)
    requires PlanWrite(addr, dword, sint, values).Some?
    ensures var p := PlanWrite(addr, dword, sint, values).value;
            && |p| == 1
            && (p[0].Issue? ==>
                  || (p[0].call.WriteWords? && 1 <= |p[0].call.words| <= MAX_WRITE_VALUES)
                  || (p[0].call.WriteBits? && 1 <= |p[0].call.bits| <= MAX_WRITE_VALUES))
            && (p[0].Modify? ==> forall e :: e in p[0].edits ==> e.bit < 16)
  {
    AcceptedIsWellFormed(addr);
  }

  // A list for a word device is accepted exactly when its length is within the limit and every value
  // would come back as it is; otherwise, wherever the offending value stands, the PLC is not called.
  lemma ListAcceptedIff(addr: string, dword: bool, sint: bool, vals: seq<int>)
    requires Parse(addr).Some? && Parse(addr).value.nibbles == 0 && Parse(addr).value.bit < 0
    requires IsWordDevice(Parse(addr).value.at.device)
    ensures PlanWrite(addr, dword, sint, Ints(vals)).Some? <==>
            && 1 <= |vals| <= WriteLimit(dword)
            && vals == if dword then ShownDwords(EncodedDwords(vals), sint) else ShownWords(EncodedWords(vals), sint)
  {
    if dword {
      DwordsRoundTrip(vals, sint);
    } else {
      WordsRoundTrip(vals, sint);
    }
  }

  // ---- K notation ----

  lemma WrapNarrower(v: int, width: nat, more: nat)
    ensures Wrap(v, width + more) % Pow2(width) == Wrap(v, width)
  {
    PowSum(width, more);
    ModOfMultiple(v, Pow2(width), Pow2(more));
  }

  lemma ModOfMultiple(v: int, m: nat, k: nat)
    requires 1 <= m && 1 <= k && 1 <= m * k
    ensures v % (m * k) % m == v % m
  {
    var q, r := v / (m * k), v % (m * k);
    var q', r' := r / m, r % m;
    MulAssoc(m, k, q);
    Distribute(k * q, -q', m);
    assert v == (k * q + q') * m + r';
    QuotientIs(v, m, k * q + q', r');
  }

  lemma MulAssoc(a: int, b: int, c: int)
    ensures a * b * c == a * (b * c)
  {
  }

  lemma {:induction false} PowSum(a: nat, b: nat)
    ensures Pow2(a + b) == Pow2(a) * Pow2(b)
    decreases b
  {
    if b > 0 {
      PowSum(a, b - 1);
      assert Pow2(a + b) == 2 * Pow2(a + (b - 1));
      MulAssoc(2, Pow2(a), Pow2(b - 1));
      MulAssoc(Pow2(a), 2, Pow2(b - 1));
    }
  }

  // A value comes back from the bit devices it was spread over exactly when it fits them.
  lemma PackedRoundTrip(v: int, nibbles: nat, sint: bool)
    requires 1 <= nibbles <= 8
    ensures Shown(Pack(Unpack(Wrap(v, 32), 4 * nibbles)), 4 * nibbles, sint) == v <==> FitsInBits(v, 4 * nibbles, sint)
  {
    var width := 4 * nibbles;
    PackOfUnpack(Wrap(v, 32), width);
    WrapNarrower(v, width, 32 - width);
    FitsIffShownBack(v, width, sint);
  }

  // And any state of the devices reads as a value that fits and that writes the same state back.
  lemma PackedReadFits(bits: seq<bool>, nibbles: nat, sint: bool)
    requires 1 <= nibbles <= 8 && |bits| == 4 * nibbles
    ensures var v := Shown(Pack(bits), 4 * nibbles, sint);
            FitsInBits(v, 4 * nibbles, sint) && Unpack(Wrap(v, 32), 4 * nibbles) == bits
  {
    var width := 4 * nibbles;
    PackBits(bits);
    ShownFits(Pack(bits), width, sint);
    var v := Shown(Pack(bits), width, sint);
    WrapNarrower(v, width, 32 - width);
    PackOfUnpack(Wrap(v, 32), width);
    var back := Unpack(Wrap(v, 32), width);
    assert Pack(back) == Pack(bits);
    UnpackOfPack(back);
    UnpackOfPack(bits);
  }

  // Writing back what was just read changes no device.
  lemma PackedWriteBack(m: Memory, at: DeviceAddr, nibbles: nat, sint: bool)
    requires 1 <= nibbles <= 8
    ensures var v := Shown(Pack(Answer(m, ReadBits(at, 4 * nibbles)).bits), 4 * nibbles, sint);
            Apply(m, WriteBits(at, Unpack(Wrap(v, 32), 4 * nibbles))) == m
  {
    var bits := Answer(m, ReadBits(at, 4 * nibbles)).bits;
    PackedReadFits(bits, nibbles, sint);
    SameBitsStored(m.bits, at, bits);
  }

  lemma SameBitsStored(m: BitStore, at: DeviceAddr, bits: seq<bool>)
    requires forall i :: 0 <= i < |bits| ==> bits[i] == m[Offset(at, i)]
    ensures StoreBits(m, at, bits) == m
  {
    forall a
      ensures StoreBits(m, at, bits)[a] == m[a]
    {
      StoreBitsAt(m, at, bits, a);
      if a.device == at.device && at.addr <= a.addr < at.addr + |bits| {
        assert a == Offset(at, a.addr - at.addr);
      }
    }
  }

  // ---- Write, then read ----

  /** Reading a planned request from a memory, with nothing failing. */
  function ReadFrom(m: Memory, plan: ReadPlan): Option<Values> {
    Response(plan.shape, Answer(m, ReadCall(plan)))
  }

  lemma BitRangeWriteThenRead(at: DeviceAddr, bit: nat, values: seq<bool>, conn: nat, s: Session)
    requires RunProgram(conn, WriteWordBitsProgram(at, bit, values), s).outcome == Fine && bit + |values| <= 16
    ensures var s' := RunProgram(conn, WriteWordBitsProgram(at, bit, values), s);
            && ReadFrom(s'.mem, ReadPlan(at, BitRange(bit, |values|))) == Some(Bools(values))
            && (forall k :: 0 <= k < 16 && !(bit <= k < bit + |values|) ==>
                  Bit(s'.mem.words[at], k) == Bit(s.mem.words[at], k))
            && s'.mem.bits == s.mem.bits && forall a :: a != at ==> s'.mem.words[a] == s.mem.words[a]
  {
    var calm := s.(faults := []);
    FineIsFaultless(conn, WriteWordBitsProgram(at, bit, values), s);
    RunSingle(conn, Modify(at, Edits(bit, values)), calm);
    ModifyRun(conn, at, Edits(bit, values), calm);
    RangeReadBack(s.mem.words[at], bit, values);
    assert Offset(at, 0) == at;
    forall k: nat | k < 16 && !(bit <= k < bit + |values|)
      ensures Bit(EditAll(s.mem.words[at], Edits(bit, values)), k) == Bit(s.mem.words[at], k)
    {
      EditsMeaning(s.mem.words[at], bit, values, k);
    }
  }

  lemma WordListWriteThenRead(m: Memory, at: DeviceAddr, vals: seq<int>, dword: bool, sint: bool)
    requires AllFit(vals, if dword then 32 else 16, sint)
    ensures var words := if dword then EncodedDwords(vals) else EncodedWords(vals);
            ReadFrom(Apply(m, WriteWords(at, words)), ReadPlan(at, WordList(|vals|, dword, sint))) == Some(Ints(vals))
  {
    if dword {
      WordsReadBack(m, at, EncodedDwords(vals));
      DwordsRoundTrip(vals, sint);
    } else {
      WordsReadBack(m, at, EncodedWords(vals));
      WordsRoundTrip(vals, sint);
    }
  }

  lemma PackedWriteThenRead(m: Memory, at: DeviceAddr, v: int, nibbles: nat, sint: bool)
    requires 1 <= nibbles <= 8 && FitsInBits(v, 4 * nibbles, sint)
    ensures ReadFrom(Apply(m, WriteBits(at, Unpack(Wrap(v, 32), 4 * nibbles))), ReadPlan(at, Packed(nibbles, sint)))
            == Some(Ints([v]))
  {
    BitsReadBack(m, at, Unpack(Wrap(v, 32), 4 * nibbles));
    PackedRoundTrip(v, nibbles, sint);
  }

  // For every write that is accepted and ends well, as it does whenever nothing fails: reading the
  // same address with the same flags, and as many values as were written, is accepted too and
  // returns exactly what was written.
  lemma WriteThenRead(addr: string, dword: bool, sint: bool, values: Values, conn: nat, s: Session)
    requires PlanWrite(addr, dword, sint, values).Some? && s.outcome == Fine
    ensures var s' := RunProgram(conn, PlanWrite(addr, dword, sint, values).value, s);
            && (s.faults == [] ==> s'.outcome == Fine)
            && PlanRead(addr, Length(values), dword, sint).Some?
            && (s'.outcome == Fine ==>
                  ReadFrom(s'.mem, PlanRead(addr, Length(values), dword, sint).value) == Some(values))
  {
    WrittenIsReadable(addr, dword, sint, values);
    var p := PlanWrite(addr, dword, sint, values).value;
    assert p == [p[0]];
    RunSingle(conn, p[0], s);
    if RunProgram(conn, p, s).outcome == Fine {
      WrittenReadsBack(addr, dword, sint, values, conn, s);
    }
  }

  lemma WrittenIsReadable(addr: string, dword: bool, sint: bool, values: Values)
    requires PlanWrite(addr, dword, sint, values).Some?
    ensures PlanRead(addr, Length(values), dword, sint).Some?
    ensures |PlanWrite(addr, dword, sint, values).value| == 1
  {
    AcceptedIsWellFormed(addr);
  }

  lemma WrittenReadsBack(addr: string, dword: bool, sint: bool, values: Values, conn: nat, s: Session)
    requires PlanWrite(addr, dword, sint, values).Some? && PlanRead(addr, Length(values), dword, sint).Some?
    requires RunProgram(conn, PlanWrite(addr, dword, sint, values).value, s).outcome == Fine
    ensures ReadFrom(RunProgram(conn, PlanWrite(addr, dword, sint, values).value, s).mem,
                     PlanRead(addr, Length(values), dword, sint).value) == Some(values)
  {
    AcceptedIsWellFormed(addr);
    var pa, p := Parse(addr).value, PlanWrite(addr, dword, sint, values).value;
    if pa.nibbles == 0 && pa.bit >= 0 {
      BitRangeWriteThenRead(pa.at, pa.bit, values.bools, conn, s);
    } else {
      CallRun(conn, p[0].call, s);
      assert p == [p[0]];
      if pa.nibbles > 0 {
        PackedWriteThenRead(s.mem, pa.at, values.ints[0], pa.nibbles, sint);
        assert values.ints == [values.ints[0]];
      } else if IsWordDevice(pa.at.device) {
        WordListWriteThenRead(s.mem, pa.at, values.ints, dword, sint);
      } else {
        BitsReadBack(s.mem, pa.at, values.bools);
      }
    }
  }

  lemma CallRun(conn: nat, c: Call, s: Session)
    requires RunProgram(conn, [Issue(c)], s).outcome == Fine
    ensures RunProgram(conn, [Issue(c)], s).mem == Apply(s.mem, c)
    ensures RunProgram(conn, [Issue(c)], s).replies == s.replies + [Wire.Answer(s.mem, c)]
  {
    RunSingle(conn, Issue(c), s);
  }

  // An accepted read stays within the limits and within one register, and the reply it asks for
  // is one that the response can be built from.
  lemma ReadWithinLimits(addr: string, count: int, dword: bool, sint: bool, m: Memory)
    requires PlanRead(addr, count, dword, sint).Some?
    ensures var plan := PlanRead(addr, count, dword, sint).value;
            && Matches(plan.shape, Wire.Answer(m, ReadCall(plan)))
            && match ReadCall(plan)
               case ReadWords(_, n) => 1 <= n <= MAX_READ_COUNT
               case ReadBits(_, n) => 1 <= n <= MAX_READ_COUNT
               case _ => false
    ensures var plan := PlanRead(addr, count, dword, sint).value;
            plan.shape.BitRange? ==> plan.shape.bit + plan.shape.count <= 16
  {
    AcceptedIsWellFormed(addr);
  }

  // ---- Read, then write back ----

  lemma SameWordsStored(m: WordStore, at: DeviceAddr, words: seq<Word>)
    requires Standing(m, at, words)
    ensures StoreWords(m, at, words) == m
  {
    forall a
      ensures StoreWords(m, at, words)[a] == m[a]
    {
      StoreWordsAt(m, at, words, a);
      if a.device == at.device && at.addr <= a.addr < at.addr + |words| {
        assert a == Offset(at, a.addr - at.addr);
      }
    }
  }

  // Any registers read as values that fit, and that are encoded as the same registers.
  lemma ShownWordsEncode(words: seq<Word>, sint: bool)
    ensures AllFit(ShownWords(words, sint), 16, sint) && EncodedWords(ShownWords(words, sint)) == words
  {
    PowersOfTwo();
    forall i | 0 <= i < |words|
      ensures FitsInBits(Shown(words[i], 16, sint), 16, sint) && ToWord(Shown(words[i], 16, sint)) == words[i]
    {
      ShownFits(words[i], 16, sint);
    }
  }

  lemma HalvesOf(low: Word, high: Word)
    ensures Low(Combined(low, high)) == low && High(Combined(low, high)) == high
  {
  }

  lemma DwordShownEncodes(words: seq<Word>, sint: bool, i: nat)
    requires i < |words| / 2
    ensures FitsInBits(ShownDwords(words, sint)[i], 32, sint)
    ensures Low(ToDword(ShownDwords(words, sint)[i])) == words[2 * i]
    ensures High(ToDword(ShownDwords(words, sint)[i])) == words[2 * i + 1]
  {
    ShownAt(words, sint, i);
    var u := Combined(words[2 * i], words[2 * i + 1]);
    UnderPow32(u);
    ShownFits(u, 32, sint);
    HalvesOf(words[2 * i], words[2 * i + 1]);
  }

  lemma UnderPow32(u: Dword)
    ensures u < Pow2(32)
  {
    PowersOfTwo();
  }

  lemma EncodedShownAt(words: seq<Word>, count: nat, sint: bool, k: nat)
    requires |words| == 2 * count && k < |words|
    ensures EncodedDwords(ShownDwords(words, sint))[k] == words[k]
  {
    var i := k / 2;
    DwordShownEncodes(words, sint, i);
    EncodedAt(ShownDwords(words, sint), i);
    assert k == if k % 2 == 0 then 2 * i else 2 * i + 1;
  }

  lemma ShownDwordsEncode(words: seq<Word>, count: nat, sint: bool)
    requires |words| == 2 * count
    ensures AllFit(ShownDwords(words, sint), 32, sint) && EncodedDwords(ShownDwords(words, sint)) == words
  {
    forall i | 0 <= i < count
      ensures FitsInBits(ShownDwords(words, sint)[i], 32, sint)
    {
      DwordShownEncodes(words, sint, i);
    }
    forall k | 0 <= k < |words|
      ensures EncodedDwords(ShownDwords(words, sint))[k] == words[k]
    {
      EncodedShownAt(words, count, sint, k);
    }
  }

  // Setting bits to what they are changes nothing.
  lemma SameBitsEdited(w: Word, bit: nat, count: nat)
    requires bit + count <= 16
    ensures EditAll(w, Edits(bit, BitsOf(w, bit, count))) == w
  {
    var values := BitsOf(w, bit, count);
    var w' := EditAll(w, Edits(bit, values));
    PowersOfTwo();
    forall k: nat | k < 16
      ensures Bit(w', k) == Bit(w, k)
    {
      EditsMeaning(w, bit, values, k);
    }
    BitsDetermine(w', w, 16);
  }

  lemma SameRegisterModified(conn: nat, at: DeviceAddr, edits: seq<Edit>, s: Session)
    requires EditAll(s.mem.words[at], edits) == s.mem.words[at]
    ensures RunProgram(conn, [Modify(at, edits)], s).mem == s.mem
  {
    RunSingle(conn, Modify(at, edits), s);
    StoreOne(s.mem, at, s.mem.words[at]);
  }

  lemma SameValuesSent(conn: nat, c: Call, s: Session)
    requires Apply(s.mem, c) == s.mem
    ensures RunProgram(conn, [Issue(c)], s).mem == s.mem
  {
    RunSingle(conn, Issue(c), s);
  }

  // For every read that is accepted, from any state of the devices: writing back the values it
  // returned, with the same flags, is accepted and changes nothing, whatever calls fail.
  lemma ReadThenWriteBack(addr: string, count: int, dword: bool, sint: bool, conn: nat, s: Session)
    requires PlanRead(addr, count, dword, sint).Some?
    ensures ChangesNothing(addr, PlanRead(addr, count, dword, sint).value, dword, sint, conn, s)
  {
    AcceptedIsWellFormed(addr);
    var plan := PlanRead(addr, count, dword, sint).value;
    match plan.shape {
      case Packed(nibbles, _) => PackedBack(addr, plan.at, nibbles, sint, conn, s);
      case BitRange(bit, n) => BitRangeBack(addr, plan.at, bit, n, conn, s);
      case WordList(n, _, _) => WordListBack(addr, plan.at, n, dword, sint, conn, s);
      case BitList(n) => BitListBack(addr, plan.at, n, conn, s);
    }
  }

  /** The values a planned read returns can be written to the same address, which leaves the memory as it is. */
  ghost predicate ChangesNothing(addr: string, plan: ReadPlan, dword: bool, sint: bool, conn: nat, s: Session) {
    var values := ReadFrom(s.mem, plan);
    && values.Some?
    && PlanWrite(addr, dword, sint, values.value).Some?
    && RunProgram(conn, PlanWrite(addr, dword, sint, values.value).value, s).mem == s.mem
  }

  lemma PackedBack(addr: string, at: DeviceAddr, nibbles: nat, sint: bool, conn: nat, s: Session)
    requires Parse(addr).Some? && Parse(addr).value.at == at && Parse(addr).value.nibbles == nibbles
    requires 1 <= nibbles <= 8
    ensures ChangesNothing(addr, ReadPlan(at, Packed(nibbles, sint)), false, sint, conn, s)
  {
    var bits := Wire.Answer(s.mem, ReadBits(at, 4 * nibbles)).bits;
    PackedReadFits(bits, nibbles, sint);
    PackedWriteBack(s.mem, at, nibbles, sint);
    SameValuesSent(conn, WriteBits(at, bits), s);
  }

  lemma BitRangeBack(addr: string, at: DeviceAddr, bit: nat, count: nat, conn: nat, s: Session)
    requires Parse(addr) == Some(ParsedAddr(at, bit, 0)) && 1 <= count && bit + count <= 16
    ensures ChangesNothing(addr, ReadPlan(at, BitRange(bit, count)), false, false, conn, s)
  {
    assert Offset(at, 0) == at;
    SameBitsEdited(s.mem.words[at], bit, count);
    SameRegisterModified(conn, at, Edits(bit, BitsOf(s.mem.words[at], bit, count)), s);
  }

  lemma WordListPlanned(addr: string, words: seq<Word>, count: nat, dword: bool, sint: bool)
    requires Parse(addr).Some? && Parse(addr).value.nibbles == 0 && Parse(addr).value.bit < 0
    requires IsWordDevice(Parse(addr).value.at.device) && 1 <= |words| <= MAX_WRITE_VALUES
    requires |words| == if dword then 2 * count else count
    ensures PlanWrite(addr, dword, sint, Ints(if dword then ShownDwords(words, sint) else ShownWords(words, sint)))
            == Some([Issue(WriteWords(Parse(addr).value.at, words))])
  {
    if dword {
      ShownDwordsEncode(words, count, sint);
    } else {
      ShownWordsEncode(words, sint);
    }
  }

  ghost predicate Standing(m: WordStore, at: DeviceAddr, words: seq<Word>) {
    forall i :: 0 <= i < |words| ==> words[i] == m[Offset(at, i)]
  }

  lemma WordListRead(m: Memory, at: DeviceAddr, count: nat, dword: bool, sint: bool)
    ensures var words := Wire.Answer(m, ReadWords(at, if dword then 2 * count else count)).words;
            && Standing(m.words, at, words) && |words| == (if dword then 2 * count else count)
            && ReadFrom(m, ReadPlan(at, WordList(count, dword, sint)))
               == Some(Ints(if dword then ShownDwords(words, sint) else ShownWords(words, sint)))
  {
  }

  lemma WordListBack(addr: string, at: DeviceAddr, count: nat, dword: bool, sint: bool, conn: nat, s: Session)
    requires Parse(addr).Some? && Parse(addr).value.nibbles == 0 && Parse(addr).value.bit < 0
    requires Parse(addr).value.at == at && IsWordDevice(at.device)
    requires 1 <= count <= WriteLimit(dword)
    ensures ChangesNothing(addr, ReadPlan(at, WordList(count, dword, sint)), dword, sint, conn, s)
  {
    var words := Wire.Answer(s.mem, ReadWords(at, if dword then 2 * count else count)).words;
    WordListRead(s.mem, at, count, dword, sint);
    WordListPlanned(addr, words, count, dword, sint);
    SameWordsSent(conn, at, words, s);
  }

  lemma SameWordsSent(conn: nat, at: DeviceAddr, words: seq<Word>, s: Session)
    requires Standing(s.mem.words, at, words)
    ensures RunProgram(conn, [Issue(WriteWords(at, words))], s).mem == s.mem
  {
    SameWordsStored(s.mem.words, at, words);
    SameValuesSent(conn, WriteWords(at, words), s);
  }

  lemma BitListBack(addr: string, at: DeviceAddr, count: nat, conn: nat, s: Session)
    requires Parse(addr).Some? && Parse(addr).value.nibbles == 0 && Parse(addr).value.bit < 0
    requires Parse(addr).value.at == at && !IsWordDevice(at.device) && 1 <= count <= MAX_WRITE_VALUES
    ensures ChangesNothing(addr, ReadPlan(at, BitList(count)), false, false, conn, s)
  {
    var bits := Wire.Answer(s.mem, ReadBits(at, count)).bits;
    SameBitsStored(s.mem.bits, at, bits);
    SameValuesSent(conn, WriteBits(at, bits), s);
  }
}

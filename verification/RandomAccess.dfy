/**
 What /random-read and /random-write plan from their address lists, and that the planned
 calls have exactly the effect of touching each requested word, double word and bit by
 itself, in request order.
 */
module RandomAccess {
  import opened Options
  import opened Words
  import opened Wire
  import opened Programs
  import opened Addresses
  import RW = ReadWrite

  const MAX_RANDOM_COUNT := 255
  const MAX_RANDOM_BIT_READS := 16

  /** What one entry of `bits` stands for. */
  datatype Source =
    | WordBit(at: DeviceAddr, bit: nat)
    | NativeBit(at: DeviceAddr)

  /** `parseWordAddr`: a word device without a bit suffix. */
  function WordAddr(s: string): Option<DeviceAddr> {
    if Parse(s).None? then None
    else
      var pa := Parse(s).value;
      if pa.bit >= 0 || !IsWordDevice(pa.at.device) then None else Some(pa.at)
  }

  function BitSource(s: string): Option<Source> {
    if Parse(s).None? then None
    else
      var pa := Parse(s).value;
      if pa.nibbles > 0 then None
      else if pa.bit >= 0 then Some(WordBit(pa.at, pa.bit))
      else if !IsWordDevice(pa.at.device) then Some(NativeBit(pa.at))
      else None
  }

  // A bit entry is a bit of a word device, below 16, or a bit device; never the one as the other.
  lemma SourceKinds(s: string)
    requires BitSource(s).Some?
    ensures match BitSource(s).value
            case WordBit(at, bit) => IsWordDevice(at.device) && bit < 16
            case NativeBit(at) => at.device in BIT_DEVICES && !IsWordDevice(at.device)
  {
    AcceptedIsWellFormed(s);
  }

  // ---- Address lists ----

  /** Every element is accepted. */
  predicate Each<A, B>(xs: seq<A>, parse: A -> Option<B>) {
    forall i :: 0 <= i < |xs| ==> parse(xs[i]).Some?
  }

  function Picked<A, B>(xs: seq<A>, parse: A -> Option<B>): seq<B>
    requires Each(xs, parse)
  {
    seq(|xs|, i requires 0 <= i < |xs| => parse(xs[i]).value)
  }

  lemma PickedSnoc<A, B>(xs: seq<A>, parse: A -> Option<B>, i: nat)
    requires i < |xs| && Each(xs[..i], parse) && parse(xs[i]).Some?
    ensures Each(xs[..i + 1], parse)
    ensures Picked(xs[..i + 1], parse) == Picked(xs[..i], parse) + [parse(xs[i]).value]
  {
    assert xs[..i + 1] == xs[..i] + [xs[i]];
  }

  /** The loops over `words` and `dwords`: the first element that is not accepted rejects the list. */
  method ParseEach<A, B>(xs: seq<A>, parse: A -> Option<B>) returns (r: Option<seq<B>>)
    ensures r == if Each(xs, parse) then Some(Picked(xs, parse)) else None
  {
    var picked: seq<B> := [];
    for i := 0 to |xs|
      invariant Each(xs[..i], parse) && picked == Picked(xs[..i], parse)
    {
      var x := parse(xs[i]);
      if x.None? {
        return None;
      }
      PickedSnoc(xs, parse, i);
      picked := picked + [x.value];
    }
    assert xs[..|xs|] == xs;
    r := Some(picked);
  }

  /** The registers holding the word bits, one per entry, in order. */
  function Folded(srcs: seq<Source>): seq<DeviceAddr> {
    if srcs == [] then []
    else
      var n := |srcs| - 1;
      Folded(srcs[..n]) + if srcs[n].WordBit? then [srcs[n].at] else []
  }

  function Natives(srcs: seq<Source>): seq<DeviceAddr> {
    if srcs == [] then []
    else
      var n := |srcs| - 1;
      Natives(srcs[..n]) + if srcs[n].NativeBit? then [srcs[n].at] else []
  }

  lemma FoldSnoc(srcs: seq<Source>, src: Source)
    ensures Folded(srcs + [src]) == Folded(srcs) + if src.WordBit? then [src.at] else []
    ensures Natives(srcs + [src]) == Natives(srcs) + if src.NativeBit? then [src.at] else []
  {
    assert (srcs + [src])[..|srcs|] == srcs;
  }

  lemma {:induction false} FoldGrows(srcs: seq<Source>, n: nat)
    requires n <= |srcs|
    ensures |Natives(srcs[..n])| <= |Natives(srcs)|
    decreases |srcs| - n
  {
    if n < |srcs| {
      assert srcs[..n + 1] == srcs[..n] + [srcs[n]];
      FoldSnoc(srcs[..n], srcs[n]);
      FoldGrows(srcs, n + 1);
    } else {
      assert srcs[..n] == srcs;
    }
  }

  // ---- Planning a random read ----

  datatype BitSrc = BitSrc(native: bool, idx: nat, offset: nat)

  datatype ReadPlan = ReadPlan(
    wordCount: nat, readAddrs: seq<DeviceAddr>, dwordAddrs: seq<DeviceAddr>,
    nativeBits: seq<DeviceAddr>, bitSrcs: seq<BitSrc>)

  predicate ValidSizes(words: nat, dwords: nat, bits: nat) {
    words + dwords + bits != 0 && words <= MAX_RANDOM_COUNT && dwords <= MAX_RANDOM_COUNT && bits <= MAX_RANDOM_COUNT
  }

  /** Which requests /random-read accepts. */
  predicate ValidRead(words: seq<string>, dwords: seq<string>, bits: seq<string>) {
    && ValidSizes(|words|, |dwords|, |bits|)
    && Each(words, WordAddr) && Each(dwords, WordAddr) && Each(bits, BitSource)
    && |Natives(Picked(bits, BitSource))| <= MAX_RANDOM_BIT_READS
    && |words| + |Folded(Picked(bits, BitSource))| <= MAX_RANDOM_COUNT
  }

  // ---- One entry is one plain request ----

  /** What /read returns for a single item, without `sint`. */
  function SingleRead(m: Memory, addr: string, dword: bool): Option<RW.Values> {
    var plan := RW.PlanRead(addr, 1, dword, false);
    if plan.None? then None else RW.ReadFrom(m, plan.value)
  }

  lemma WordPlanned(s: string)
    ensures WordAddr(s).Some? <==> RW.PlanRead(s, 1, true, false).Some?
    ensures WordAddr(s).Some? ==>
      && RW.PlanRead(s, 1, false, false) == Some(RW.ReadPlan(WordAddr(s).value, RW.WordList(1, false, false)))
      && RW.PlanRead(s, 1, true, false) == Some(RW.ReadPlan(WordAddr(s).value, RW.WordList(1, true, false)))
  {
    if Parse(s).Some? {
      AcceptedIsWellFormed(s);
    }
  }

  lemma OneWordShown(m: Memory, at: DeviceAddr)
    ensures RW.ReadFrom(m, RW.ReadPlan(at, RW.WordList(1, false, false))) == Some(RW.Ints([m.words[at]]))
  {
    var words := Wire.Answer(m, ReadWords(at, 1)).words;
    assert Offset(at, 0) == at;
    RW.WordListRead(m, at, 1, false, false);
    assert RW.ShownWords(words, false) == [m.words[at]];
  }

  lemma OneDwordShown(m: Memory, at: DeviceAddr)
    ensures RW.ReadFrom(m, RW.ReadPlan(at, RW.WordList(1, true, false))) == Some(RW.Ints([DwordAt(m.words, at)]))
  {
    var words := Wire.Answer(m, ReadWords(at, 2)).words;
    assert Offset(at, 0) == at;
    RW.WordListRead(m, at, 1, true, false);
    RW.ShownAt(words, false, 0);
    assert words[0] == m.words[at] && words[1] == m.words[Offset(at, 1)];
    assert RW.ShownDwords(words, false) == [DwordAt(m.words, at)];
  }

  // An entry of `words` or `dwords` is accepted exactly when /read accepts it with `dword`, and stands
  // for the register, or the pair of registers, that /read would read.
  lemma WordIsRead(s: string, m: Memory)
    ensures WordAddr(s).Some? <==> RW.PlanRead(s, 1, true, false).Some?
    ensures WordAddr(s).Some? ==>
      && SingleRead(m, s, false) == Some(RW.Ints([m.words[WordAddr(s).value]]))
      && SingleRead(m, s, true) == Some(RW.Ints([DwordAt(m.words, WordAddr(s).value)]))
  {
    WordPlanned(s);
    if WordAddr(s).Some? {
      OneWordShown(m, WordAddr(s).value);
      OneDwordShown(m, WordAddr(s).value);
    }
  }

  /** /read answers with one boolean: a bit of a register, or a bit device. */
  predicate ReadsOneBit(s: string) {
    RW.PlanRead(s, 1, false, false).Some? && !RW.PlanRead(s, 1, false, false).value.shape.Packed?
    && !RW.PlanRead(s, 1, false, false).value.shape.WordList?
  }

  predicate ReadsOneDevice(s: string) {
    RW.PlanRead(s, 1, false, false).Some? && RW.PlanRead(s, 1, false, false).value.shape.BitList?
  }

  /** The plain read of a bit entry. */
  function PlanOfSource(src: Source): RW.ReadPlan {
    match src
    case WordBit(at, bit) => RW.ReadPlan(at, RW.BitRange(bit, 1))
    case NativeBit(at) => RW.ReadPlan(at, RW.BitList(1))
  }

  lemma BitPlanned(s: string)
    ensures BitSource(s).Some? <==> ReadsOneBit(s)
    ensures BitSource(s).Some? ==> RW.PlanRead(s, 1, false, false) == Some(PlanOfSource(BitSource(s).value))
  {
    if Parse(s).Some? {
      AcceptedIsWellFormed(s);
    }
  }

  lemma OneBitShown(m: Memory, src: Source)
    ensures RW.ReadFrom(m, PlanOfSource(src)) == Some(RW.Bools([BitValue(m, src)]))
  {
    assert Offset(src.at, 0) == src.at;
    match src
    case WordBit(at, bit) => assert BitsOf(m.words[at], bit, 1) == [Bit(m.words[at], bit)];
    case NativeBit(at) => assert Wire.Answer(m, ReadBits(at, 1)).bits == [m.bits[at]];
  }

  // An entry of `bits` is accepted exactly when /read answers it with one boolean, and stands for
  // the bit that /read would read.
  lemma BitIsRead(s: string, m: Memory)
    ensures BitSource(s).Some? <==> ReadsOneBit(s)
    ensures BitSource(s).Some? ==>
      && (BitSource(s).value.NativeBit? <==> ReadsOneDevice(s))
      && SingleRead(m, s, false) == Some(RW.Bools([BitValue(m, BitSource(s).value)]))
  {
    BitPlanned(s);
    if BitSource(s).Some? {
      OneBitShown(m, BitSource(s).value);
    }
  }

  function DeviceCount(ss: seq<string>): nat {
    if ss == [] then 0 else DeviceCount(ss[..|ss| - 1]) + if ReadsOneDevice(ss[|ss| - 1]) then 1 else 0
  }

  lemma DeviceKind(s: string)
    requires BitSource(s).Some?
    ensures BitSource(s).value.NativeBit? <==> ReadsOneDevice(s)
  {
    BitPlanned(s);
  }

  lemma {:induction false} FoldCounts(srcs: seq<Source>)
    ensures |Folded(srcs)| + |Natives(srcs)| == |srcs|
  {
    if srcs != [] {
      FoldCounts(srcs[..|srcs| - 1]);
    }
  }

  lemma {:induction false} DevicesCounted(ss: seq<string>)
    requires Each(ss, BitSource)
    ensures |Natives(Picked(ss, BitSource))| == DeviceCount(ss)
  {
    if ss != [] {
      var n := |ss| - 1;
      DevicesCounted(ss[..n]);
      DeviceKind(ss[n]);
      PickedSnoc(ss, BitSource, n);
      assert ss[..n + 1] == ss;
      FoldSnoc(Picked(ss[..n], BitSource), BitSource(ss[n]).value);
    }
  }

  // /random-read accepts a request exactly when it is not empty, no list is longer than 255, /read
  // accepts every entry by itself, at most 16 entries are bit devices, and the words and the word
  // bits are together no more than 255.
  lemma ReadAcceptedIff(words: seq<string>, dwords: seq<string>, bits: seq<string>, m: Memory)
    ensures ValidRead(words, dwords, bits) <==>
            && 1 <= |words| + |dwords| + |bits| && |words| <= 255 && |dwords| <= 255 && |bits| <= 255
            && (forall i :: 0 <= i < |words| ==> RW.PlanRead(words[i], 1, true, false).Some?)
            && (forall i :: 0 <= i < |dwords| ==> RW.PlanRead(dwords[i], 1, true, false).Some?)
            && (forall i :: 0 <= i < |bits| ==> ReadsOneBit(bits[i]))
            && DeviceCount(bits) <= 16 && |words| + |bits| - DeviceCount(bits) <= 255
  {
    AllWordsRead(words, m);
    AllWordsRead(dwords, m);
    AllBitsRead(bits, m);
    if Each(bits, BitSource) {
      DevicesCounted(bits);
      FoldCounts(Picked(bits, BitSource));
    }
  }

  lemma AllWordsRead(ss: seq<string>, m: Memory)
    ensures Each(ss, WordAddr) <==> forall i :: 0 <= i < |ss| ==> RW.PlanRead(ss[i], 1, true, false).Some?
  {
    forall i | 0 <= i < |ss|
      ensures WordAddr(ss[i]).Some? <==> RW.PlanRead(ss[i], 1, true, false).Some?
    {
      WordIsRead(ss[i], m);
    }
  }

  lemma AllBitsRead(ss: seq<string>, m: Memory)
    ensures Each(ss, BitSource) <==> forall i :: 0 <= i < |ss| ==> ReadsOneBit(ss[i])
  {
    forall i | 0 <= i < |ss|
      ensures BitSource(ss[i]).Some? <==> ReadsOneBit(ss[i])
    {
      BitIsRead(ss[i], m);
    }
  }

  /** Where entry `i` of `bits` will find its value. */
  predicate Locates(b: BitSrc, src: Source, folded: seq<DeviceAddr>, natives: seq<DeviceAddr>) {
    if src.NativeBit? then b.native && b.idx < |natives| && natives[b.idx] == src.at
    else !b.native && b.idx < |folded| && folded[b.idx] == src.at && b.offset == src.bit
  }

  predicate AllLocated(bitSrcs: seq<BitSrc>, srcs: seq<Source>, folded: seq<DeviceAddr>, natives: seq<DeviceAddr>) {
    |bitSrcs| == |srcs| && forall i :: 0 <= i < |srcs| ==> Locates(bitSrcs[i], srcs[i], folded, natives)
  }

  ghost predicate Plans(plan: ReadPlan, words: seq<string>, dwords: seq<string>, bits: seq<string>)
    requires Each(words, WordAddr) && Each(dwords, WordAddr) && Each(bits, BitSource)
  {
    && plan.wordCount == |words|
    && plan.readAddrs == Picked(words, WordAddr) + Folded(Picked(bits, BitSource))
    && plan.dwordAddrs == Picked(dwords, WordAddr)
    && plan.nativeBits == Natives(Picked(bits, BitSource))
    && var srcs := Picked(bits, BitSource);
       AllLocated(plan.bitSrcs, srcs, Folded(srcs), Natives(srcs))
  }

  /** What the loop over `bits` has built once it has seen `srcs`. */
  ghost predicate Split(
    srcs: seq<Source>, bitSrcs: seq<BitSrc>, bitWordAddrs: seq<DeviceAddr>, nativeBits: seq<DeviceAddr>
  ) {
    && bitWordAddrs == Folded(srcs) && nativeBits == Natives(srcs)
    && AllLocated(bitSrcs, srcs, bitWordAddrs, nativeBits)
  }

  lemma SplitWordBit(
    srcs: seq<Source>, bitSrcs: seq<BitSrc>, bitWordAddrs: seq<DeviceAddr>, nativeBits: seq<DeviceAddr>,
    at: DeviceAddr, bit: nat
  )
    requires Split(srcs, bitSrcs, bitWordAddrs, nativeBits)
    ensures Split(srcs + [WordBit(at, bit)], bitSrcs + [BitSrc(false, |bitWordAddrs|, bit)],
                  bitWordAddrs + [at], nativeBits)
  {
    FoldSnoc(srcs, WordBit(at, bit));
  }

  lemma SplitNativeBit(
    srcs: seq<Source>, bitSrcs: seq<BitSrc>, bitWordAddrs: seq<DeviceAddr>, nativeBits: seq<DeviceAddr>, at: DeviceAddr
  )
    requires Split(srcs, bitSrcs, bitWordAddrs, nativeBits)
    ensures Split(srcs + [NativeBit(at)], bitSrcs + [BitSrc(true, |nativeBits|, 0)], bitWordAddrs, nativeBits + [at])
  {
    FoldSnoc(srcs, NativeBit(at));
  }

  /** The loop over `bits`: word bits are folded into the word list, bit devices are set aside and capped. */
  method SplitBits(bits: seq<string>)
    returns (ok: bool, bitSrcs: seq<BitSrc>, bitWordAddrs: seq<DeviceAddr>, nativeBits: seq<DeviceAddr>)
    ensures ok <==> Each(bits, BitSource) && |Natives(Picked(bits, BitSource))| <= MAX_RANDOM_BIT_READS
    ensures ok ==> Split(Picked(bits, BitSource), bitSrcs, bitWordAddrs, nativeBits)
  {
    bitSrcs, bitWordAddrs, nativeBits := [], [], [];
    for i := 0 to |bits|
      invariant Each(bits[..i], BitSource) && |nativeBits| <= MAX_RANDOM_BIT_READS
      invariant Split(Picked(bits[..i], BitSource), bitSrcs, bitWordAddrs, nativeBits)
    {
      var src := BitSource(bits[i]);
      if src.None? {
        return false, bitSrcs, bitWordAddrs, nativeBits;
      }
      PickedSnoc(bits, BitSource, i);
      ghost var seen := Picked(bits[..i], BitSource);
      match src.value {
        case WordBit(at, bit) =>
          SplitWordBit(seen, bitSrcs, bitWordAddrs, nativeBits, at, bit);
          bitSrcs := bitSrcs + [BitSrc(false, |bitWordAddrs|, bit)];
          bitWordAddrs := bitWordAddrs + [at];
        case NativeBit(at) =>
          SplitNativeBit(seen, bitSrcs, bitWordAddrs, nativeBits, at);
          if |nativeBits| >= MAX_RANDOM_BIT_READS {
            TooManyNatives(bits, i + 1);
            return false, bitSrcs, bitWordAddrs, nativeBits;
          }
          bitSrcs := bitSrcs + [BitSrc(true, |nativeBits|, 0)];
          nativeBits := nativeBits + [at];
      }
    }
    assert bits[..|bits|] == bits;
    ok := true;
  }

  lemma TooManyNatives(bits: seq<string>, n: nat)
    requires n <= |bits| && Each(bits[..n], BitSource) && |Natives(Picked(bits[..n], BitSource))| > MAX_RANDOM_BIT_READS
    ensures Each(bits, BitSource) ==> |Natives(Picked(bits, BitSource))| > MAX_RANDOM_BIT_READS
  {
    if Each(bits, BitSource) {
      assert Picked(bits[..n], BitSource) == Picked(bits, BitSource)[..n];
      FoldGrows(Picked(bits, BitSource), n);
    }
  }

  /** `handleRandomRead`, from the decoded body to the planned calls. */
  method PlanRandomRead(words: seq<string>, dwords: seq<string>, bits: seq<string>) returns (r: Option<ReadPlan>)
    ensures r.Some? <==> ValidRead(words, dwords, bits)
    ensures r.Some? ==> Plans(r.value, words, dwords, bits)
  {
    if !ValidSizes(|words|, |dwords|, |bits|) {
      return None;
    }
    var wordAddrs := ParseEach(words, WordAddr);
    if wordAddrs.None? {
      return None;
    }
    var dwordAddrs := ParseEach(dwords, WordAddr);
    if dwordAddrs.None? {
      return None;
    }
    var ok, bitSrcs, bitWordAddrs, nativeBits := SplitBits(bits);
    if !ok {
      return None;
    }
    var readAddrs := wordAddrs.value + bitWordAddrs;
    if |readAddrs| > MAX_RANDOM_COUNT {
      return None;
    }
    r := Some(ReadPlan(|words|, readAddrs, dwordAddrs.value, nativeBits, bitSrcs));
  }

  /** The place a bit entry points to exists in the lists that came back. */
  predicate InRange(b: BitSrc, first: nat, wordVals: seq<Word>, nativeVals: seq<bool>) {
    if b.native then b.idx < |nativeVals| else first + b.idx < |wordVals|
  }

  function Pick(b: BitSrc, first: nat, wordVals: seq<Word>, nativeVals: seq<bool>): bool
    requires InRange(b, first, wordVals, nativeVals)
  {
    if b.native then nativeVals[b.idx] else Bit(wordVals[first + b.idx], b.offset)
  }

  /** The tail of `handleRandomRead`: picks each answer out of the three lists that came back. */
  method Assemble(plan: ReadPlan, wordVals: seq<Word>, dwordVals: seq<Dword>, nativeVals: seq<bool>)
    returns (wordInts: seq<int>, dwordInts: seq<int>, bitBools: seq<bool>)
    requires plan.wordCount <= |wordVals|
    requires forall i :: 0 <= i < |plan.bitSrcs| ==> InRange(plan.bitSrcs[i], plan.wordCount, wordVals, nativeVals)
    ensures wordInts == wordVals[..plan.wordCount] && dwordInts == dwordVals && |bitBools| == |plan.bitSrcs|
    ensures forall i :: 0 <= i < |plan.bitSrcs| ==>
      bitBools[i] == Pick(plan.bitSrcs[i], plan.wordCount, wordVals, nativeVals)
  {
    wordInts, dwordInts := wordVals[..plan.wordCount], dwordVals;
    var bits := new bool[|plan.bitSrcs|];
    for i := 0 to |plan.bitSrcs|
      invariant forall k :: 0 <= k < i ==> bits[k] == Pick(plan.bitSrcs[k], plan.wordCount, wordVals, nativeVals)
    {
      var b := plan.bitSrcs[i];
      bits[i] := if b.native then nativeVals[b.idx] else Bit(wordVals[plan.wordCount + b.idx], b.offset);
    }
    bitBools := bits[..];
  }

  /** What reading one bit entry by itself returns. */
  function BitValue(m: Memory, src: Source): bool {
    match src
    case WordBit(at, bit) => Bit(m.words[at], bit)
    case NativeBit(at) => m.bits[at]
  }

  lemma FoldedWord(words: seq<DeviceAddr>, folded: seq<DeviceAddr>, m: Memory, idx: nat)
    requires idx < |folded|
    ensures |words| + idx < |WordsAt(m, words + folded)|
    ensures WordsAt(m, words + folded)[|words| + idx] == m.words[folded[idx]]
  {
    assert (words + folded)[|words| + idx] == folded[idx];
  }

  // The located values are the entries' own values.
  lemma LocatedIn(
    b: BitSrc, src: Source, words: seq<DeviceAddr>, folded: seq<DeviceAddr>, natives: seq<DeviceAddr>, m: Memory
  )
    requires Locates(b, src, folded, natives)
    ensures InRange(b, |words|, WordsAt(m, words + folded), BitsAt(m, natives))
    ensures Pick(b, |words|, WordsAt(m, words + folded), BitsAt(m, natives)) == BitValue(m, src)
  {
    match src
    case WordBit(_, _) => FoldedWord(words, folded, m, b.idx);
    case NativeBit(_) =>
  }

  lemma LocatedValue(bitSrcs: seq<BitSrc>, words: seq<DeviceAddr>, srcs: seq<Source>, m: Memory, i: nat)
    requires i < |srcs| && AllLocated(bitSrcs, srcs, Folded(srcs), Natives(srcs))
    ensures var wordVals, nativeVals := WordsAt(m, words + Folded(srcs)), BitsAt(m, Natives(srcs));
            && InRange(bitSrcs[i], |words|, wordVals, nativeVals)
            && Pick(bitSrcs[i], |words|, wordVals, nativeVals) == BitValue(m, srcs[i])
  {
    LocatedIn(bitSrcs[i], srcs[i], words, Folded(srcs), Natives(srcs), m);
  }

  lemma LocatedValues(bitSrcs: seq<BitSrc>, words: seq<DeviceAddr>, srcs: seq<Source>, m: Memory)
    requires AllLocated(bitSrcs, srcs, Folded(srcs), Natives(srcs))
    ensures var wordVals, nativeVals := WordsAt(m, words + Folded(srcs)), BitsAt(m, Natives(srcs));
            forall i :: 0 <= i < |srcs| ==>
              && InRange(bitSrcs[i], |words|, wordVals, nativeVals)
              && Pick(bitSrcs[i], |words|, wordVals, nativeVals) == BitValue(m, srcs[i])
  {
    var wordVals, nativeVals := WordsAt(m, words + Folded(srcs)), BitsAt(m, Natives(srcs));
    forall i | 0 <= i < |srcs|
      ensures InRange(bitSrcs[i], |words|, wordVals, nativeVals)
      ensures Pick(bitSrcs[i], |words|, wordVals, nativeVals) == BitValue(m, srcs[i])
    {
      LocatedValue(bitSrcs, words, srcs, m, i);
    }
  }

  /** The response to a random read: a bad request, the failure of a call, or the three lists of values. */
  datatype ReadResponse =
    | Rejected
    | Failed(fault: Fault)
    | Values(wordInts: seq<int>, dwordInts: seq<int>, bitBools: seq<bool>)

  /** Runs a planned request and picks out its answers. */
  method RunPlan(plan: ReadPlan, ghost words: seq<DeviceAddr>, ghost srcs: seq<Source>, conn: nat, s: Session)
    returns (r: ReadResponse)
    requires s.outcome == Fine && s.replies == []
    requires plan.wordCount == |words| && plan.readAddrs == words + Folded(srcs)
    requires plan.nativeBits == Natives(srcs) && AllLocated(plan.bitSrcs, srcs, Folded(srcs), Natives(srcs))
    ensures var s' := RunProgram(conn, RandomReadProgram(plan.readAddrs, plan.dwordAddrs, plan.nativeBits), s);
            if s'.outcome == Fine then r.Values? else r == Failed(s'.outcome)
    ensures r.Values? ==>
      && r.wordInts == WordsAt(s.mem, words) && r.dwordInts == DwordsAt(s.mem, plan.dwordAddrs)
      && r.bitBools == seq(|srcs|, i requires 0 <= i < |srcs| => BitValue(s.mem, srcs[i]))
  {
    var s' := RunProgram(conn, RandomReadProgram(plan.readAddrs, plan.dwordAddrs, plan.nativeBits), s);
    ReadPlanRun(conn, plan, s);
    if s'.outcome != Fine {
      return Failed(s'.outcome);
    }
    var wordVals := RandomWordsOf(plan.readAddrs, plan.dwordAddrs, s'.replies);
    var dwordVals := RandomDwordsOf(plan.readAddrs, plan.dwordAddrs, s'.replies);
    var nativeVals := RandomBitsOf(plan.readAddrs, plan.dwordAddrs, plan.nativeBits, s'.replies);
    LocatedValues(plan.bitSrcs, words, srcs, s.mem);
    FirstWords(words, Folded(srcs), s.mem);
    var wordInts, dwordInts, bitBools := Assemble(plan, wordVals, dwordVals, nativeVals);
    r := Values(wordInts, dwordInts, bitBools);
  }

  lemma ReadPlanRun(conn: nat, plan: ReadPlan, s: Session)
    requires s.outcome == Fine && s.replies == []
    ensures var r := RunProgram(conn, RandomReadProgram(plan.readAddrs, plan.dwordAddrs, plan.nativeBits), s);
            && (s.faults == [] ==> r.outcome == Fine)
            && (r.outcome == Fine ==>
                  && RandomWordsOf(plan.readAddrs, plan.dwordAddrs, r.replies) == WordsAt(s.mem, plan.readAddrs)
                  && RandomDwordsOf(plan.readAddrs, plan.dwordAddrs, r.replies) == DwordsAt(s.mem, plan.dwordAddrs)
                  && RandomBitsOf(plan.readAddrs, plan.dwordAddrs, plan.nativeBits, r.replies)
                     == BitsAt(s.mem, plan.nativeBits))
  {
    var p := RandomReadProgram(plan.readAddrs, plan.dwordAddrs, plan.nativeBits);
    RandomReadRun(conn, plan.readAddrs, plan.dwordAddrs, plan.nativeBits, s.(faults := []));
    if RunProgram(conn, p, s).outcome == Fine {
      FineIsFaultless(conn, p, s);
    }
  }

  lemma FirstWords(words: seq<DeviceAddr>, more: seq<DeviceAddr>, m: Memory)
    ensures WordsAt(m, words + more)[..|words|] == WordsAt(m, words)
  {
  }

  function PlannedRead(words: seq<string>, dwords: seq<string>, bits: seq<string>): Program
    requires ValidRead(words, dwords, bits)
  {
    var srcs := Picked(bits, BitSource);
    RandomReadProgram(Picked(words, WordAddr) + Folded(srcs), Picked(dwords, WordAddr), Natives(srcs))
  }

  /**
   `handleRandomRead` end to end: exactly what reading each word, double word and bit by itself
   returns, in request order.
   */
  method RandomRead(words: seq<string>, dwords: seq<string>, bits: seq<string>, conn: nat, s: Session)
    returns (r: ReadResponse)
    requires s.outcome == Fine && s.replies == []
    ensures r.Rejected? <==> !ValidRead(words, dwords, bits)
    ensures ValidRead(words, dwords, bits) ==>
      var s' := RunProgram(conn, PlannedRead(words, dwords, bits), s);
      && (s.faults == [] ==> s'.outcome == Fine)
      && (if s'.outcome == Fine then r.Values? else r == Failed(s'.outcome))
    ensures r.Values? ==>
      && |r.wordInts| == |words| && |r.dwordInts| == |dwords| && |r.bitBools| == |bits|
      && (forall i :: 0 <= i < |words| ==> SingleRead(s.mem, words[i], false) == Some(RW.Ints([r.wordInts[i]])))
      && (forall i :: 0 <= i < |dwords| ==> SingleRead(s.mem, dwords[i], true) == Some(RW.Ints([r.dwordInts[i]])))
      && (forall i :: 0 <= i < |bits| ==> SingleRead(s.mem, bits[i], false) == Some(RW.Bools([r.bitBools[i]])))
  {
    var p := PlanRandomRead(words, dwords, bits);
    if p.None? {
      return Rejected;
    }
    ReadPlanRun(conn, p.value, s);
    r := RunPlan(p.value, Picked(words, WordAddr), Picked(bits, BitSource), conn, s);
    ReadOneByOne(words, dwords, bits, s.mem);
  }

  // The values of the listed registers and bits are those of the plain requests.
  lemma ReadOneByOne(words: seq<string>, dwords: seq<string>, bits: seq<string>, m: Memory)
    requires Each(words, WordAddr) && Each(dwords, WordAddr) && Each(bits, BitSource)
    ensures forall i :: 0 <= i < |words| ==>
      SingleRead(m, words[i], false) == Some(RW.Ints([WordsAt(m, Picked(words, WordAddr))[i]]))
    ensures forall i :: 0 <= i < |dwords| ==>
      SingleRead(m, dwords[i], true) == Some(RW.Ints([DwordsAt(m, Picked(dwords, WordAddr))[i]]))
    ensures forall i :: 0 <= i < |bits| ==>
      SingleRead(m, bits[i], false) == Some(RW.Bools([BitValue(m, Picked(bits, BitSource)[i])]))
  {
    forall i | 0 <= i < |words|
      ensures SingleRead(m, words[i], false) == Some(RW.Ints([WordsAt(m, Picked(words, WordAddr))[i]]))
    {
      WordIsRead(words[i], m);
    }
    forall i | 0 <= i < |dwords|
      ensures SingleRead(m, dwords[i], true) == Some(RW.Ints([DwordsAt(m, Picked(dwords, WordAddr))[i]]))
    {
      WordIsRead(dwords[i], m);
    }
    forall i | 0 <= i < |bits|
      ensures SingleRead(m, bits[i], false) == Some(RW.Bools([BitValue(m, Picked(bits, BitSource)[i])]))
    {
      BitIsRead(bits[i], m);
    }
  }

  // ---- Random write ----

  /** Which requests /random-write accepts. */
  predicate ValidWrite(words: seq<(string, Word)>, dwords: seq<(string, Dword)>, bits: seq<(string, bool)>) {
    && ValidSizes(|words|, |dwords|, |bits|)
    && Each(words, WordTarget) && Each(dwords, WordTarget) && Each(bits, BitTarget)
  }

  function WordTarget<V>(entry: (string, V)): Option<(DeviceAddr, V)> {
    var a := WordAddr(entry.0);
    if a.None? then None else Some((a.value, entry.1))
  }

  function BitTarget(entry: (string, bool)): Option<(Source, bool)> {
    var src := BitSource(entry.0);
    if src.None? then None else Some((src.value, entry.1))
  }

  // ---- One entry is one plain request ----

  /** The memory after /write of one address, alone on a network that does not fail. */
  function SingleWrite(m: Memory, addr: string, dword: bool, values: RW.Values): Memory {
    var p := RW.PlanWrite(addr, dword, false, values);
    if p.None? then m else RunProgram(0, p.value, Start(m, [], [])).mem
  }

  /** The reference: the requests made one after the other. */
  function EachWritten(m: Memory, requests: seq<(string, RW.Values)>, dword: bool): Memory {
    if requests == [] then m
    else
      var n := |requests| - 1;
      SingleWrite(EachWritten(m, requests[..n], dword), requests[n].0, dword, requests[n].1)
  }

  function Numbers(entries: seq<(string, int)>): seq<(string, RW.Values)> {
    seq(|entries|, i requires 0 <= i < |entries| => (entries[i].0, RW.Ints([entries[i].1])))
  }

  function Booleans(entries: seq<(string, bool)>): seq<(string, RW.Values)> {
    seq(|entries|, i requires 0 <= i < |entries| => (entries[i].0, RW.Bools([entries[i].1])))
  }

  lemma CallAlone(m: Memory, c: Call)
    ensures RunProgram(0, [Issue(c)], Start(m, [], [])).mem == Apply(m, c)
  {
    RunSingle(0, Issue(c), Start(m, [], []));
  }

  lemma WordWritePlanned(e: (string, Word))
    requires WordTarget(e).Some?
    ensures RW.PlanWrite(e.0, false, false, RW.Ints([e.1])) == Some([Issue(WriteWords(WordTarget(e).value.0, [e.1]))])
  {
    AcceptedIsWellFormed(e.0);
    OneNumber(e.1);
  }

  lemma OneWordWritten(e: (string, Word), m: Memory)
    requires WordTarget(e).Some?
    ensures SingleWrite(m, e.0, false, RW.Ints([e.1])) == m.(words := m.words[WordTarget(e).value.0 := e.1])
  {
    WordWritePlanned(e);
    CallAlone(m, WriteWords(WordTarget(e).value.0, [e.1]));
    StoreOne(m, WordTarget(e).value.0, e.1);
  }

  lemma OneNumber(w: Word)
    ensures RW.EncodedWords([w]) == [w] && RW.AllFit([w], 16, false)
  {
    PowersOfTwo();
    RW.RangeOf(w, false);
    QuotientIs(w, 0x1_0000, 0, w);
  }

  lemma OneDouble(v: Dword)
    ensures RW.EncodedDwords([v]) == [v % 0x1_0000, v / 0x1_0000] && RW.AllFit([v], 32, false)
  {
    PowersOfTwo();
    RW.RangeOf(v, false);
    QuotientIs(v, 0x1_0000_0000, 0, v);
    RW.EncodedAt([v], 0);
  }

  lemma DwordWritePlanned(e: (string, Dword))
    requires WordTarget(e).Some?
    ensures RW.PlanWrite(e.0, true, false, RW.Ints([e.1]))
            == Some([Issue(WriteWords(WordTarget(e).value.0, [e.1 % 0x1_0000, e.1 / 0x1_0000]))])
  {
    AcceptedIsWellFormed(e.0);
    OneDouble(e.1);
  }

  lemma StoreTwo(m: Memory, at: DeviceAddr, low: Word, high: Word)
    ensures Apply(m, WriteWords(at, [low, high])) == m.(words := m.words[at := low][Offset(at, 1) := high])
  {
    assert [low, high][1..] == [high] && [high][1..] == [];
    assert StoreWords(m.words[at := low], Offset(at, 1), [high]) == m.words[at := low][Offset(at, 1) := high];
  }

  lemma OneDwordWritten(e: (string, Dword), m: Memory)
    requires WordTarget(e).Some?
    ensures var at := WordTarget(e).value.0;
            SingleWrite(m, e.0, true, RW.Ints([e.1]))
            == m.(words := m.words[at := e.1 % 0x1_0000][Offset(at, 1) := e.1 / 0x1_0000])
  {
    DwordWritePlanned(e);
    CallAlone(m, WriteWords(WordTarget(e).value.0, [e.1 % 0x1_0000, e.1 / 0x1_0000]));
    StoreTwo(m, WordTarget(e).value.0, e.1 % 0x1_0000, e.1 / 0x1_0000);
  }

  /** The entry written by itself. */
  function OneBit(m: Memory, e: (Source, bool)): Memory {
    match e.0
    case WordBit(at, bit) => m.(words := m.words[at := EditWord(m.words[at], Edit(bit, e.1))])
    case NativeBit(at) => m.(bits := m.bits[at := e.1])
  }

  /** The plain write of a bit entry. */
  function InstrOf(e: (Source, bool)): Instr {
    match e.0
    case WordBit(at, bit) => Modify(at, [Edit(bit, e.1)])
    case NativeBit(at) => Issue(WriteBits(at, [e.1]))
  }

  lemma BitWritePlanned(e: (string, bool))
    ensures BitTarget(e).Some? <==> RW.PlanWrite(e.0, false, false, RW.Bools([e.1])).Some?
    ensures BitTarget(e).Some? ==>
      RW.PlanWrite(e.0, false, false, RW.Bools([e.1])) == Some([InstrOf(BitTarget(e).value)])
  {
    if Parse(e.0).Some? {
      AcceptedIsWellFormed(e.0);
      var bit := Parse(e.0).value.bit;
      if bit >= 0 {
        assert Edits(bit, [e.1]) == [Edit(bit, e.1)];
      }
    }
  }

  lemma InstrAlone(e: (Source, bool), m: Memory)
    ensures RunProgram(0, [InstrOf(e)], Start(m, [], [])).mem == OneBit(m, e)
  {
    var s := Start(m, [], []);
    RunSingle(0, InstrOf(e), s);
    match e.0
    case WordBit(at, bit) => OneBitRun(0, WordBitWrite(at, bit, e.1), s);
    case NativeBit(at) => assert StoreBits(m.bits[at := e.1], Offset(at, 1), [e.1][1..]) == m.bits[at := e.1];
  }

  // An entry of `bits` is accepted exactly when /write accepts it with its boolean, and does what
  // that write does.
  lemma BitIsWritten(e: (string, bool), m: Memory)
    ensures BitTarget(e).Some? <==> RW.PlanWrite(e.0, false, false, RW.Bools([e.1])).Some?
    ensures BitTarget(e).Some? ==> SingleWrite(m, e.0, false, RW.Bools([e.1])) == OneBit(m, BitTarget(e).value)
  {
    BitWritePlanned(e);
    if BitTarget(e).Some? {
      InstrAlone(BitTarget(e).value, m);
    }
  }

  lemma {:induction false} StoreWordListSnoc(m: WordStore, writes: seq<(DeviceAddr, Word)>, w: (DeviceAddr, Word))
    ensures StoreWordList(m, writes + [w]) == StoreWordList(m, writes)[w.0 := w.1]
    decreases |writes|
  {
    if writes == [] {
      assert StoreWordList(m[w.0 := w.1], [w][1..]) == m[w.0 := w.1];
    } else {
      assert (writes + [w])[1..] == writes[1..] + [w];
      StoreWordListSnoc(m[writes[0].0 := writes[0].1], writes[1..], w);
    }
  }

  lemma {:induction false} StoreDwordListSnoc(m: WordStore, writes: seq<(DeviceAddr, Dword)>, w: (DeviceAddr, Dword))
    ensures StoreDwordList(m, writes + [w])
            == StoreDwordList(m, writes)[w.0 := w.1 % 0x1_0000][Offset(w.0, 1) := w.1 / 0x1_0000]
    decreases |writes|
  {
    if writes == [] {
      assert [w][1..] == [];
    } else {
      var (a, v) := writes[0];
      assert (writes + [w])[1..] == writes[1..] + [w];
      StoreDwordListSnoc(m[a := v % 0x1_0000][Offset(a, 1) := v / 0x1_0000], writes[1..], w);
    }
  }

  // Writing the listed registers at once is writing them one request after the other.
  lemma {:induction false} WordsOneByOne(m: Memory, entries: seq<(string, Word)>)
    requires Each(entries, WordTarget)
    ensures EachWritten(m, Numbers(entries), false)
            == m.(words := StoreWordList(m.words, Picked(entries, WordTarget)))
  {
    if entries != [] {
      var n := |entries| - 1;
      var m' := EachWritten(m, Numbers(entries[..n]), false);
      WordsOneByOne(m, entries[..n]);
      assert Numbers(entries)[..n] == Numbers(entries[..n]) && entries[..n + 1] == entries;
      OneWordWritten(entries[n], m');
      PickedSnoc(entries, WordTarget, n);
      StoreWordListSnoc(m.words, Picked(entries[..n], WordTarget), WordTarget(entries[n]).value);
    }
  }

  lemma {:induction false} DwordsOneByOne(m: Memory, entries: seq<(string, Dword)>)
    requires Each(entries, WordTarget)
    ensures EachWritten(m, Numbers(entries), true)
            == m.(words := StoreDwordList(m.words, Picked(entries, WordTarget)))
  {
    if entries != [] {
      var n := |entries| - 1;
      var m' := EachWritten(m, Numbers(entries[..n]), true);
      DwordsOneByOne(m, entries[..n]);
      assert Numbers(entries)[..n] == Numbers(entries[..n]) && entries[..n + 1] == entries;
      OneDwordWritten(entries[n], m');
      PickedSnoc(entries, WordTarget, n);
      StoreDwordListSnoc(m.words, Picked(entries[..n], WordTarget), WordTarget(entries[n]).value);
    }
  }

  lemma LastBooleanWritten(m: Memory, entries: seq<(string, bool)>)
    requires entries != []
    ensures var init, e := entries[..|entries| - 1], entries[|entries| - 1];
            EachWritten(m, Booleans(entries), false)
            == SingleWrite(EachWritten(m, Booleans(init), false), e.0, false, RW.Bools([e.1]))
  {
    var n := |entries| - 1;
    assert Booleans(entries)[..n] == Booleans(entries[..n]);
  }

  lemma LastBitPicked(m: Memory, entries: seq<(string, bool)>)
    requires entries != [] && Each(entries, BitTarget)
    ensures var init, e := entries[..|entries| - 1], entries[|entries| - 1];
            && Each(init, BitTarget)
            && EachBitWritten(m, Picked(entries, BitTarget))
               == OneBit(EachBitWritten(m, Picked(init, BitTarget)), BitTarget(e).value)
  {
    var n := |entries| - 1;
    assert Picked(entries, BitTarget)[..n] == Picked(entries[..n], BitTarget);
  }

  lemma {:induction false} BitsOneByOne(m: Memory, entries: seq<(string, bool)>)
    requires Each(entries, BitTarget)
    ensures EachWritten(m, Booleans(entries), false) == EachBitWritten(m, Picked(entries, BitTarget))
  {
    if entries != [] {
      var n := |entries| - 1;
      BitsOneByOne(m, entries[..n]);
      LastBooleanWritten(m, entries);
      LastBitPicked(m, entries);
      BitIsWritten(entries[n], EachWritten(m, Booleans(entries[..n]), false));
    }
  }

  // /random-write accepts a request exactly when it is not empty, no list is longer than 255, the
  // words and double words are addresses /read accepts with `dword`, and /write accepts every bit
  // entry by itself.
  lemma WriteAcceptedIff(
    words: seq<(string, Word)>, dwords: seq<(string, Dword)>, bits: seq<(string, bool)>, m: Memory
  )
    ensures ValidWrite(words, dwords, bits) <==>
            && 1 <= |words| + |dwords| + |bits| && |words| <= 255 && |dwords| <= 255 && |bits| <= 255
            && (forall i :: 0 <= i < |words| ==> RW.PlanRead(words[i].0, 1, true, false).Some?)
            && (forall i :: 0 <= i < |dwords| ==> RW.PlanRead(dwords[i].0, 1, true, false).Some?)
            && (forall i :: 0 <= i < |bits| ==> RW.PlanWrite(bits[i].0, false, false, RW.Bools([bits[i].1])).Some?)
  {
    AllTargetsRead(words, m);
    AllTargetsRead(dwords, m);
    forall i | 0 <= i < |bits|
      ensures BitTarget(bits[i]).Some? <==> RW.PlanWrite(bits[i].0, false, false, RW.Bools([bits[i].1])).Some?
    {
      BitIsWritten(bits[i], m);
    }
  }

  lemma AllTargetsRead<V>(entries: seq<(string, V)>, m: Memory)
    ensures Each(entries, WordTarget) <==>
            forall i :: 0 <= i < |entries| ==> RW.PlanRead(entries[i].0, 1, true, false).Some?
  {
    forall i | 0 <= i < |entries|
      ensures WordTarget(entries[i]).Some? <==> RW.PlanRead(entries[i].0, 1, true, false).Some?
    {
      WordIsRead(entries[i].0, m);
    }
  }

  // ---- Splitting the bits ----

  /** The bit entries applied one by one, in request order. */
  function EachBitWritten(m: Memory, entries: seq<(Source, bool)>): Memory {
    if entries == [] then m
    else
      var n := |entries| - 1;
      OneBit(EachBitWritten(m, entries[..n]), entries[n])
  }

  function WordBitsOf(entries: seq<(Source, bool)>): seq<WordBitWrite> {
    if entries == [] then []
    else
      var n := |entries| - 1;
      WordBitsOf(entries[..n])
      + if entries[n].0.WordBit? then [WordBitWrite(entries[n].0.at, entries[n].0.bit, entries[n].1)] else []
  }

  function NativeBitsOf(entries: seq<(Source, bool)>): seq<(DeviceAddr, bool)> {
    if entries == [] then []
    else
      var n := |entries| - 1;
      NativeBitsOf(entries[..n]) + if entries[n].0.NativeBit? then [(entries[n].0.at, entries[n].1)] else []
  }

  lemma {:induction false} StoreBitListSnoc(m: BitStore, writes: seq<(DeviceAddr, bool)>, w: (DeviceAddr, bool))
    ensures StoreBitList(m, writes + [w]) == StoreBitList(m, writes)[w.0 := w.1]
    decreases |writes|
  {
    if writes == [] {
      assert StoreBitList(m[w.0 := w.1], [w][1..]) == m[w.0 := w.1];
    } else {
      assert (writes + [w])[1..] == writes[1..] + [w];
      StoreBitListSnoc(m[writes[0].0 := writes[0].1], writes[1..], w);
    }
  }

  lemma BitsAppliedSnoc(m: WordStore, wbs: seq<WordBitWrite>, wb: WordBitWrite)
    ensures var m' := BitsApplied(m, wbs);
            BitsApplied(m, wbs + [wb]) == m'[wb.at := EditWord(m'[wb.at], Edit(wb.bit, wb.value))]
  {
    assert (wbs + [wb])[..|wbs|] == wbs;
  }

  // Splitting the bit entries in two lists and writing the lists one after the other is the same
  // as writing every entry in request order: no entry is lost, doubled or overtaken.
  lemma {:induction false} SplitEqualsEach(m: Memory, entries: seq<(Source, bool)>)
    ensures EachBitWritten(m, entries) ==
            Memory(BitsApplied(m.words, WordBitsOf(entries)), StoreBitList(m.bits, NativeBitsOf(entries)))
  {
    if entries != [] {
      var n := |entries| - 1;
      SplitEqualsEach(m, entries[..n]);
      match entries[n].0 {
        case WordBit(at, bit) =>
          assert NativeBitsOf(entries) == NativeBitsOf(entries[..n]);
          BitsAppliedSnoc(m.words, WordBitsOf(entries[..n]), WordBitWrite(at, bit, entries[n].1));
        case NativeBit(at) =>
          assert WordBitsOf(entries) == WordBitsOf(entries[..n]);
          StoreBitListSnoc(m.bits, NativeBitsOf(entries[..n]), (at, entries[n].1));
      }
    }
  }

  lemma SplitSnoc(targets: seq<(Source, bool)>, t: (Source, bool))
    ensures NativeBitsOf(targets + [t]) == NativeBitsOf(targets) + if t.0.NativeBit? then [(t.0.at, t.1)] else []
    ensures WordBitsOf(targets + [t])
            == WordBitsOf(targets) + if t.0.WordBit? then [WordBitWrite(t.0.at, t.0.bit, t.1)] else []
  {
    assert (targets + [t])[..|targets|] == targets;
  }

  method SplitBitWrites(entries: seq<(string, bool)>)
    returns (ok: bool, native: seq<(DeviceAddr, bool)>, wordBits: seq<WordBitWrite>)
    ensures ok <==> Each(entries, BitTarget)
    ensures ok ==>
      native == NativeBitsOf(Picked(entries, BitTarget)) && wordBits == WordBitsOf(Picked(entries, BitTarget))
  {
    native, wordBits := [], [];
    for i := 0 to |entries|
      invariant Each(entries[..i], BitTarget)
      invariant native == NativeBitsOf(Picked(entries[..i], BitTarget))
      invariant wordBits == WordBitsOf(Picked(entries[..i], BitTarget))
    {
      var src := BitSource(entries[i].0);
      if src.None? {
        return false, native, wordBits;
      }
      PickedSnoc(entries, BitTarget, i);
      SplitSnoc(Picked(entries[..i], BitTarget), (src.value, entries[i].1));
      match src.value {
        case WordBit(at, bit) => wordBits := wordBits + [WordBitWrite(at, bit, entries[i].1)];
        case NativeBit(at) => native := native + [(at, entries[i].1)];
      }
    }
    assert entries[..|entries|] == entries;
    ok := true;
  }

  function PlannedWrite(words: seq<(string, Word)>, dwords: seq<(string, Dword)>, bits: seq<(string, bool)>): Program
    requires ValidWrite(words, dwords, bits)
  {
    var entries := Picked(bits, BitTarget);
    RandomWriteProgram(
      Picked(words, WordTarget), Picked(dwords, WordTarget), NativeBitsOf(entries), WordBitsOf(entries))
  }

  /** `handleRandomWrite`, from the decoded body to the program it runs. */
  method PlanRandomWrite(words: seq<(string, Word)>, dwords: seq<(string, Dword)>, bits: seq<(string, bool)>)
    returns (r: Option<Program>)
    ensures r == if ValidWrite(words, dwords, bits) then Some(PlannedWrite(words, dwords, bits)) else None
  {
    if !ValidSizes(|words|, |dwords|, |bits|) {
      return None;
    }
    var wordTargets := ParseEach(words, WordTarget);
    if wordTargets.None? {
      return None;
    }
    var dwordTargets := ParseEach(dwords, WordTarget);
    if dwordTargets.None? {
      return None;
    }
    var ok, native, wordBits := SplitBitWrites(bits);
    if !ok {
      return None;
    }
    r := Some(RandomWriteProgram(wordTargets.value, dwordTargets.value, native, wordBits));
  }

  /** The entries that are done once all bit devices and the word bits of `registers` are. */
  function Through(entries: seq<(Source, bool)>, registers: seq<DeviceAddr>): seq<(Source, bool)> {
    if entries == [] then []
    else
      var n := |entries| - 1;
      var e := entries[n];
      Through(entries[..n], registers) + if e.0.NativeBit? || e.0.at in registers then [e] else []
  }

  lemma {:induction false} ThroughSplits(entries: seq<(Source, bool)>, registers: seq<DeviceAddr>)
    ensures NativeBitsOf(Through(entries, registers)) == NativeBitsOf(entries)
    ensures WordBitsOf(Through(entries, registers)) == OnlyTo(WordBitsOf(entries), registers)
  {
    if entries != [] {
      var n := |entries| - 1;
      ThroughSplits(entries[..n], registers);
      match entries[n].0 {
        case WordBit(at, bit) => ThroughWordBit(entries, registers);
        case NativeBit(at) => ThroughNativeBit(entries, registers);
      }
    }
  }

  lemma ThroughNativeBit(entries: seq<(Source, bool)>, registers: seq<DeviceAddr>)
    requires entries != [] && entries[|entries| - 1].0.NativeBit?
    ensures var init, e := entries[..|entries| - 1], entries[|entries| - 1];
            && NativeBitsOf(entries) == NativeBitsOf(init) + [(e.0.at, e.1)]
            && NativeBitsOf(Through(entries, registers)) == NativeBitsOf(Through(init, registers)) + [(e.0.at, e.1)]
            && WordBitsOf(entries) == WordBitsOf(init)
            && WordBitsOf(Through(entries, registers)) == WordBitsOf(Through(init, registers))
  {
    var init, e := entries[..|entries| - 1], entries[|entries| - 1];
    SplitSnoc(init, e);
    SplitSnoc(Through(init, registers), e);
    assert entries == init + [e];
  }

  lemma ThroughWordBit(entries: seq<(Source, bool)>, registers: seq<DeviceAddr>)
    requires entries != [] && entries[|entries| - 1].0.WordBit?
    ensures var init, e := entries[..|entries| - 1], entries[|entries| - 1];
            var wb := [WordBitWrite(e.0.at, e.0.bit, e.1)];
            && NativeBitsOf(entries) == NativeBitsOf(init)
            && NativeBitsOf(Through(entries, registers)) == NativeBitsOf(Through(init, registers))
            && OnlyTo(WordBitsOf(entries), registers)
               == OnlyTo(WordBitsOf(init), registers) + (if e.0.at in registers then wb else [])
            && WordBitsOf(Through(entries, registers))
               == WordBitsOf(Through(init, registers)) + (if e.0.at in registers then wb else [])
  {
    var init, e := entries[..|entries| - 1], entries[|entries| - 1];
    SplitSnoc(init, e);
    SplitSnoc(Through(init, registers), e);
    OnlyToSnoc(WordBitsOf(init), WordBitWrite(e.0.at, e.0.bit, e.1), registers);
    assert entries == init + [e];
    var before := Through(init, registers);
    assert Through(entries, registers) == if e.0.at in registers then before + [e] else before;
  }

  lemma OnlyToSnoc(wbs: seq<WordBitWrite>, wb: WordBitWrite, order: seq<DeviceAddr>)
    ensures OnlyTo(wbs + [wb], order) == OnlyTo(wbs, order) + if wb.at in order then [wb] else []
  {
    assert (wbs + [wb])[..|wbs|] == wbs;
  }

  lemma {:induction false} ThroughAll(entries: seq<(Source, bool)>, registers: seq<DeviceAddr>)
    requires forall i :: 0 <= i < |WordBitsOf(entries)| ==> WordBitsOf(entries)[i].at in registers
    ensures Through(entries, registers) == entries
  {
    if entries != [] {
      var n := |entries| - 1;
      var wbs := WordBitsOf(entries[..n]);
      SplitSnoc(entries[..n], entries[n]);
      assert entries == entries[..n] + [entries[n]];
      assert forall i :: 0 <= i < |wbs| ==> wbs[i] == WordBitsOf(entries)[i];
      assert entries[n].0.WordBit? ==> WordBitsOf(entries)[|wbs|].at == entries[n].0.at;
      ThroughAll(entries[..n], registers);
    }
  }

  /** The memory of a random write after `phase` of its phases, and `j` registers of the last one. */
  function PointwiseWritten(
    m: Memory, words: seq<(DeviceAddr, Word)>, dwords: seq<(DeviceAddr, Dword)>, entries: seq<(Source, bool)>,
    phase: nat, j: nat
  ): Memory
    requires j <= |FirstMentions(WordBitsOf(entries))|
  {
    if phase == 0 then m
    else
      var m' := Apply(m, Call.RandomWrite(words, dwords));
      if phase == 1 then m'
      else EachBitWritten(m', Through(entries, FirstMentions(WordBitsOf(entries))[..j]))
  }

  /** The bit entries that are done once all bit devices and the word bits of `registers` are. */
  function Kept(bits: seq<(string, bool)>, registers: seq<DeviceAddr>): seq<(string, bool)> {
    if bits == [] then []
    else
      var n := |bits| - 1;
      Kept(bits[..n], registers) + if InRegisters(bits[n], registers) then [bits[n]] else []
  }

  /** /write would not touch a register outside of `registers`. */
  predicate InRegisters(e: (string, bool), registers: seq<DeviceAddr>) {
    var p := RW.PlanWrite(e.0, false, false, RW.Bools([e.1]));
    p.Some? && forall i :: i in p.value && i.Modify? ==> i.at in registers
  }

  lemma KeptEntry(e: (string, bool), registers: seq<DeviceAddr>)
    requires BitTarget(e).Some?
    ensures var t := BitTarget(e).value; InRegisters(e, registers) <==> t.0.NativeBit? || t.0.at in registers
  {
    BitWritePlanned(e);
    assert InstrOf(BitTarget(e).value) in [InstrOf(BitTarget(e).value)];
  }

  lemma {:induction false} KeptPicked(bits: seq<(string, bool)>, registers: seq<DeviceAddr>)
    requires Each(bits, BitTarget)
    ensures Each(Kept(bits, registers), BitTarget)
    ensures Picked(Kept(bits, registers), BitTarget) == Through(Picked(bits, BitTarget), registers)
  {
    if bits != [] {
      var n := |bits| - 1;
      KeptPicked(bits[..n], registers);
      PickedSnoc(bits, BitTarget, n);
      assert bits[..n + 1] == bits;
      KeptEntry(bits[n], registers);
      var before, kept := Picked(bits[..n], BitTarget), Kept(bits[..n], registers);
      assert (before + [BitTarget(bits[n]).value])[..n] == before;
      if InRegisters(bits[n], registers) {
        assert (kept + [bits[n]])[..|kept|] == kept && (kept + [bits[n]])[..|kept| + 1] == kept + [bits[n]];
        PickedSnoc(kept + [bits[n]], BitTarget, |kept|);
      }
    }
  }

  /** The memory of a random write after `phase` of its phases, the last one with `registers` done. */
  function AsRequested(
    m: Memory, words: seq<(string, Word)>, dwords: seq<(string, Dword)>, bits: seq<(string, bool)>,
    phase: nat, registers: seq<DeviceAddr>
  ): Memory {
    if phase == 0 then m
    else
      var m' := EachWritten(EachWritten(m, Numbers(words), false), Numbers(dwords), true);
      if phase == 1 then m' else EachWritten(m', Booleans(Kept(bits, registers)), false)
  }

  lemma BothListsStored(
    m: Memory, m': Memory, m'': Memory, ws: seq<(DeviceAddr, Word)>, ds: seq<(DeviceAddr, Dword)>
  )
    requires m' == m.(words := StoreWordList(m.words, ws)) && m'' == m'.(words := StoreDwordList(m'.words, ds))
    ensures m'' == Apply(m, Call.RandomWrite(ws, ds))
  {
  }

  lemma NumbersWritten(m: Memory, words: seq<(string, Word)>, dwords: seq<(string, Dword)>)
    requires Each(words, WordTarget) && Each(dwords, WordTarget)
    ensures EachWritten(EachWritten(m, Numbers(words), false), Numbers(dwords), true)
            == Apply(m, Call.RandomWrite(Picked(words, WordTarget), Picked(dwords, WordTarget)))
  {
    var m' := EachWritten(m, Numbers(words), false);
    WordsOneByOne(m, words);
    DwordsOneByOne(m', dwords);
    var m'' := EachWritten(m', Numbers(dwords), true);
    BothListsStored(m, m', m'', Picked(words, WordTarget), Picked(dwords, WordTarget));
  }

  lemma RequestsWritten(
    m: Memory, words: seq<(string, Word)>, dwords: seq<(string, Dword)>, bits: seq<(string, bool)>,
    phase: nat, j: nat
  )
    requires Each(words, WordTarget) && Each(dwords, WordTarget) && Each(bits, BitTarget)
    requires j <= |FirstMentions(WordBitsOf(Picked(bits, BitTarget)))|
    ensures var entries := Picked(bits, BitTarget);
            PointwiseWritten(m, Picked(words, WordTarget), Picked(dwords, WordTarget), entries, phase, j)
            == AsRequested(m, words, dwords, bits, phase, FirstMentions(WordBitsOf(entries))[..j])
  {
    var registers := FirstMentions(WordBitsOf(Picked(bits, BitTarget)))[..j];
    var m' := EachWritten(EachWritten(m, Numbers(words), false), Numbers(dwords), true);
    NumbersWritten(m, words, dwords);
    KeptWritten(m', bits, registers);
  }

  lemma KeptWritten(m: Memory, bits: seq<(string, bool)>, registers: seq<DeviceAddr>)
    requires Each(bits, BitTarget)
    ensures EachWritten(m, Booleans(Kept(bits, registers)), false)
            == EachBitWritten(m, Through(Picked(bits, BitTarget), registers))
  {
    KeptPicked(bits, registers);
    BitsOneByOne(m, Kept(bits, registers));
  }

  // End to end, whatever fails: a random write has the effect of plain writes, one after the other:
  // of the words, then of the double words, then of bit entries, each list in request order. When it
  // ends well, as it does whenever nothing fails, every entry has been written; otherwise nothing at
  // all, or the words and double words alone, or besides them the bit devices and the word bits of
  // the first registers named.
  lemma RandomWriteIsPointwise(
    words: seq<(string, Word)>, dwords: seq<(string, Dword)>, bits: seq<(string, bool)>, conn: nat, s: Session
  )
    returns (phase: nat, registers: seq<DeviceAddr>)
    requires ValidWrite(words, dwords, bits) && s.outcome == Fine
    ensures var r := RunProgram(conn, PlannedWrite(words, dwords, bits), s);
            && phase <= 2 && r.mem == AsRequested(s.mem, words, dwords, bits, phase, registers)
            && (r.outcome == Fine ==> phase == 2 && Kept(bits, registers) == bits)
            && (s.faults == [] ==> r.outcome == Fine)
    ensures registers <= FirstMentions(WordBitsOf(Picked(bits, BitTarget)))
  {
    var entries := Picked(bits, BitTarget);
    var order := FirstMentions(WordBitsOf(entries));
    var j;
    phase, j := TargetsWritten(Picked(words, WordTarget), Picked(dwords, WordTarget), entries, conn, s);
    registers := order[..j];
    RequestsWritten(s.mem, words, dwords, bits, phase, j);
    AllKept(bits, order);
    assert j == |order| ==> registers == order;
  }

  lemma {:induction false} AllKept(bits: seq<(string, bool)>, registers: seq<DeviceAddr>)
    requires Each(bits, BitTarget)
    requires Through(Picked(bits, BitTarget), registers) == Picked(bits, BitTarget)
    ensures Kept(bits, registers) == bits
  {
    KeptPicked(bits, registers);
    KeptIsPart(bits, registers);
    assert |Picked(Kept(bits, registers), BitTarget)| == |bits|;
  }

  lemma {:induction false} KeptIsPart(bits: seq<(string, bool)>, registers: seq<DeviceAddr>)
    ensures |Kept(bits, registers)| <= |bits|
    ensures |Kept(bits, registers)| == |bits| ==> Kept(bits, registers) == bits
  {
    if bits != [] {
      var n := |bits| - 1;
      var kept := Kept(bits[..n], registers);
      KeptIsPart(bits[..n], registers);
      if InRegisters(bits[n], registers) {
        assert Kept(bits, registers) == kept + [bits[n]];
        assert |kept| == n ==> kept + [bits[n]] == bits;
      } else {
        assert Kept(bits, registers) == kept;
      }
    }
  }

  lemma TargetsWritten(
    words: seq<(DeviceAddr, Word)>, dwords: seq<(DeviceAddr, Dword)>, entries: seq<(Source, bool)>,
    conn: nat, s: Session
  )
    returns (phase: nat, j: nat)
    requires s.outcome == Fine
    ensures var r := RunProgram(conn, RandomWriteProgram(words, dwords, NativeBitsOf(entries), WordBitsOf(entries)), s);
            && phase <= 2 && j <= |FirstMentions(WordBitsOf(entries))|
            && r.mem == PointwiseWritten(s.mem, words, dwords, entries, phase, j)
            && (r.outcome == Fine <==> phase == 2 && j == |FirstMentions(WordBitsOf(entries))|)
            && (s.faults == [] ==> r.outcome == Fine)
    ensures Through(entries, FirstMentions(WordBitsOf(entries))) == entries
  {
    phase, j := RandomWriteAnyFaults(conn, words, dwords, NativeBitsOf(entries), WordBitsOf(entries), s);
    PhasesWritten(words, dwords, entries, s.mem, phase, j);
    AllMentioned(WordBitsOf(entries));
    ThroughAll(entries, FirstMentions(WordBitsOf(entries)));
  }

  lemma PhasesWritten(
    words: seq<(DeviceAddr, Word)>, dwords: seq<(DeviceAddr, Dword)>, entries: seq<(Source, bool)>, m: Memory,
    phase: nat, j: nat
  )
    requires j <= |FirstMentions(WordBitsOf(entries))|
    ensures RandomWritten(words, dwords, NativeBitsOf(entries), WordBitsOf(entries), m, phase, j)
            == PointwiseWritten(m, words, dwords, entries, phase, j)
  {
    var m' := Apply(m, Call.RandomWrite(words, dwords));
    var registers := FirstMentions(WordBitsOf(entries))[..j];
    SplitEqualsEach(m', Through(entries, registers));
    ThroughSplits(entries, registers);
    NativeBitsStored(m', NativeBitsOf(entries));
  }

  lemma NativeBitsStored(m: Memory, writes: seq<(DeviceAddr, bool)>)
    ensures Apply(m, RandomWriteBits(writes)) == m.(bits := StoreBitList(m.bits, writes))
  {
  }
}

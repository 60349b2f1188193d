/**
 What travels between the gateway and the PLC: device memory, the calls of the
 `plcConnection` interface, their replies, and the ways a call can fail.

 The PLC is an abstract memory. Word devices and bit devices do not alias, a failed
 call leaves the memory unchanged, and list-shaped writes apply in list order.
 */
module Wire {
  import opened Words

  datatype DeviceAddr = DeviceAddr(device: string, addr: int)

  type WordStore = m: imap<DeviceAddr, Word> | forall a :: a in m
    ghost witness imap a: DeviceAddr :: 0
  type BitStore = m: imap<DeviceAddr, bool> | forall a :: a in m
    ghost witness imap a: DeviceAddr :: false

  datatype Memory = Memory(words: WordStore, bits: BitStore)

  /** How one step against the network ends. */
  datatype Fault =
    | Fine
    | Refused // the PLC or the library answered with an error
    | Lost    // MCProtocolConnectionError: the connection is gone

  datatype RemoteCommand =
    | RemoteRun(clear: int, force: bool)
    | RemoteStop
    | RemotePause(force: bool)
    | RemoteLatchClear
    | RemoteReset

  datatype Call =
    | ReadWords(at: DeviceAddr, count: nat)
    | WriteWords(at: DeviceAddr, words: seq<Word>)
    | ReadBits(at: DeviceAddr, count: nat)
    | WriteBits(at: DeviceAddr, bits: seq<bool>)
    | RandomRead(wordAddrs: seq<DeviceAddr>, dwordAddrs: seq<DeviceAddr>)
    | RandomWrite(wordWrites: seq<(DeviceAddr, Word)>, dwordWrites: seq<(DeviceAddr, Dword)>)
    | RandomWriteBits(bitWrites: seq<(DeviceAddr, bool)>)
    | Remote(command: RemoteCommand)

  datatype Reply =
    | Words(words: seq<Word>)
    | Bits(bits: seq<bool>)
    | Mixed(randomWords: seq<Word>, randomDwords: seq<Dword>)
    | Ack

  /** The device `i` places after `a`. */
  function Offset(a: DeviceAddr, i: int): DeviceAddr {
    a.(addr := a.addr + i)
  }

  function Combined(low: Word, high: Word): Dword {
    low + 0x1_0000 * high
  }

  /** A 32-bit value occupies two registers, low half first. */
  function DwordAt(words: WordStore, a: DeviceAddr): Dword {
    Combined(words[a], words[Offset(a, 1)])
  }

  function Answer(m: Memory, c: Call): Reply {
    match c
    case ReadWords(at, count) => Words(seq(count, i => m.words[Offset(at, i)]))
    case ReadBits(at, count) => Bits(seq(count, i => m.bits[Offset(at, i)]))
    case RandomRead(ws, ds) =>
      Mixed(seq(|ws|, i requires 0 <= i < |ws| => m.words[ws[i]]),
            seq(|ds|, i requires 0 <= i < |ds| => DwordAt(m.words, ds[i])))
    case _ => Ack
  }

  function Apply(m: Memory, c: Call): Memory {
    match c
    case WriteWords(at, words) => m.(words := StoreWords(m.words, at, words))
    case WriteBits(at, bits) => m.(bits := StoreBits(m.bits, at, bits))
    case RandomWrite(ws, ds) => m.(words := StoreDwordList(StoreWordList(m.words, ws), ds))
    case RandomWriteBits(bs) => m.(bits := StoreBitList(m.bits, bs))
    case _ => m
  }

  function StoreWords(m: WordStore, at: DeviceAddr, words: seq<Word>): WordStore
    decreases |words|
  {
    if words == [] then m else StoreWords(m[at := words[0]], Offset(at, 1), words[1..])
  }

  function StoreBits(m: BitStore, at: DeviceAddr, bits: seq<bool>): BitStore
    decreases |bits|
  {
    if bits == [] then m else StoreBits(m[at := bits[0]], Offset(at, 1), bits[1..])
  }

  function StoreWordList(m: WordStore, writes: seq<(DeviceAddr, Word)>): WordStore {
    if writes == [] then m else StoreWordList(m[writes[0].0 := writes[0].1], writes[1..])
  }

  function StoreDwordList(m: WordStore, writes: seq<(DeviceAddr, Dword)>): WordStore {
    if writes == [] then m
    else
      var (a, v) := writes[0];
      StoreDwordList(m[a := v % 0x1_0000][Offset(a, 1) := v / 0x1_0000], writes[1..])
  }

  function StoreBitList(m: BitStore, writes: seq<(DeviceAddr, bool)>): BitStore {
    if writes == [] then m else StoreBitList(m[writes[0].0 := writes[0].1], writes[1..])
  }

  // A block write changes exactly the addressed run of registers, each to its own value.
  lemma {:induction false} StoreWordsAt(m: WordStore, at: DeviceAddr, words: seq<Word>, a: DeviceAddr)
    ensures StoreWords(m, at, words)[a] ==
            if a.device == at.device && at.addr <= a.addr < at.addr + |words| then words[a.addr - at.addr] else m[a]
    decreases |words|
  {
    if words != [] {
      StoreWordsAt(m[at := words[0]], Offset(at, 1), words[1..], a);
    }
  }

  lemma {:induction false} StoreBitsAt(m: BitStore, at: DeviceAddr, bits: seq<bool>, a: DeviceAddr)
    ensures StoreBits(m, at, bits)[a] ==
            if a.device == at.device && at.addr <= a.addr < at.addr + |bits| then bits[a.addr - at.addr] else m[a]
    decreases |bits|
  {
    if bits != [] {
      StoreBitsAt(m[at := bits[0]], Offset(at, 1), bits[1..], a);
    }
  }

  // Reading a block straight after writing it returns what was written.
  lemma WordsReadBack(m: Memory, at: DeviceAddr, words: seq<Word>)
    ensures Answer(Apply(m, WriteWords(at, words)), ReadWords(at, |words|)) == Words(words)
  {
    forall i | 0 <= i < |words|
      ensures StoreWords(m.words, at, words)[Offset(at, i)] == words[i]
    {
      StoreWordsAt(m.words, at, words, Offset(at, i));
    }
  }

  lemma BitsReadBack(m: Memory, at: DeviceAddr, bits: seq<bool>)
    ensures Answer(Apply(m, WriteBits(at, bits)), ReadBits(at, |bits|)) == Bits(bits)
  {
    forall i | 0 <= i < |bits|
      ensures StoreBits(m.bits, at, bits)[Offset(at, i)] == bits[i]
    {
      StoreBitsAt(m.bits, at, bits, Offset(at, i));
    }
  }
}

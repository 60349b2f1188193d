/**
 Device addresses as device.go reads them. The input is ASCII text already trimmed and
 upper-cased; integers are those of a 64-bit build.
 */
module Addresses {
  import opened Options
  import opened Wire

  const WORD_DEVICES: set<string> := {"D", "W", "R", "ZR", "TN", "STN", "CN", "Z", "SW", "SD"}
  const BIT_DEVICES: set<string> := {
    "X", "Y", "M", "L", "B", "F", "V", "SB", "SM", "S", "DX", "DY", "TC", "TS", "STC", "STS", "CC", "CS"}
  const VALID_DEVICES: set<string> := WORD_DEVICES + BIT_DEVICES
  const HEX_DEVICES: set<string> := {"X", "Y", "B", "SB", "W", "SW", "ZR", "DX", "DY"}

  const MAX_INT: int := 0x7fff_ffff_ffff_ffff

  /** Bit is -1 without bit access; nibbles is 0 without K notation. */
  datatype ParsedAddr = ParsedAddr(at: DeviceAddr, bit: int, nibbles: nat)

  predicate IsWordDevice(dev: string) {
    dev in WORD_DEVICES
  }

  // ---- The prefix table ----

  predicate MultiChar(dev: string) {
    dev in VALID_DEVICES && |dev| > 1
  }

  ghost predicate LongestFirst(table: seq<string>) {
    forall i, j :: 0 <= i < j < |table| ==> |table[i]| >= |table[j]|
  }

  /** Any order of the multi-character devices that puts longer names first. */
  ghost predicate PrefixTable(table: seq<string>) {
    LongestFirst(table) && forall p :: p in table <==> MultiChar(p)
  }

  /** `multiCharPrefixes`: collected in whatever order the map yields its keys, then sorted by length alone. */
  method BuildTable() returns (table: seq<string>)
    ensures PrefixTable(table)
  {
    var todo := VALID_DEVICES;
    var ps: seq<string> := [];
    while todo != {}
      invariant forall p :: p in ps <==> MultiChar(p) && p !in todo
      invariant todo <= VALID_DEVICES
      decreases todo
    {
      var dev :| dev in todo;
      todo := todo - {dev};
      if |dev| > 1 {
        ps := ps + [dev];
      }
    }
    table := SortByLength(ps);
  }

  lemma LongestExists(ps: seq<string>) returns (i: nat)
    requires ps != []
    ensures i < |ps| && forall j :: 0 <= j < |ps| ==> |ps[j]| <= |ps[i]|
  {
    i := 0;
    for k := 1 to |ps|
      invariant i < |ps| && forall j :: 0 <= j < k ==> |ps[j]| <= |ps[i]|
    {
      if |ps[i]| < |ps[k]| {
        i := k;
      }
    }
  }

  /** A sort that orders by length and leaves ties in any order, as `sort.Slice` may. */
  method SortByLength(ps: seq<string>) returns (sorted: seq<string>)
    ensures LongestFirst(sorted) && forall p :: p in sorted <==> p in ps
  {
    var rest := ps;
    sorted := [];
    while rest != []
      invariant LongestFirst(sorted)
      invariant forall p :: p in ps <==> p in sorted || p in rest
      invariant forall i, j :: 0 <= i < |sorted| && 0 <= j < |rest| ==> |sorted[i]| >= |rest[j]|
      decreases |rest|
    {
      ghost var g := LongestExists(rest);
      var i :| 0 <= i < |rest| && forall j :: 0 <= j < |rest| ==> |rest[j]| <= |rest[i]|;
      var p := rest[i];
      assert forall q :: q in rest <==> q == p || q in rest[..i] + rest[i + 1..];
      rest := rest[..i] + rest[i + 1..];
      sorted := sorted + [p];
    }
  }

  predicate HasPrefix(s: string, p: string) {
    p <= s
  }

  /** The device that an address names: the longest multi-character device it starts with, or its first character. */
  function DeviceOf(s: string): string
    requires s != []
  {
    if |s| >= 3 && MultiChar(s[..3]) then s[..3]
    else if |s| >= 2 && MultiChar(s[..2]) then s[..2]
    else s[..1]
  }

  lemma DeviceLengths(dev: string)
    requires dev in VALID_DEVICES
    ensures 1 <= |dev| <= 3
  {
  }

  // No table prefix of the address is longer, and a multi-character result is a table prefix itself.
  lemma DeviceOfIsLongest(s: string, p: string)
    requires s != [] && MultiChar(p) && HasPrefix(s, p)
    ensures HasPrefix(s, DeviceOf(s)) && MultiChar(DeviceOf(s)) && |p| <= |DeviceOf(s)|
  {
    DeviceLengths(p);
    assert p == s[..|p|];
  }

  // Two prefixes of the same length are the same, so the first match in any table is the longest.
  lemma FirstMatchIsDevice(table: seq<string>, s: string, i: nat)
    requires PrefixTable(table) && s != [] && i < |table| && HasPrefix(s, table[i])
    requires forall j :: 0 <= j < i ==> !HasPrefix(s, table[j])
    ensures table[i] == DeviceOf(s)
  {
    var p := table[i];
    assert p in table;
    DeviceOfIsLongest(s, p);
    var d := DeviceOf(s);
    assert d in table;
    var k :| 0 <= k < |table| && table[k] == d;
    assert i <= k;
    assert |p| == |d|;
  }

  // ---- Numbers ----

  function DigitValue(c: char): Option<nat> {
    if '0' <= c <= '9' then Some(c as int - '0' as int)
    else if 'A' <= c <= 'Z' then Some(c as int - 'A' as int + 10)
    else if 'a' <= c <= 'z' then Some(c as int - 'a' as int + 10)
    else None
  }

  predicate IsDigit(c: char, base: nat) {
    DigitValue(c).Some? && DigitValue(c).value < base
  }

  function Magnitude(s: string, base: nat): Option<nat> {
    if s == [] then Some(0)
    else
      var n := |s| - 1;
      var high := Magnitude(s[..n], base);
      if high.Some? && IsDigit(s[n], base) then Some(high.value * base + DigitValue(s[n]).value) else None
  }

  /** `strconv.ParseInt(s, base, 64)` and `strconv.Atoi`: an optional sign, at least one digit, 64-bit range. */
  function ParseInt(s: string, base: nat): Option<int> {
    if s == [] then None
    else
      var signed := s[0] == '+' || s[0] == '-';
      var digits := if signed then s[1..] else s;
      if digits == [] || Magnitude(digits, base).None? then None
      else
        var m := Magnitude(digits, base).value;
        var v: int := if s[0] == '-' then 0 - m else m;
        if -MAX_INT - 1 <= v <= MAX_INT then Some(v) else None
  }

  /** `strings.IndexByte(s, c)`, with the length of `s` for absent. */
  function IndexOf(s: string, c: char): (i: nat)
    ensures i <= |s|
    ensures i < |s| ==> s[i] == c
    ensures forall j :: 0 <= j < i ==> s[j] != c
  {
    if s == [] || s[0] == c then 0 else 1 + IndexOf(s[1..], c)
  }

  // ---- Parsing ----

  /** What follows the device name: an address, and for a word device possibly `.` and one hex digit. */
  function ParseRest(dev: string, rest: string, nibbles: nat): Option<ParsedAddr> {
    if dev !in VALID_DEVICES then None
    else
      var numbers := ParseNumbers(IsWordDevice(dev), BaseOf(dev), rest, nibbles);
      if numbers.None? then None
      else Some(ParsedAddr(DeviceAddr(dev, numbers.value.0), numbers.value.1, nibbles))
  }

  /** The address and the bit, -1 for none, where only a word device has bits and only a bit device nibbles. */
  function ParseNumbers(word: bool, base: nat, rest: string, nibbles: nat): Option<(nat, int)> {
    if rest == [] then None
    else
      var i := IndexOf(rest, '.');
      var dotted := i < |rest|;
      if dotted && (!word || |rest| != i + 2 || ParseInt(rest[i + 1..], 16).None? || i == 0) then None
      else if nibbles > 0 && word then None
      else
        var n := ParseInt(rest[..i], base);
        if n.None? || n.value < 0 then None
        else Some((n.value, if dotted then ParseInt(rest[i + 1..], 16).value else -1))
  }

  function BaseOf(dev: string): (base: nat)
    ensures base == 10 || base == 16
  {
    if dev in HEX_DEVICES then 16 else 10
  }

  function ParseDevice(s: string, nibbles: nat): Option<ParsedAddr> {
    if |s| < 2 then None
    else
      var dev := DeviceOf(s);
      ParseRest(dev, s[|dev|..], nibbles)
  }

  /** K notation: the text without its prefix and the number of nibbles, 0 without one. */
  function StripNibbles(s: string): Option<(string, nat)> {
    if |s| > 2 && s[0] == 'K' && '0' <= s[1] <= '9' then
      if '1' <= s[1] <= '8' then Some((s[2..], s[1] as int - '0' as int)) else None
    else Some((s, 0))
  }

  /** `parseAddr`, as a function of the text alone. */
  function Parse(s: string): Option<ParsedAddr> {
    var stripped := StripNibbles(s);
    if stripped.None? then None else ParseDevice(stripped.value.0, stripped.value.1)
  }

  /** The scan of the prefix table, and the fall back to a single character. */
  method SplitDevice(table: seq<string>, s: string) returns (dev: string, rest: string)
    requires PrefixTable(table) && s != []
    ensures dev == DeviceOf(s) && rest == s[|dev|..]
  {
    dev, rest := "", "";
    var i := 0;
    while i < |table| && dev == ""
      invariant 0 <= i <= |table|
      invariant dev == "" ==> forall j :: 0 <= j < i ==> !HasPrefix(s, table[j])
      invariant dev != "" ==> dev == DeviceOf(s) && rest == s[|dev|..]
    {
      var p := table[i];
      if HasPrefix(s, p) {
        FirstMatchIsDevice(table, s, i);
        assert p in table;
        dev, rest := p, s[|p|..];
      }
      i := i + 1;
    }
    if dev == "" {
      NoMatchIsFirstChar(table, s);
      dev, rest := s[..1], s[1..];
    }
  }

  /** `parseAddr` as written, scanning whatever prefix table it was built with. */
  method ParseAddr(table: seq<string>, text: string) returns (r: Option<ParsedAddr>)
    requires PrefixTable(table)
    ensures r == Parse(text)
  {
    var s, nibbles := text, 0;
    if |s| > 2 && s[0] == 'K' && '0' <= s[1] <= '9' {
      if s[1] < '1' || '8' < s[1] {
        return None;
      }
      nibbles := s[1] as int - '0' as int;
      s := s[2..];
    }
    assert StripNibbles(text) == Some((s, nibbles));
    r := ParseDeviceText(table, s, nibbles);
  }

  method ParseDeviceText(table: seq<string>, s: string, nibbles: nat) returns (r: Option<ParsedAddr>)
    requires PrefixTable(table)
    ensures r == ParseDevice(s, nibbles)
  {
    if |s| < 2 {
      return None;
    }
    var dev, rest := SplitDevice(table, s);
    if dev !in VALID_DEVICES || rest == "" {
      return None;
    }
    var numbers := SplitNumbers(IsWordDevice(dev), BaseOf(dev), rest, nibbles);
    if numbers.None? {
      return None;
    }
    var (addr, bit) := numbers.value;
    r := Some(ParsedAddr(DeviceAddr(dev, addr), bit, nibbles));
  }

  method SplitNumbers(word: bool, base: nat, rest: string, nibbles: nat) returns (r: Option<(nat, int)>)
    requires rest != ""
    ensures r == ParseNumbers(word, base, rest, nibbles)
  {
    var bit, addrPart := -1, rest;
    var dot := IndexOf(rest, '.');
    if dot < |rest| {
      var bitStr := rest[dot + 1..];
      if !word || |bitStr| != 1 {
        return None;
      }
      var bitN := ParseInt(bitStr, 16);
      if bitN.None? {
        return None;
      }
      bit := bitN.value;
      addrPart := rest[..dot];
      if addrPart == "" {
        return None;
      }
    }
    assert addrPart == rest[..dot];
    if nibbles > 0 && word {
      return None;
    }
    var n := ParseInt(addrPart, base);
    if n.None? || n.value < 0 || n.value > MAX_INT {
      return None;
    }
    r := Some((n.value, bit));
  }

  lemma NoMatchIsFirstChar(table: seq<string>, s: string)
    requires PrefixTable(table) && s != []
    requires forall j :: 0 <= j < |table| ==> !HasPrefix(s, table[j])
    ensures DeviceOf(s) == s[..1]
  {
    var d := DeviceOf(s);
    if MultiChar(d) {
      assert d in table;
      var k :| 0 <= k < |table| && table[k] == d;
      assert HasPrefix(s, table[k]);
    }
  }

  // ---- What is accepted ----

  /** Word devices may carry a bit, bit devices a nibble count, and never both. */
  predicate WellFormed(pa: ParsedAddr) {
    && pa.at.device in VALID_DEVICES && 0 <= pa.at.addr <= MAX_INT
    && -1 <= pa.bit <= 15 && (pa.bit >= 0 ==> IsWordDevice(pa.at.device))
    && pa.nibbles <= 8 && (pa.nibbles > 0 ==> !IsWordDevice(pa.at.device))
  }

  lemma SingleDigit(s: string, base: nat)
    requires |s| == 1 && ParseInt(s, base).Some?
    ensures 0 <= ParseInt(s, base).value < base
  {
    assert Magnitude(s[..0], base) == Some(0);
  }

  // Every accepted text stands for a well-formed address.
  lemma AcceptedIsWellFormed(s: string)
    requires Parse(s).Some?
    ensures WellFormed(Parse(s).value)
  {
    var t := StripNibbles(s).value.0;
    var dev := DeviceOf(t);
    var rest := t[|dev|..];
    var i := IndexOf(rest, '.');
    if dev in VALID_DEVICES && i < |rest| {
      SingleDigit(rest[i + 1..], 16);
    }
  }

  // ---- Printing ----

  function DigitChar(d: nat): char
    requires d < 16
  {
    if d < 10 then '0' + d as char else 'A' + (d - 10) as char
  }

  /** Quotient and last digit in base 10 or 16. */
  function SplitDigit(n: nat, base: nat): (r: (nat, nat))
    requires base == 10 || base == 16
    ensures r.1 < base && n == r.0 * base + r.1
    ensures n >= base ==> r.0 < n
  {
    if base == 16 then (n / 16, n % 16) else (n / 10, n % 10)
  }

  function NumberText(n: nat, base: nat): string
    requires base == 10 || base == 16
  {
    if n < base then [DigitChar(n)]
    else NumberText(SplitDigit(n, base).0, base) + [DigitChar(SplitDigit(n, base).1)]
  }

  function Suffix(pa: ParsedAddr): string
    requires WellFormed(pa)
  {
    if pa.bit >= 0 then ['.', DigitChar(pa.bit)] else []
  }

  function Body(pa: ParsedAddr): string
    requires WellFormed(pa)
  {
    pa.at.device + (NumberText(pa.at.addr, BaseOf(pa.at.device)) + Suffix(pa))
  }

  /** The canonical text of an address. */
  function Print(pa: ParsedAddr): string
    requires WellFormed(pa)
  {
    if pa.nibbles > 0 then ['K', DigitChar(pa.nibbles)] + Body(pa) else Body(pa)
  }

  lemma DigitCharValue(d: nat)
    requires d < 16
    ensures DigitValue(DigitChar(d)) == Some(d)
    ensures DigitChar(d) != '.' && DigitChar(d) != '+' && DigitChar(d) != '-'
    ensures d < 10 ==> '0' <= DigitChar(d) <= '9'
    ensures d >= 10 ==> 'A' <= DigitChar(d) <= 'F'
  {
  }

  predicate PrintedDigit(c: char, base: nat) {
    IsDigit(c, base) && c != '.' && c != '+' && c != '-' && ('0' <= c <= '9' || (base > 10 && 'A' <= c <= 'F'))
  }

  lemma {:induction false} NumberTextDigits(n: nat, base: nat)
    requires base == 10 || base == 16
    ensures NumberText(n, base) != []
    ensures forall c :: c in NumberText(n, base) ==> PrintedDigit(c, base)
  {
    if n < base {
      DigitCharValue(n);
    } else {
      NumberTextDigits(SplitDigit(n, base).0, base);
      DigitCharValue(SplitDigit(n, base).1);
    }
  }

  lemma {:induction false} NumberTextValue(n: nat, base: nat)
    requires base == 10 || base == 16
    ensures Magnitude(NumberText(n, base), base) == Some(n)
  {
    if n < base {
      DigitCharValue(n);
      assert [DigitChar(n)][..0] == [];
      assert Magnitude([DigitChar(n)][..0], base) == Some(0);
    } else {
      var (q, d) := SplitDigit(n, base);
      NumberTextValue(q, base);
      DigitCharValue(d);
      MagnitudeSnoc(NumberText(q, base), DigitChar(d), base);
    }
  }

  lemma MagnitudeSnoc(s: string, c: char, base: nat)
    requires Magnitude(s, base).Some? && IsDigit(c, base)
    ensures Magnitude(s + [c], base) == Some(Magnitude(s, base).value * base + DigitValue(c).value)
  {
    assert (s + [c])[..|s|] == s;
  }

  lemma PrintedInt(n: nat, base: nat)
    requires (base == 10 || base == 16) && n <= MAX_INT
    ensures ParseInt(NumberText(n, base), base) == Some(n)
  {
    NumberTextValue(n, base);
    NumberTextDigits(n, base);
    assert NumberText(n, base)[0] in NumberText(n, base);
  }

  predicate NoLetter(c: char) {
    '0' <= c <= '9' || c == '+' || c == '-'
  }

  // Hex digits can look like device letters, but never so as to extend the device's name.
  lemma DeviceOfPrinted(dev: string, rest: string)
    requires dev in VALID_DEVICES && rest != []
    requires NoLetter(rest[0]) || (dev in HEX_DEVICES && 'A' <= rest[0] <= 'F')
    ensures DeviceOf(dev + rest) == dev
  {
    var s := dev + rest;
    DeviceLengths(dev);
    assert s[..|dev|] == dev;
    if |dev| < 3 && |s| >= 3 {
      assert s[|dev|] == rest[0];
      assert !MultiChar(s[..3]) by {
        NotThreeLetters(s, |dev|);
      }
    }
    if |dev| == 1 {
      assert !MultiChar(s[..2]) by {
        NotTwoLetters(dev, s);
      }
    }
  }

  lemma NotThreeLetters(s: string, n: nat)
    requires |s| >= 3 && 1 <= n < 3 && s[..n] in VALID_DEVICES
    requires NoLetter(s[n]) || 'A' <= s[n] <= 'F'
    ensures !MultiChar(s[..3])
  {
  }

  lemma NotTwoLetters(dev: string, s: string)
    requires dev in VALID_DEVICES && |dev| == 1 && |s| >= 2 && s[0] == dev[0]
    requires NoLetter(s[1]) || (dev in HEX_DEVICES && 'A' <= s[1] <= 'F')
    ensures !MultiChar(s[..2])
  {
    var t := s[..2];
    assert t[0] == s[0] && t[1] == s[1];
    assert dev == [s[0]];
  }

  lemma IndexOfDot(number: string, suffix: string)
    requires forall c :: c in number ==> c != '.'
    requires suffix == [] || suffix[0] == '.'
    ensures IndexOf(number + suffix, '.') == |number|
  {
    var s := number + suffix;
    var i := IndexOf(s, '.');
    forall j | 0 <= j < |number|
      ensures s[j] != '.'
    {
      assert s[j] == number[j] && number[j] in number;
    }
    if suffix != [] {
      assert s[|number|] == '.';
    }
  }

  lemma StripPrinted(body: string, nibbles: nat)
    requires nibbles <= 8 && body != [] && body[0] != 'K'
    ensures StripNibbles(if nibbles > 0 then ['K', DigitChar(nibbles)] + body else body) == Some((body, nibbles))
  {
    if nibbles > 0 {
      var s := ['K', DigitChar(nibbles)] + body;
      assert s[1] == DigitChar(nibbles) && s[2..] == body;
      DigitCharValue(nibbles);
    }
  }

  // Printing a well-formed address and parsing it gives the address back.
  lemma PrintThenParse(pa: ParsedAddr)
    requires WellFormed(pa)
    ensures Parse(Print(pa)) == Some(pa)
  {
    BodyRoundTrip(pa);
    StripPrinted(Body(pa), pa.nibbles);
  }

  lemma BodyRoundTrip(pa: ParsedAddr)
    requires WellFormed(pa)
    ensures |Body(pa)| >= 2 && Body(pa)[0] != 'K' && ParseDevice(Body(pa), pa.nibbles) == Some(pa)
  {
    NoDeviceStartsWithK(pa.at.device);
    var dev, number := pa.at.device, NumberText(pa.at.addr, BaseOf(pa.at.device));
    var rest := number + Suffix(pa);
    NumberTextDigits(pa.at.addr, BaseOf(dev));
    assert rest[0] == number[0] && number[0] in number;
    DeviceOfPrinted(dev, rest);
    DeviceLengths(dev);
    assert (dev + rest)[|dev|..] == rest;
    RestRoundTrip(pa);
  }

  lemma NoDeviceStartsWithK(dev: string)
    requires dev in VALID_DEVICES
    ensures dev != [] && dev[0] != 'K'
  {
  }

  lemma RestRoundTrip(pa: ParsedAddr)
    requires WellFormed(pa)
    ensures ParseRest(pa.at.device, NumberText(pa.at.addr, BaseOf(pa.at.device)) + Suffix(pa), pa.nibbles) == Some(pa)
  {
    NumbersRoundTrip(IsWordDevice(pa.at.device), BaseOf(pa.at.device), pa.at.addr, pa.bit, Suffix(pa), pa.nibbles);
  }

  lemma NumbersRoundTrip(word: bool, base: nat, addr: nat, bit: int, suffix: string, nibbles: nat)
    requires (base == 10 || base == 16) && addr <= MAX_INT && -1 <= bit < 16
    requires (bit >= 0 ==> word) && (nibbles > 0 ==> !word)
    requires suffix == if bit >= 0 then ['.', DigitChar(bit)] else []
    ensures ParseNumbers(word, base, NumberText(addr, base) + suffix, nibbles) == Some((addr, bit))
  {
    var number := NumberText(addr, base);
    var rest := number + suffix;
    NumberTextDigits(addr, base);
    PrintedInt(addr, base);
    IndexOfDot(number, suffix);
    assert rest[..|number|] == number;
    if bit >= 0 {
      assert rest[|number| + 1..] == [DigitChar(bit)];
      BitRoundTrip(bit);
    }
  }

  lemma BitRoundTrip(bit: nat)
    requires bit < 16
    ensures ParseInt([DigitChar(bit)], 16) == Some(bit)
  {
    PrintedInt(bit, 16);
    assert NumberText(bit, 16) == [DigitChar(bit)];
  }

  // ---- Every accepted text ----

  /** Upper-cased text. */
  predicate IsUpper(s: string) {
    forall i :: 0 <= i < |s| ==> !('a' <= s[i] <= 'z')
  }

  function NibblesText(nibbles: nat): string
    requires nibbles <= 8
  {
    if nibbles > 0 then ['K', DigitChar(nibbles)] else []
  }

  function BitText(bit: int): string
    requires bit <= 15
  {
    if bit >= 0 then ['.', DigitChar(bit)] else []
  }

  /** A text of the address: its nibbles, its device, a number with or without a sign, its bit. */
  ghost predicate Spells(s: string, pa: ParsedAddr, sign: string, digits: string) {
    && WellFormed(pa)
    && sign in {"", "+", "-"} && (sign == "-" ==> pa.at.addr == 0)
    && digits != "" && Magnitude(digits, BaseOf(pa.at.device)) == Some(pa.at.addr)
    && s == NibblesText(pa.nibbles) + (pa.at.device + (sign + digits + BitText(pa.bit)))
  }

  lemma {:induction false} MagnitudeDigits(s: string, base: nat, i: nat)
    requires Magnitude(s, base).Some? && i < |s|
    ensures IsDigit(s[i], base)
    decreases |s|
  {
    if i < |s| - 1 {
      MagnitudeDigits(s[..|s| - 1], base, i);
    }
  }

  lemma SignedValue(sign: string, digits: string, base: nat, n: nat)
    requires sign in {"", "+", "-"} && digits != "" && Magnitude(digits, base) == Some(n)
    requires (sign == "-" ==> n == 0) && n <= MAX_INT
    ensures ParseInt(sign + digits, base) == Some(n)
  {
    var s := sign + digits;
    MagnitudeDigits(digits, base, 0);
    if sign == "" {
      assert s == digits;
    } else {
      assert s[0] == sign[0] && s[1..] == digits;
    }
  }

  lemma NumbersSpelled(word: bool, base: nat, addr: nat, bit: int, sign: string, digits: string, nibbles: nat)
    requires (base == 10 || base == 16) && addr <= MAX_INT && -1 <= bit < 16
    requires (bit >= 0 ==> word) && (nibbles > 0 ==> !word)
    requires sign in {"", "+", "-"} && (sign == "-" ==> addr == 0)
    requires digits != "" && Magnitude(digits, base) == Some(addr)
    ensures ParseNumbers(word, base, sign + digits + BitText(bit), nibbles) == Some((addr, bit))
  {
    var number, suffix := sign + digits, BitText(bit);
    var rest := number + suffix;
    forall c | c in number
      ensures c != '.'
    {
      if c in digits {
        var i :| 0 <= i < |digits| && digits[i] == c;
        MagnitudeDigits(digits, base, i);
      }
    }
    SignedValue(sign, digits, base, addr);
    IndexOfDot(number, suffix);
    assert rest[..|number|] == number;
    if bit >= 0 {
      assert rest[|number| + 1..] == [DigitChar(bit)];
      BitRoundTrip(bit);
    }
  }

  // Whatever follows the device, the text is split after its own device.
  lemma ParseSplit(dev: string, rest: string, nibbles: nat)
    requires dev in VALID_DEVICES && rest != [] && nibbles <= 8
    requires NoLetter(rest[0]) || (dev in HEX_DEVICES && 'A' <= rest[0] <= 'F')
    ensures Parse(NibblesText(nibbles) + (dev + rest)) == ParseRest(dev, rest, nibbles)
  {
    NoDeviceStartsWithK(dev);
    assert (dev + rest)[0] == dev[0];
    StripPrinted(dev + rest, nibbles);
    var body := dev + rest;
    assert NibblesText(nibbles) + body == if nibbles > 0 then ['K', DigitChar(nibbles)] + body else body;
    DeviceOfPrinted(dev, rest);
    assert (dev + rest)[|dev|..] == rest;
  }

  lemma SpelledIsAccepted(s: string, pa: ParsedAddr, sign: string, digits: string)
    requires IsUpper(s) && Spells(s, pa, sign, digits)
    ensures Parse(s) == Some(pa)
  {
    var dev, rest := pa.at.device, sign + digits + BitText(pa.bit);
    var base := BaseOf(dev);
    MagnitudeDigits(digits, base, 0);
    assert rest[0] == if sign == "" then digits[0] else sign[0];
    assert rest[0] == s[|s| - |rest|];
    ParseSplit(dev, rest, pa.nibbles);
    NumbersSpelled(IsWordDevice(dev), base, pa.at.addr, pa.bit, sign, digits, pa.nibbles);
  }

  lemma DigitOf(c: char, base: nat)
    requires base == 10 || base == 16
    requires ParseInt([c], base).Some? && !('a' <= c <= 'z')
    ensures 0 <= ParseInt([c], base).value < 16 && c == DigitChar(ParseInt([c], base).value)
  {
    assert Magnitude([c][..0], base) == Some(0);
  }

  // Splits a number into its sign and its digits.
  lemma NumberIsSpelled(number: string, base: nat) returns (sign: string, digits: string)
    requires ParseInt(number, base).Some? && ParseInt(number, base).value >= 0
    ensures number == sign + digits && sign in {"", "+", "-"} && digits != ""
    ensures Magnitude(digits, base) == Some(ParseInt(number, base).value)
    ensures sign == "-" ==> ParseInt(number, base).value == 0
  {
    if number[0] == '+' || number[0] == '-' {
      sign, digits := [number[0]], number[1..];
      assert sign == "+" || sign == "-";
    } else {
      sign, digits := "", number;
    }
  }

  lemma NumbersAreSpelled(word: bool, base: nat, rest: string, nibbles: nat) returns (sign: string, digits: string)
    requires (base == 10 || base == 16) && IsUpper(rest) && ParseNumbers(word, base, rest, nibbles).Some?
    ensures var (addr, bit) := ParseNumbers(word, base, rest, nibbles).value;
            && sign in {"", "+", "-"} && (sign == "-" ==> addr == 0)
            && digits != "" && Magnitude(digits, base) == Some(addr)
            && bit <= 15 && rest == sign + digits + BitText(bit)
  {
    var i := IndexOf(rest, '.');
    sign, digits := NumberIsSpelled(rest[..i], base);
    if i < |rest| {
      assert rest[i + 1..] == [rest[i + 1]];
      DigitOf(rest[i + 1], 16);
      assert rest == rest[..i] + ['.', rest[i + 1]];
    } else {
      assert rest == rest[..i] + [];
    }
  }

  /** The parts that the parser takes an accepted text apart into. */
  lemma ParsedParts(s: string) returns (dev: string, rest: string, nibbles: nat)
    requires Parse(s).Some?
    ensures nibbles <= 8 && s == NibblesText(nibbles) + (dev + rest)
    ensures var numbers := ParseNumbers(IsWordDevice(dev), BaseOf(dev), rest, nibbles);
            && numbers.Some?
            && Parse(s).value == ParsedAddr(DeviceAddr(dev, numbers.value.0), numbers.value.1, nibbles)
  {
    StrippedText(s);
    var t := StripNibbles(s).value.0;
    nibbles := StripNibbles(s).value.1;
    dev := DeviceOf(t);
    rest := t[|dev|..];
    assert t == dev + rest;
  }

  lemma AcceptedIsSpelled(s: string) returns (sign: string, digits: string)
    requires IsUpper(s) && Parse(s).Some?
    ensures Spells(s, Parse(s).value, sign, digits)
  {
    AcceptedIsWellFormed(s);
    var dev, rest, nibbles := ParsedParts(s);
    assert s == NibblesText(nibbles) + dev + rest;
    UpperTail(s, NibblesText(nibbles) + dev, rest);
    sign, digits := NumbersAreSpelled(IsWordDevice(dev), BaseOf(dev), rest, nibbles);
  }

  lemma UpperTail(s: string, head: string, tail: string)
    requires IsUpper(s) && s == head + tail
    ensures IsUpper(tail)
  {
    assert forall i :: 0 <= i < |tail| ==> tail[i] == s[|head| + i];
  }

  lemma StrippedText(s: string)
    requires StripNibbles(s).Some?
    ensures StripNibbles(s).value.1 <= 8 && s == NibblesText(StripNibbles(s).value.1) + StripNibbles(s).value.0
  {
    if StripNibbles(s).value.1 > 0 {
      DigitCharValue(StripNibbles(s).value.1);
      assert s == s[..2] + s[2..];
    }
  }

  // The parser accepts exactly the texts of well-formed addresses, each as the address it spells.
  lemma AcceptsExactly(s: string, pa: ParsedAddr)
    requires IsUpper(s)
    ensures Parse(s) == Some(pa) <==> exists sign, digits :: Spells(s, pa, sign, digits)
  {
    if Parse(s) == Some(pa) {
      var sign, digits := AcceptedIsSpelled(s);
      assert Spells(s, pa, sign, digits);
    }
    if sign, digits :| Spells(s, pa, sign, digits) {
      SpelledIsAccepted(s, pa, sign, digits);
    }
  }

  // ---- The documented devices ----

  lemma Ten(dev: string, bit: int, nibbles: nat)
    requires dev in VALID_DEVICES && -1 <= bit <= 15 && nibbles <= 8
    ensures Parse(NibblesText(nibbles) + (dev + ("10" + BitText(bit)))) ==
            if (bit >= 0 && !IsWordDevice(dev)) || (nibbles > 0 && IsWordDevice(dev)) then None
            else Some(ParsedAddr(DeviceAddr(dev, BaseOf(dev)), bit, nibbles))
  {
    var base, rest := BaseOf(dev), "10" + BitText(bit);
    ParseSplit(dev, rest, nibbles);
    TenIs(base);
    if (bit >= 0 && !IsWordDevice(dev)) || (nibbles > 0 && IsWordDevice(dev)) {
      IndexOfDot("10", BitText(bit));
    } else {
      assert "" + "10" + BitText(bit) == rest;
      NumbersSpelled(IsWordDevice(dev), base, base, bit, "", "10", nibbles);
    }
  }

  lemma TenIs(base: nat)
    requires base == 10 || base == 16
    ensures Magnitude("10", base) == Some(base)
  {
    assert "10"[..1] == "1" && "1"[..0] == "";
    assert Magnitude("", base) == Some(0);
    assert Magnitude("1", base) == Some(1);
  }

  lemma HexLists(dev: string)
    ensures dev in VALID_DEVICES && BaseOf(dev) == 16 <==> dev in ["X", "Y", "B", "SB", "W", "SW", "ZR", "DX", "DY"]
    ensures dev in VALID_DEVICES && BaseOf(dev) == 10 <==>
            dev in ["D", "R", "TN", "STN", "CN", "Z", "SD",
                    "M", "L", "F", "V", "SM", "S", "TC", "TS", "STC", "STS", "CC", "CS"]
  {
  }

  lemma WordLists(dev: string)
    ensures dev in VALID_DEVICES && IsWordDevice(dev) <==>
            dev in ["D", "W", "R", "ZR", "TN", "STN", "CN", "Z", "SW", "SD"]
    ensures dev in VALID_DEVICES && !IsWordDevice(dev) <==>
            dev in ["X", "Y", "M", "L", "B", "F", "V", "SB", "SM", "S", "DX", "DY",
                    "TC", "TS", "STC", "STS", "CC", "CS"]
  {
  }

  lemma DocumentedNumbers(dev: string)
    ensures Parse(dev + "10") == Some(ParsedAddr(DeviceAddr(dev, 16), -1, 0)) <==>
            dev in VALID_DEVICES && BaseOf(dev) == 16
    ensures Parse(dev + "10") == Some(ParsedAddr(DeviceAddr(dev, 10), -1, 0)) <==>
            dev in VALID_DEVICES && BaseOf(dev) == 10
  {
    if dev in VALID_DEVICES {
      Ten(dev, -1, 0);
      assert NibblesText(0) + (dev + ("10" + BitText(-1))) == dev + "10";
    } else {
      NotAnAddress(dev + "10", dev);
    }
  }

  lemma DocumentedBits(dev: string)
    ensures Parse(dev + "10.F") == Some(ParsedAddr(DeviceAddr(dev, BaseOf(dev)), 15, 0)) <==>
            dev in VALID_DEVICES && IsWordDevice(dev)
  {
    if dev in VALID_DEVICES {
      assert dev + "10.F" == NibblesText(0) + (dev + ("10" + BitText(15)));
      Ten(dev, 15, 0);
    } else {
      NotAnAddress(dev + "10.F", dev);
    }
  }

  lemma DocumentedNibbles(dev: string)
    ensures Parse("K8" + dev + "10") == Some(ParsedAddr(DeviceAddr(dev, BaseOf(dev)), -1, 8)) <==>
            dev in VALID_DEVICES && !IsWordDevice(dev)
  {
    if dev in VALID_DEVICES {
      Ten(dev, -1, 8);
      assert NibblesText(8) + (dev + ("10" + BitText(-1))) == "K8" + dev + "10";
    } else {
      NotAnAddress("K8" + dev + "10", dev);
    }
  }

  // The devices of the documentation, and no others: those with hexadecimal and with decimal numbers,
  // those with bits and those with nibbles.
  lemma DocumentedDevices(dev: string)
    ensures Parse(dev + "10") == Some(ParsedAddr(DeviceAddr(dev, 16), -1, 0)) <==>
            dev in ["X", "Y", "B", "SB", "W", "SW", "ZR", "DX", "DY"]
    ensures Parse(dev + "10") == Some(ParsedAddr(DeviceAddr(dev, 10), -1, 0)) <==>
            dev in ["D", "R", "TN", "STN", "CN", "Z", "SD",
                    "M", "L", "F", "V", "SM", "S", "TC", "TS", "STC", "STS", "CC", "CS"]
    ensures Parse(dev + "10.F") == Some(ParsedAddr(DeviceAddr(dev, BaseOf(dev)), 15, 0)) <==>
            dev in ["D", "W", "R", "ZR", "TN", "STN", "CN", "Z", "SW", "SD"]
    ensures Parse("K8" + dev + "10") == Some(ParsedAddr(DeviceAddr(dev, BaseOf(dev)), -1, 8)) <==>
            dev in ["X", "Y", "M", "L", "B", "F", "V", "SB", "SM", "S", "DX", "DY",
                    "TC", "TS", "STC", "STS", "CC", "CS"]
  {
    DocumentedNumbers(dev);
    DocumentedBits(dev);
    DocumentedNibbles(dev);
    HexLists(dev);
    WordLists(dev);
  }

  lemma NotAnAddress(s: string, dev: string)
    requires dev !in VALID_DEVICES
    ensures Parse(s).Some? ==> Parse(s).value.at.device != dev
  {
    if Parse(s).Some? {
      AcceptedIsWellFormed(s);
    }
  }
}

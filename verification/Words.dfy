/**
 Unsigned machine words as the Go code uses them: single-bit updates, packing of
 booleans into an integer, and two's-complement reinterpretation.

 A shift, a mask and an or are written as the arithmetic they perform on an
 unsigned value: `x >> k` is `x / Pow2(k)`, `x & 1` is `x % 2`, and setting or
 clearing bit `k` adds or subtracts `Pow2(k)` when the bit changes.
 */
module Words {

  type Word = w: int | 0 <= w < 0x1_0000
  type Dword = w: int | 0 <= w < 0x1_0000_0000

  function Pow2(n: nat): (p: nat)
    ensures 1 <= p
  {
    if n == 0 then 1 else 2 * Pow2(n - 1)
  }

  /** `(x >> k) & 1 == 1` */
  predicate Bit(x: nat, k: nat) {
    x / Pow2(k) % 2 == 1
  }

  /** `x |= 1 << k` when `v`, `x &^= 1 << k` otherwise. */
  function PutBit(x: nat, k: nat, v: bool): nat {
    if v == Bit(x, k) then x
    else if v then x + Pow2(k)
    else
      BitMeansLarge(x, k);
      x - Pow2(k)
  }

  lemma BitMeansLarge(x: nat, k: nat)
    requires Bit(x, k)
    ensures Pow2(k) <= x
  {
    SmallQuotient(x, Pow2(k));
  }

  lemma PowersOfTwo()
    ensures Pow2(4) == 16 && Pow2(8) == 256 && Pow2(12) == 4096 && Pow2(16) == 0x1_0000
    ensures Pow2(15) == 0x8000 && Pow2(31) == 0x8000_0000 && Pow2(32) == 0x1_0000_0000
  {
    assert Pow2(4) == 16;
    assert Pow2(8) == 256;
    assert Pow2(12) == 4096;
    assert Pow2(15) == 0x8000;
    assert Pow2(20) == 0x10_0000;
    assert Pow2(24) == 0x100_0000;
    assert Pow2(28) == 0x1000_0000;
    assert Pow2(31) == 0x8000_0000;
  }

  lemma {:induction false} Pow2Grows(a: nat, b: nat)
    requires a <= b
    ensures Pow2(a) <= Pow2(b)
    decreases b
  {
    if a < b {
      Pow2Grows(a, b - 1);
    }
  }

  lemma SplitHalf(x: nat, a: nat)
    requires 1 <= a
    ensures x / (2 * a) == x / 2 / a
    ensures x % (2 * a) == 2 * (x / 2 % a) + x % 2
  {
    var q, r := x / 2 / a, x / 2 % a;
    assert x / 2 == a * q + r;
    assert x == 2 * (a * q) + (2 * r + x % 2);
    assert q * (2 * a) == 2 * (a * q);
    QuotientIs(x, 2 * a, q, 2 * r + x % 2);
  }

  lemma {:induction false} MulAtLeast(a: nat, d: nat)
    requires 1 <= a
    ensures d <= a * d
  {
    if a > 1 {
      MulAtLeast(a - 1, d);
      assert a * d == (a - 1) * d + d;
    }
  }

  lemma Distribute(a: int, b: int, d: int)
    ensures a * d - b * d == (a - b) * d
  {
  }

  // Division is the only way to split x into multiples of d and a remainder.
  lemma QuotientIs(x: int, d: nat, q: int, r: nat)
    requires r < d && x == q * d + r
    ensures x / d == q && x % d == r
  {
    var q', r' := x / d, x % d;
    assert x == d * q' + r';
    assert d * q' == q' * d;
    Distribute(q, q', d);
    Distribute(q', q, d);
    if q' < q {
      MulAtLeast(q - q', d);
    } else if q < q' {
      MulAtLeast(q' - q, d);
    }
  }

  lemma SmallQuotient(x: nat, d: nat)
    requires 1 <= d
    ensures x < d ==> x / d == 0 && x % d == x
  {
    if x < d {
      QuotientIs(x, d, 0, x);
    }
  }

  // Bit k+1 of x is bit k of its half.
  lemma BitHalf(x: nat, k: nat)
    ensures Bit(x, k + 1) == Bit(x / 2, k)
    ensures Bit(x, 0) == (x % 2 == 1)
  {
    SplitHalf(x, Pow2(k));
  }

  lemma PutBitHalf(x: nat, k: nat, v: bool)
    ensures PutBit(x, k + 1, v) / 2 == PutBit(x / 2, k, v)
    ensures PutBit(x, k + 1, v) % 2 == x % 2
  {
    BitHalf(x, k);
    if v != Bit(x, k + 1) && !v {
      BitMeansLarge(x / 2, k);
    }
  }

  // A single-bit update is exactly that: bit k becomes v, every other bit stays.
  lemma {:induction false} PutBitBits(x: nat, k: nat, v: bool, j: nat)
    ensures Bit(PutBit(x, k, v), j) == if j == k then v else Bit(x, j)
    decreases k
  {
    var y := PutBit(x, k, v);
    if k == 0 {
      assert y / 2 == x / 2;
      if j > 0 {
        BitHalf(x, j - 1);
        BitHalf(y, j - 1);
      }
    } else {
      PutBitHalf(x, k - 1, v);
      if j == 0 {
        BitHalf(x, 0);
        BitHalf(y, 0);
      } else {
        BitHalf(x, j - 1);
        BitHalf(y, j - 1);
        PutBitBits(x / 2, k - 1, v, j - 1);
      }
    }
  }

  lemma {:induction false} PutBitBound(x: nat, k: nat, v: bool, n: nat)
    requires x < Pow2(n) && k < n
    ensures PutBit(x, k, v) < Pow2(n)
    decreases n
  {
    if k > 0 {
      PutBitHalf(x, k - 1, v);
      PutBitBound(x / 2, k - 1, v, n - 1);
    } else {
      LowBitBound(x, v);
      assert x / 2 < Pow2(n - 1);
    }
  }

  lemma LowBitBound(x: nat, v: bool)
    ensures PutBit(x, 0, v) / 2 == x / 2
  {
    assert Pow2(0) == 1;
  }

  lemma {:induction false} HighBitsClear(x: nat, n: nat, k: nat)
    requires x < Pow2(n) && n <= k
    ensures !Bit(x, k)
  {
    Pow2Grows(n, k);
    SmallQuotient(x, Pow2(k));
  }

  // Two values below 2^n with the same n bits are equal.
  lemma {:induction false} BitsDetermine(x: nat, y: nat, n: nat)
    requires x < Pow2(n) && y < Pow2(n)
    requires forall j: nat :: j < n ==> Bit(x, j) == Bit(y, j)
    ensures x == y
  {
    if n > 0 {
      forall j: nat | j < n - 1
        ensures Bit(x / 2, j) == Bit(y / 2, j)
      {
        BitHalf(x, j);
        BitHalf(y, j);
        assert Bit(x, j + 1) == Bit(y, j + 1);
      }
      BitsDetermine(x / 2, y / 2, n - 1);
      BitHalf(x, 0);
      BitHalf(y, 0);
      assert Bit(x, 0) == Bit(y, 0);
    }
  }

  // ---- Packing booleans, least significant first ----

  function Pack(bits: seq<bool>): nat {
    if bits == [] then 0 else (if bits[0] then 1 else 0) + 2 * Pack(bits[1..])
  }

  function Unpack(x: nat, width: nat): (bits: seq<bool>)
    ensures |bits| == width
  {
    seq(width, i requires 0 <= i < width => Bit(x, i))
  }

  lemma {:induction false} PackBits(bits: seq<bool>)
    ensures Pack(bits) < Pow2(|bits|)
    ensures forall i: nat :: i < |bits| ==> Bit(Pack(bits), i) == bits[i]
  {
    if bits != [] {
      var p, rest := Pack(bits), bits[1..];
      PackBits(rest);
      assert p / 2 == Pack(rest);
      forall i: nat | i < |bits|
        ensures Bit(p, i) == bits[i]
      {
        if i == 0 {
          BitHalf(p, 0);
        } else {
          BitHalf(p, i - 1);
          assert bits[i] == rest[i - 1];
        }
      }
    }
  }

  // Unpacking a packed sequence gives it back.
  lemma UnpackOfPack(bits: seq<bool>)
    ensures Unpack(Pack(bits), |bits|) == bits
  {
    PackBits(bits);
  }

  // Packing the low bits of x gives x reduced to that width.
  lemma {:induction false} PackOfUnpack(x: nat, width: nat)
    ensures Pack(Unpack(x, width)) == x % Pow2(width)
  {
    if width == 0 {
      assert Unpack(x, 0) == [];
    } else {
      var rest := Unpack(x / 2, width - 1);
      forall i: nat | i < width - 1
        ensures Unpack(x, width)[1..][i] == rest[i]
      {
        BitHalf(x, i);
      }
      assert Unpack(x, width)[1..] == rest;
      PackOfUnpack(x / 2, width - 1);
      BitHalf(x, 0);
      var m := Pow2(width - 1);
      SplitHalf(x, m);
    }
  }

  // Or-ing a set bit above everything packed so far extends the packing by one.
  lemma {:induction false} PackSnoc(bits: seq<bool>, v: bool)
    ensures Pack(bits + [v]) == PutBit(Pack(bits), |bits|, v)
  {
    PackBits(bits);
    PackBits(bits + [v]);
    HighBitsClear(Pack(bits), |bits|, |bits|);
    var x, y, n := Pack(bits + [v]), PutBit(Pack(bits), |bits|, v), |bits| + 1;
    Pow2Grows(|bits|, n);
    PutBitBound(Pack(bits), |bits|, v, n);
    forall j: nat | j < n
      ensures Bit(x, j) == Bit(y, j)
    {
      PutBitBits(Pack(bits), |bits|, v, j);
      assert Bit(x, j) == (bits + [v])[j];
    }
    BitsDetermine(x, y, n);
  }

  // ---- Two's complement ----

  /** The unsigned value of width bits that a Go conversion such as `uint32(v)` keeps. */
  function Wrap(v: int, width: nat): (u: nat) {
    v % Pow2(width)
  }

  /** `signExtend`: reads the low `width` bits of `u` as a signed number. */
  function SignExtend(u: nat, width: nat): int
    requires 1 <= width
  {
    if Bit(u, width - 1) then u - Pow2(width) else u
  }

  /** `fitsInBits` */
  predicate FitsInBits(v: int, width: nat, signed: bool)
    requires 1 <= width
  {
    if signed then 0 - Pow2(width - 1) <= v <= Pow2(width - 1) - 1
    else 0 <= v < Pow2(width)
  }

  /** The number a reader is shown for an unsigned value, signed or not. */
  function Shown(u: nat, width: nat, signed: bool): int
    requires 1 <= width
  {
    if signed then SignExtend(u, width) else u
  }

  lemma TopBit(u: nat, width: nat)
    requires 1 <= width && u < Pow2(width)
    ensures Bit(u, width - 1) <==> Pow2(width - 1) <= u
  {
    var m := Pow2(width - 1);
    if u < m {
      SmallQuotient(u, m);
    } else {
      QuotientIs(u, m, 1, u - m);
    }
  }

  // A value fits exactly when narrowing it to the width and showing it again loses nothing.
  lemma FitsIffShownBack(v: int, width: nat, signed: bool)
    requires 1 <= width
    ensures FitsInBits(v, width, signed) <==> Shown(Wrap(v, width), width, signed) == v
  {
    var m, h := Pow2(width), Pow2(width - 1);
    assert m == 2 * h;
    var u := Wrap(v, width);
    TopBit(u, width);
    if 0 <= v < m {
      QuotientIs(v, m, 0, v);
      assert u == v;
    } else if 0 - m <= v < 0 {
      QuotientIs(v, m, -1, v + m);
    }
  }

  // What is shown for any unsigned value fits, and narrowing it gives the value back.
  lemma ShownFits(u: nat, width: nat, signed: bool)
    requires 1 <= width && u < Pow2(width)
    ensures FitsInBits(Shown(u, width, signed), width, signed)
    ensures Wrap(Shown(u, width, signed), width) == u
  {
    TopBit(u, width);
    var m := Pow2(width);
    assert m == 2 * Pow2(width - 1);
    if signed && Bit(u, width - 1) {
      QuotientIs(u - m, m, -1, u);
    } else {
      QuotientIs(u, m, 0, u);
    }
  }
}

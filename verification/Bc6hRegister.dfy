/** The 128-bit register a BC6H block is read from: two 64-bit words shifted right together. */
module Bc6hRegister {
  import opened Bits

  /** v & ((1 << n) - 1). */
  function LowBits(v: nat, n: nat): (r: nat)
    ensures r < Pow2(n)
    decreases v, n
  {
    if n == 0 then 0 else v % 2 + 2 * LowBits(v / 2, n - 1)
  }

  lemma {:induction false} BitAtLow(v: nat, n: nat, i: nat)
    ensures BitAt(LowBits(v, n), i) == (i < n && BitAt(v, i))
    decreases n
  {
    if n == 0 {
      BitAtZero(i);
    } else if i > 0 {
      BitAtLow(v / 2, n - 1, i - 1);
    }
  }

  lemma {:induction false} LowBitsValue(v: nat, n: nat)
    ensures LowBits(v, n) == FromBits(ToBits(v, n))
    decreases n
  {
    if n > 0 {
      LowBitsValue(v / 2, n - 1);
      assert ToBits(v, n)[1..] == ToBits(v / 2, n - 1);
    }
  }

  lemma {:induction false} BitOrFits(a: nat, b: nat, n: nat)
    requires a < Pow2(n) && b < Pow2(n)
    ensures BitOr(a, b) < Pow2(n)
    decreases n
  {
    if n > 0 && a > 0 && b > 0 {
      BitOrFits(a / 2, b / 2, n - 1);
    }
  }

  function Zeros(n: nat): (z: seq<bool>)
    ensures |z| == n
  {
    seq(n, _ => false)
  }

  /** The register as a string of bits, lowest first. */
  function Word128(low: nat, high: nat): (b: seq<bool>)
    ensures |b| == 128
  {
    ToBits(low, 64) + ToBits(high, 64)
  }

  /** One bit of the low word after the high word's lowest bits moved down. */
  lemma LowWordBit(low: nat, high: nat, n: nat, i: nat)
    requires 0 < n < 64 && low < Pow2(64) && i < 64
    ensures BitAt(BitOr(Shr(low, n), Shl(LowBits(high, n), 64 - n)), i) == if i + n < 64 then BitAt(low, i + n)
              else BitAt(high, i + n - 64)
  {
    BitAtOr(Shr(low, n), Shl(LowBits(high, n), 64 - n), i);
    BitAtShr(low, n, i);
    BitAtShl(LowBits(high, n), 64 - n, i);
    if i + n < 64 {
    } else {
      BitAtHigh(low, 64, n + i);
      BitAtLow(high, n, i - (64 - n));
    }
  }

  /** Shifting the pair of words drops the lowest n bits and brings in zeros. */
  lemma ShiftPair(low: nat, high: nat, n: nat)
    requires 0 < n < 64 && low < Pow2(64) && high < Pow2(64)
    ensures var l, h := BitOr(Shr(low, n), Shl(LowBits(high, n), 64 - n)), Shr(high, n);
            l < Pow2(64) && h < Pow2(64) && Word128(l, h) == Word128(low, high)[n..] + Zeros(n)
  {
    var l, h := BitOr(Shr(low, n), Shl(LowBits(high, n), 64 - n)), Shr(high, n);
    PairFits(low, high, n);
    var x, y := Word128(l, h), Word128(low, high)[n..] + Zeros(n);
    forall i | 0 <= i < 128
      ensures x[i] == y[i]
    {
      if i < 64 {
        LowWordBit(low, high, n, i);
      } else {
        BitAtShr(high, n, i - 64);
        if i + n >= 128 {
          BitAtHigh(high, 64, n + (i - 64));
        }
      }
    }
  }

  lemma PairFits(low: nat, high: nat, n: nat)
    requires 0 < n < 64 && low < Pow2(64) && high < Pow2(64)
    ensures BitOr(Shr(low, n), Shl(LowBits(high, n), 64 - n)) < Pow2(64) && Shr(high, n) < Pow2(64)
  {
    Pow2Mono(64, 64 + n);
    ShrFits(low, 64, n);
    ShrFits(high, 64, n);
    JoinFits(0, 64 - n, LowBits(high, n), n);
    BitOrFits(Shr(low, n), Shl(LowBits(high, n), 64 - n), 64);
  }

  /** A field: its width, the bits read, in stream order or reversed. */
  function Width(msb: nat, lsb: nat): nat
  {
    if msb < lsb then lsb - msb + 1 else msb - lsb + 1
  }

  function Lowest(msb: nat, lsb: nat): nat
  {
    if msb < lsb then msb else lsb
  }

  function FieldValue(bits: seq<bool>, msb: nat, lsb: nat): nat
  {
    if msb < lsb then FromMsb(bits) else FromBits(bits)
  }

  class Data {
    var low: nat
    var high: nat

    ghost predicate Valid()
      reads this
    {
      low < Pow2(64) && high < Pow2(64)
    }

    ghost function Contents(): (b: seq<bool>)
      reads this
      ensures |b| == 128
    {
      Word128(low, high)
    }

    constructor (low: nat, high: nat)
      requires low < Pow2(64) && high < Pow2(64)
      ensures Valid() && this.low == low && this.high == high
    {
      this.low, this.high := low, high;
    }

    /** Takes the lowest bits out, reversed when msb < lsb, and puts them at their place. */
    method ConsumeBits(msb: nat, lsb: nat) returns (r: nat)
      requires Valid() && Width(msb, lsb) < 32
      modifies this
      ensures Valid() && Contents() == old(Contents())[Width(msb, lsb)..] + Zeros(Width(msb, lsb))
      ensures r == Shl(FieldValue(old(Contents())[..Width(msb, lsb)], msb, lsb), Lowest(msb, lsb))
    {
      var reversed, hi, lo := msb < lsb, msb, lsb;
      if reversed {
        hi, lo := lsb, msb;
      }
      var n := hi - lo + 1;
      var bits := LowBits(low, n);
      ShiftPair(low, high, n);
      LowBitsValue(low, n);
      assert old(Contents())[..n] == ToBits(low, n);
      low := BitOr(Shr(low, n), Shl(LowBits(high, n), 64 - n));
      high := Shr(high, n);
      if reversed {
        bits := Reversed(bits, n, old(Contents())[..n]);
      }
      r := Shl(bits, lo);
    }
  }

  /** Turns a field around, bit by bit. */
  method Reversed(field: nat, n: nat, ghost f: seq<bool>) returns (tmp: nat)
    requires |f| == n && field == FromBits(f)
    ensures tmp == FromMsb(f)
  {
    var bits := field;
    tmp := 0;
    for k := 0 to n
      invariant bits == FromBits(f[k..]) && tmp == FromMsb(f[..k])
    {
      assert f[k..][1..] == f[k + 1..];
      assert f[..k + 1][..k] == f[..k];
      OrBit(tmp, bits % 2);
      tmp := BitOr(bits % 2, 2 * tmp);
      bits := bits / 2;
    }
    assert f[..n] == f && f[0..] == f;
  }

  lemma OrBit(v: nat, b: nat)
    requires b < 2
    ensures BitOr(b, 2 * v) == b + 2 * v
  {
    assert Shl(v, 1) == 2 * v && Pow2(1) == 2;
    BitOrDisjoint(b, 1, v);
  }
}

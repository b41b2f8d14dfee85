/** Bytes, bit strings (least significant bit first) and the laws that tie them to the
    shifts, masks and ors the image writers and texture codecs use. */
module Bits {

  type byte = x: int | 0 <= x < 256

  datatype Option<+T> = None | Some(value: T)

  function Pow2(n: nat): (p: nat)
    ensures p > 0
  {
    if n == 0 then 1 else 2 * Pow2(n - 1)
  }

  /** Right shift by `m`. */
  function Shr(v: nat, m: nat): (r: nat)
    decreases m
  {
    if m == 0 then v else Shr(v / 2, m - 1)
  }

  /** Left shift by `m`. */
  function Shl(v: nat, m: nat): (r: nat)
    decreases m
  {
    if m == 0 then v else 2 * Shl(v, m - 1)
  }

  function BitAt(v: nat, i: nat): bool
  {
    Shr(v, i) % 2 == 1
  }

  /** The `n` lowest bits of `v`, least significant first. */
  function ToBits(v: nat, n: nat): (b: seq<bool>)
    ensures |b| == n
  {
    seq(n, i requires 0 <= i < n => BitAt(v, i))
  }

  /** The `n` lowest bits of `v`, most significant first: the order of Huffman codes. */
  function MsbBits(v: nat, n: nat): (b: seq<bool>)
    ensures |b| == n
  {
    seq(n, i requires 0 <= i < n => BitAt(v, n - 1 - i))
  }

  function Bit(b: bool): (v: nat)
    ensures v < 2
  {
    if b then 1 else 0
  }

  /** The number a bit string denotes, least significant bit first. */
  function FromBits(b: seq<bool>): (v: nat)
  {
    if |b| == 0 then 0 else Bit(b[0]) + 2 * FromBits(b[1..])
  }

  /** The number a bit string denotes, most significant bit first. */
  function FromMsb(b: seq<bool>): (v: nat)
  {
    if |b| == 0 then 0 else 2 * FromMsb(b[..|b| - 1]) + Bit(b[|b| - 1])
  }

  /** The bits of a byte string: byte after byte, each least significant bit first. */
  function BytesToBits(s: seq<byte>): (b: seq<bool>)
    ensures |b| == 8 * |s|
  {
    seq(8 * |s|, i requires 0 <= i < 8 * |s| => BitAt(s[i / 8], i % 8))
  }

  /** Bitwise or of two naturals. */
  function BitOr(a: nat, b: nat): (r: nat)
    decreases a + b
  {
    if a == 0 then b
    else if b == 0 then a
    else (if a % 2 == 1 || b % 2 == 1 then 1 else 0) + 2 * BitOr(a / 2, b / 2)
  }

  /** Bitwise exclusive or of two naturals. */
  function BitXor(a: nat, b: nat): (r: nat)
    decreases a + b
  {
    if a == 0 && b == 0 then 0
    else (if a % 2 == b % 2 then 0 else 1) + 2 * BitXor(a / 2, b / 2)
  }

  lemma ConcatAssoc<T>(a: seq<T>, b: seq<T>, c: seq<T>)
    ensures (a + b) + c == a + (b + c)
  {
  }

  // ----- powers of two

  lemma {:induction false} Pow2Mono(m: nat, n: nat)
    requires m <= n
    ensures Pow2(m) <= Pow2(n)
  {
    if m < n {
      Pow2Mono(m, n - 1);
    }
  }

  lemma {:induction false} Pow2Add(m: nat, n: nat)
    ensures Pow2(m + n) == Shl(Pow2(n), m)
  {
    if m != 0 {
      Pow2Add(m - 1, n);
      assert m + n - 1 == (m - 1) + n;
    }
  }

  lemma ShlByte(v: nat)
    ensures Shl(v, 8) == 256 * v
  {
    assert Shl(v, 2) == 4 * v;
    assert Shl(v, 4) == 16 * v;
    assert Shl(v, 6) == 64 * v;
  }

  lemma Pow2Word()
    ensures Pow2(8) == 256 && Pow2(16) == 0x1_0000 && Pow2(32) == 0x1_0000_0000
  {
    assert Pow2(8) == 256;
    ShlByte(Pow2(8));
    Pow2Add(8, 8);
    ShlByte(Pow2(16));
    Pow2Add(8, 16);
    ShlByte(Pow2(24));
    Pow2Add(8, 24);
  }

  // ----- numbers and their bits

  lemma {:induction false} FromToBits(v: nat, n: nat)
    requires v < Pow2(n)
    ensures FromBits(ToBits(v, n)) == v
  {
    if n != 0 {
      FromToBits(v / 2, n - 1);
      assert ToBits(v, n)[1..] == ToBits(v / 2, n - 1);
    }
  }

  lemma {:induction false} ToFromBits(b: seq<bool>)
    ensures FromBits(b) < Pow2(|b|)
    ensures ToBits(FromBits(b), |b|) == b
  {
    if |b| != 0 {
      ToFromBits(b[1..]);
      var v := FromBits(b);
      assert v / 2 == FromBits(b[1..]) && v % 2 == Bit(b[0]);
      forall i | 0 <= i < |b|
        ensures ToBits(v, |b|)[i] == b[i]
      {
        if i > 0 {
          assert BitAt(v, i) == BitAt(v / 2, i - 1) == ToBits(v / 2, |b| - 1)[i - 1];
        }
      }
    }
  }

  lemma {:induction false} FromMsbBits(v: nat, n: nat)
    requires v < Pow2(n)
    ensures FromMsb(MsbBits(v, n)) == v
  {
    if n != 0 {
      FromMsbBits(v / 2, n - 1);
      MsbSnoc(v, n);
      assert MsbBits(v, n)[..n - 1] == MsbBits(v / 2, n - 1);
    }
  }

  lemma MsbSnoc(v: nat, n: nat)
    requires n > 0
    ensures MsbBits(v, n) == MsbBits(v / 2, n - 1) + [v % 2 == 1]
  {
    forall i | 0 <= i < n - 1
      ensures MsbBits(v, n)[i] == MsbBits(v / 2, n - 1)[i]
    {
      assert BitAt(v, n - 1 - i) == BitAt(v / 2, n - 2 - i);
    }
    assert MsbBits(v, n)[n - 1] == BitAt(v, 0) == (v % 2 == 1);
  }

  // ----- what or-ing a shifted field into a buffer does

  lemma {:induction false} BitAtJoin(v: nat, m: nat, w: nat, i: nat)
    requires v < Pow2(m)
    ensures BitAt(v + Shl(w, m), i) == if i < m then BitAt(v, i) else BitAt(w, i - m)
    decreases m
  {
    if m != 0 {
      assert (v + Shl(w, m)) / 2 == v / 2 + Shl(w, m - 1);
      if i > 0 {
        BitAtJoin(v / 2, m - 1, w, i - 1);
      }
    }
  }

  lemma ToBitsJoin(v: nat, m: nat, w: nat, n: nat)
    requires v < Pow2(m)
    ensures ToBits(v + Shl(w, m), m + n) == ToBits(v, m) + ToBits(w, n)
  {
    forall i | 0 <= i < m + n
      ensures BitAt(v + Shl(w, m), i) == (ToBits(v, m) + ToBits(w, n))[i]
    {
      BitAtJoin(v, m, w, i);
    }
  }

  /** A joined pair of fields fits the sum of their widths. */
  lemma {:induction false} JoinFits(v: nat, m: nat, w: nat, n: nat)
    requires v < Pow2(m) && w < Pow2(n)
    ensures v + Shl(w, m) < Pow2(m + n)
    decreases m
  {
    if m != 0 {
      JoinFits(v / 2, m - 1, w, n);
      assert m + n - 1 == (m - 1) + n;
    }
  }

  lemma {:induction false} BitOrDisjoint(v: nat, m: nat, w: nat)
    requires v < Pow2(m)
    ensures BitOr(v, Shl(w, m)) == v + Shl(w, m)
    decreases m
  {
    if m != 0 {
      BitOrDisjoint(v / 2, m - 1, w);
      assert Shl(w, m) / 2 == Shl(w, m - 1);
    }
  }

  // ----- byte strings

  lemma BytesToBitsConcat(s: seq<byte>, t: seq<byte>)
    ensures BytesToBits(s + t) == BytesToBits(s) + BytesToBits(t)
  {
    forall i | 0 <= i < 8 * |s + t|
      ensures BytesToBits(s + t)[i] == (BytesToBits(s) + BytesToBits(t))[i]
    {
      if i >= 8 * |s| {
        assert (i - 8 * |s|) / 8 == i / 8 - |s| && (i - 8 * |s|) % 8 == i % 8;
      }
    }
  }

  lemma BytesToBitsOne(b: byte)
    ensures BytesToBits([b]) == ToBits(b, 8)
  {
  }

  /** Appending one byte. */
  lemma BytesToBitsSnoc(s: seq<byte>, b: byte)
    ensures BytesToBits(s + [b]) == BytesToBits(s) + ToBits(b, 8)
  {
    BytesToBitsConcat(s, [b]);
    BytesToBitsOne(b);
  }

  // ----- packing bytes out of a bit buffer

  lemma FlushStep(out: seq<byte>, bitbuf: nat, bitcount: nat)
    requires bitcount >= 8 && bitbuf < Pow2(bitcount)
    ensures bitbuf / 256 < Pow2(bitcount - 8)
    ensures BytesToBits(out + [bitbuf % 256]) + ToBits(bitbuf / 256, bitcount - 8)
         == BytesToBits(out) + ToBits(bitbuf, bitcount)
  {
    var lo, hi, n := bitbuf % 256, bitbuf / 256, bitcount - 8;
    Pow2Word();
    ShlByte(hi);
    ToBitsJoin(lo, 8, hi, n);
    Pow2Add(8, n);
    ShlByte(Pow2(n));
    BytesToBitsSnoc(out, lo);
    ConcatAssoc(BytesToBits(out), ToBits(lo, 8), ToBits(hi, n));
  }

  lemma JoinFits32(bitbuf: nat, bitcount: nat, code: nat, codebits: nat)
    requires bitcount < 8 && bitbuf < Pow2(bitcount) && code < Pow2(codebits) && codebits <= 24
    ensures bitbuf + Shl(code, bitcount) < Pow2(bitcount + codebits) <= 0x1_0000_0000
  {
    JoinFits(bitbuf, bitcount, code, codebits);
    Pow2Mono(bitcount + codebits, 32);
    Pow2Word();
  }

  /** The 32-bit or neither overflows nor disturbs the pending bits. */
  lemma AddJoins(bitbuf: nat, bitcount: nat, code: nat, codebits: nat)
    requires bitcount < 8 && bitbuf < Pow2(bitcount) && code < Pow2(codebits) && codebits <= 24
    ensures BitOr(bitbuf, Shl(code, bitcount)) < Pow2(bitcount + codebits)
    ensures BitOr(bitbuf, Shl(code, bitcount)) % 0x1_0000_0000 == BitOr(bitbuf, Shl(code, bitcount))
    ensures ToBits(BitOr(bitbuf, Shl(code, bitcount)), bitcount + codebits)
         == ToBits(bitbuf, bitcount) + ToBits(code, codebits)
  {
    BitOrDisjoint(bitbuf, bitcount, code);
    JoinFits32(bitbuf, bitcount, code, codebits);
    ToBitsJoin(bitbuf, bitcount, code, codebits);
  }

  // ----- single bits of the word operations

  lemma {:induction false} BitAtOr(a: nat, b: nat, i: nat)
    ensures BitAt(BitOr(a, b), i) == (BitAt(a, i) || BitAt(b, i))
    decreases i
  {
    if a == 0 || b == 0 {
      BitAtZero(i);
    } else {
      var r := BitOr(a, b);
      assert r / 2 == BitOr(a / 2, b / 2) && (r % 2 == 1) == (a % 2 == 1 || b % 2 == 1);
      if i > 0 {
        BitAtOr(a / 2, b / 2, i - 1);
      }
    }
  }

  lemma {:induction false} BitAtZero(i: nat)
    ensures !BitAt(0, i)
  {
    if i > 0 {
      BitAtZero(i - 1);
    }
  }

  lemma BitAtShl(v: nat, m: nat, i: nat)
    ensures BitAt(Shl(v, m), i) == (i >= m && BitAt(v, i - m))
  {
    BitAtJoin(0, m, v, i);
    if i < m {
      BitAtZero(i);
    }
  }

  /** Bits at and above the width are zero. */
  lemma {:induction false} BitAtHigh(v: nat, n: nat, i: nat)
    requires v < Pow2(n) && n <= i
    ensures !BitAt(v, i)
    decreases i
  {
    if n == 0 {
      BitAtZero(i);
    } else {
      BitAtHigh(v / 2, n - 1, i - 1);
    }
  }

  /** Reducing modulo a power of two keeps the low bits. */
  lemma {:induction false} BitAtMod(v: nat, lo: nat, n: nat, hi: nat, i: nat)
    requires lo < Pow2(n) && v == lo + Shl(hi, n)
    ensures BitAt(lo, i) == (i < n && BitAt(v, i))
  {
    BitAtJoin(lo, n, hi, i);
    if i >= n {
      BitAtHigh(lo, n, i);
    }
  }

  lemma BitAtByte(v: nat, i: nat)
    ensures BitAt(v % 256, i) == (i < 8 && BitAt(v, i))
  {
    Pow2Word();
    ShlByte(v / 256);
    BitAtMod(v, v % 256, 8, v / 256, i);
  }

  lemma BitAtWord(v: nat, i: nat)
    ensures BitAt(v % 0x1_0000_0000, i) == (i < 32 && BitAt(v, i))
  {
    Pow2Word();
    var hi := v / 0x1_0000_0000;
    ShlByte(hi);
    ShlByte(256 * hi);
    ShlByte(0x1_0000 * hi);
    ShlByte(0x100_0000 * hi);
    ShlTwice(hi, 8, 8);
    ShlTwice(hi, 16, 8);
    ShlTwice(hi, 24, 8);
    BitAtMod(v, v % 0x1_0000_0000, 32, hi, i);
  }

  lemma {:induction false} ShlTwice(v: nat, m: nat, n: nat)
    ensures Shl(v, m + n) == Shl(Shl(v, m), n)
    decreases n
  {
    if n > 0 {
      ShlTwice(v, m, n - 1);
    }
  }

  lemma {:induction false} BitAtShr(v: nat, m: nat, i: nat)
    ensures BitAt(Shr(v, m), i) == BitAt(v, m + i)
    decreases m
  {
    if m > 0 {
      BitAtShr(v / 2, m - 1, i);
    }
  }

  lemma {:induction false} BitAtXor(a: nat, b: nat, i: nat)
    ensures BitAt(BitXor(a, b), i) == (BitAt(a, i) != BitAt(b, i))
    decreases i
  {
    if i > 0 {
      BitAtXor(a / 2, b / 2, i - 1);
    }
  }

  lemma {:induction false} ShrAdd(v: nat, k: nat, j: nat)
    ensures Shr(v, k + j) == Shr(Shr(v, k), j)
    decreases k
  {
    if k != 0 {
      ShrAdd(v / 2, k - 1, j);
    }
  }

  lemma {:induction false} ShrFits(v: nat, m: nat, n: nat)
    requires v < Pow2(m + n)
    ensures Shr(v, n) < Pow2(m)
    decreases n
  {
    if n > 0 {
      assert m + n - 1 == m + (n - 1);
      ShrFits(v / 2, m, n - 1);
    }
  }
}

/** The zlib compressor of stb_image_write.h: bit packer, hash-bucketed LZ77 search with lazy
    matching, fixed Huffman output, stored-block fallback and deferred-modulo Adler-32. */
module Deflate {
  import opened Bits
  import opened Inflate
  import opened DeflateCodes
  import opened Adler

  // ----- the writer's tables are those of section 3.2.5 of RFC 1951

  method LengthTables() returns (lengthc: seq<nat>, lengtheb: seq<nat>)
    ensures |lengthc| == 30 && |lengtheb| == 29 && lengthc[29] == 259
    ensures forall j :: 0 <= j < 29 ==> lengthc[j] == LengthBase(j)
    ensures forall j :: 0 <= j < 29 ==> lengtheb[j] == LengthExtra(j)
  {
    lengthc := [3,4,5,6,7,8,9,10,11,13,15,17,19,23,27,31,35,43,51,59,67,83,99,115,131,163,195,227,258,259];
    lengtheb := [0,0,0,0,0,0,0,0,1,1,1,1,2,2,2,2,3,3,3,3,4,4,4,4,5,5,5,5,0];
  }

  method DistTables() returns (distc: seq<nat>, disteb: seq<nat>)
    ensures |distc| == 31 && |disteb| == 30 && distc[30] == 32768
    ensures forall j :: 0 <= j < 30 ==> distc[j] == DistBase(j)
    ensures forall j :: 0 <= j < 30 ==> disteb[j] == DistExtra(j)
  {
    distc := [1, 2, 3, 4, 5, 7, 9, 13, 17, 25, 33, 49, 65, 97, 129, 193, 257, 385, 513, 769,
              1025, 1537, 2049, 3073, 4097, 6145, 8193, 12289, 16385, 24577, 32768];
    disteb := [0, 0, 0, 0, 1, 1, 2, 2, 3, 3, 4, 4, 5, 5, 6, 6, 7, 7, 8, 8, 9, 9, 10, 10, 11, 11, 12, 12, 13, 13];
  }

  method FindLength(len: nat) returns (j: nat, base: nat, eb: nat)
    requires 3 <= len <= 258
    ensures j == LengthCode(len, 0) && base == LengthBase(j) && eb == LengthExtra(j)
    ensures j < 29 && base <= len && len - base < Pow2(eb) && eb <= 5
  {
    var lengthc, lengtheb := LengthTables();
    j := 0;
    while len > lengthc[j + 1] - 1
      invariant j < 29 && lengthc[j] <= len
      invariant LengthCode(len, j) == LengthCode(len, 0)
      decreases 29 - j
    {
      j := j + 1;
    }
    LengthSpan(j);
    base, eb := lengthc[j], lengtheb[j];
  }

  lemma DistFound(dist: nat, j: nat)
    requires j < 30 && DistBase(j) <= dist < DistBase(j + 1)
    ensures j < Pow2(5) && dist - DistBase(j) < Pow2(DistExtra(j)) && DistExtra(j) <= 13
  {
    DistSpan(j);
    Pow2Small();
  }

  method FindDist(dist: nat) returns (j: nat, base: nat, eb: nat)
    requires 1 <= dist <= 32767
    ensures j == DistCode(dist, 0) && base == DistBase(j) && eb == DistExtra(j)
    ensures j < Pow2(5) && base <= dist && dist - base < Pow2(eb) && eb <= 13
  {
    var distc, disteb := DistTables();
    j := 0;
    while dist > distc[j + 1] - 1
      invariant j < 30 && distc[j] <= dist
      invariant DistCode(dist, j) == DistCode(dist, 0)
      decreases 30 - j
    {
      j := j + 1;
    }
    DistFound(dist, j);
    base, eb := distc[j], disteb[j];
  }

  // ----- bit packer

  /** Reverses the low `codebits` bits, so that adding them LSB-first sends the code MSB-first. */
  method BitRev(code: nat, codebits: nat) returns (res: nat)
    requires code < Pow2(codebits)
    ensures res < Pow2(codebits) && ToBits(res, codebits) == MsbBits(code, codebits)
  {
    res := 0;
    var c, left := code, codebits;
    ghost var k: nat := 0;
    while left != 0
      invariant k + left == codebits && c == Shr(code, k)
      invariant res < Pow2(k) && ToBits(res, k) == MsbBits(code, k)
    {
      RevStep(res, k, code);
      res := 2 * res + c % 2;
      c := c / 2;
      left := left - 1;
      k := k + 1;
    }
  }

  lemma {:induction false} ShrSnoc(v: nat, k: nat)
    ensures Shr(v, k + 1) == Shr(v, k) / 2
    decreases k
  {
    if k != 0 {
      ShrSnoc(v / 2, k - 1);
    }
  }

  lemma RevStep(res: nat, k: nat, code: nat)
    requires ToBits(res, k) == MsbBits(code, k)
    ensures Shr(code, k + 1) == Shr(code, k) / 2
    ensures ToBits(2 * res + Shr(code, k) % 2, k + 1) == MsbBits(code, k + 1)
  {
    ShrSnoc(code, k);
    var r := 2 * res + Shr(code, k) % 2;
    assert r / 2 == res && (r % 2 == 1) == BitAt(code, k);
    var x, y := ToBits(r, k + 1), MsbBits(code, k + 1);
    forall i | 0 <= i < k + 1
      ensures x[i] == y[i]
    {
      if i > 0 {
        assert BitAt(r, i) == BitAt(res, i - 1) == ToBits(res, k)[i - 1] == MsbBits(code, k)[i - 1];
      }
    }
  }

  class BitWriter {
    var out: seq<byte>
    var bitbuf: nat
    var bitcount: nat

    /** Fewer than 8 bits pending, and none of them above bitcount. */
    ghost predicate Valid()
      reads this
    {
      bitcount < 8 && bitbuf < Pow2(bitcount)
    }

    /** Everything added so far, flushed or pending. */
    ghost function Written(): seq<bool>
      reads this
    {
      BytesToBits(out) + ToBits(bitbuf, bitcount)
    }

    constructor (header: seq<byte>)
      ensures Valid() && out == header && bitcount == 0
    {
      out, bitbuf, bitcount := header, 0, 0;
    }

    method Flush()
      requires bitbuf < Pow2(bitcount)
      modifies this
      ensures Valid() && Written() == old(Written()) && bitcount == old(bitcount) % 8
    {
      while bitcount >= 8
        invariant bitbuf < Pow2(bitcount) && bitcount % 8 == old(bitcount) % 8
        invariant Written() == old(Written())
      {
        FlushStep(out, bitbuf, bitcount);
        out := out + [bitbuf % 256];
        bitbuf := bitbuf / 256;
        bitcount := bitcount - 8;
      }
    }

    /** The packer appends exactly the code's bits; the 32-bit buffer never overflows. */
    method Add(code: nat, codebits: nat)
      requires Valid() && code < Pow2(codebits) && codebits <= 24
      modifies this
      ensures Valid() && Written() == old(Written()) + ToBits(code, codebits)
      ensures bitcount == (old(bitcount) + codebits) % 8
    {
      AddJoins(bitbuf, bitcount, code, codebits);
      ConcatAssoc(BytesToBits(out), ToBits(bitbuf, bitcount), ToBits(code, codebits));
      bitbuf := BitOr(bitbuf, Shl(code, bitcount)) % 0x1_0000_0000;
      bitcount := bitcount + codebits;
      Flush();
    }

    method Huff(n: nat)
      requires Valid() && n < 288
      modifies this
      ensures Valid() && Written() == old(Written()) + LitLenBits(n)
    {
      Pow2Small();
      var (code, width) := HuffCode(n);
      var rev := BitRev(code, width);
      Add(rev, width);
    }

    method AddLength(len: nat)
      requires Valid() && 3 <= len <= 258
      modifies this
      ensures Valid() && Written() == old(Written()) + LengthBits(len)
    {
      var j, base, eb := FindLength(len);
      ConcatAssoc(Written(), LitLenBits(j + 257), ToBits(len - base, eb));
      Huff(j + 257);
      if eb != 0 {
        Add(len - base, eb);
      }
    }

    method AddDist(dist: nat)
      requires Valid() && 1 <= dist <= 32767
      modifies this
      ensures Valid() && Written() == old(Written()) + DistBits(dist)
    {
      var j, base, eb := FindDist(dist);
      var rev := BitRev(j, 5);
      ConcatAssoc(Written(), MsbBits(j, 5), ToBits(dist - base, eb));
      Add(rev, 5);
      if eb != 0 {
        Add(dist - base, eb);
      }
    }

    method AddToken(t: Token)
      requires Valid() && ValidToken(t)
      modifies this
      ensures Valid() && Written() == old(Written()) + TokenBits(t)
    {
      match t
      case Literal(b) =>
        Huff(b);
      case Match(len, dist) =>
        ghost var before := Written();
        AddLength(len);
        AddDist(dist);
        ConcatAssoc(before, LengthBits(len), DistBits(dist));
    }

    /** Pads with zero bits to a byte boundary. */
    method Pad() returns (ghost pad: seq<bool>)
      requires Valid()
      modifies this
      ensures Valid() && bitcount == 0 && |pad| < 8 && Written() == old(Written()) + pad
    {
      pad := [];
      ghost var k := bitcount;
      while bitcount != 0
        invariant Valid() && Written() == old(Written()) + pad
        invariant if bitcount == 0 then |pad| < 8 else |pad| == bitcount - k && k > 0
        decreases (8 - bitcount) % 8
      {
        ConcatAssoc(old(Written()), pad, ToBits(0, 1));
        PadBit();
        pad := pad + ToBits(0, 1);
      }
    }

    method PadBit()
      requires Valid() && bitcount < 8
      modifies this
      ensures Valid() && Written() == old(Written()) + ToBits(0, 1) && bitcount == (old(bitcount) + 1) % 8
    {
      Add(0, 1);
    }
  }
}

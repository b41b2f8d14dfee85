/** The JPEG writer's bit buffer: codes go in most significant bit first, bytes come out of
    bits 16..23 of a 32-bit buffer, and a zero is stuffed after every 0xFF. */
module JpegBits {
  import opened Bits

  // ----- byte strings, most significant bit first

  function MsbBytes(s: seq<byte>): (b: seq<bool>)
    ensures |b| == 8 * |s|
  {
    seq(8 * |s|, i requires 0 <= i < 8 * |s| => BitAt(s[i / 8], 7 - i % 8))
  }

  lemma MsbBytesSnoc(s: seq<byte>, c: byte)
    ensures MsbBytes(s + [c]) == MsbBytes(s) + MsbBits(c, 8)
  {
    var a, b := MsbBytes(s + [c]), MsbBytes(s) + MsbBits(c, 8);
    forall i | 0 <= i < |a|
      ensures a[i] == b[i]
    {
      if i >= 8 * |s| {
        assert i / 8 == |s| && i % 8 == i - 8 * |s|;
      }
    }
  }

  /** Byte stuffing (section F.1.2.3 of ITU-T T.81). */
  function Stuff(s: seq<byte>): seq<byte>
  {
    if |s| == 0 then []
    else Stuff(s[..|s| - 1]) + if s[|s| - 1] == 255 then [255, 0] else [s[|s| - 1]]
  }

  /** What a decoder does with entropy-coded bytes: drop the zero after each 0xFF, and stop at
      0xFF followed by anything else, which is a marker. */
  function Unstuff(s: seq<byte>): seq<byte>
  {
    if |s| == 0 then []
    else if s[0] != 255 then [s[0]] + Unstuff(s[1..])
    else if |s| > 1 && s[1] == 0 then [255] + Unstuff(s[2..])
    else []
  }

  lemma {:induction false} StuffConcat(s: seq<byte>, t: seq<byte>)
    ensures Stuff(s + t) == Stuff(s) + Stuff(t)
    decreases |t|
  {
    if |t| == 0 {
      assert s + t == s;
    } else {
      var n := |t| - 1;
      StuffConcat(s, t[..n]);
      assert (s + t)[..|s| + n] == s + t[..n];
      ConcatAssoc(Stuff(s), Stuff(t[..n]), if t[n] == 255 then [255, 0] else [t[n]]);
    }
  }

  /** Removing the stuffed zeros up to the next marker gives back the bytes. */
  lemma {:induction false} UnstuffBack(s: seq<byte>, m: byte)
    requires m != 0
    ensures Unstuff(Stuff(s) + [255, m]) == s
    decreases |s|
  {
    if |s| > 0 {
      assert s == [s[0]] + s[1..];
      StuffConcat([s[0]], s[1..]);
      assert [s[0]][..0] == [];
      var head, tail := if s[0] == 255 then [255, 0] else [s[0]], Stuff(s[1..]) + [255, m];
      assert Stuff(s) + [255, m] == head + tail;
      assert (head + tail)[|head|..] == tail;
      UnstuffBack(s[1..], m);
    }
  }

  // ----- the buffer

  /** Pending bits: bits 23, 22, ... of the buffer. */
  function Pending(bitBuf: nat, bitCnt: nat): (b: seq<bool>)
    requires bitCnt <= 24
    ensures |b| == bitCnt
  {
    seq(bitCnt, i requires 0 <= i < bitCnt => BitAt(bitBuf, 23 - i))
  }

  /** No bits below the pending ones. */
  ghost predicate Clean(bitBuf: nat, bitCnt: nat)
  {
    forall j :: 0 <= j < 24 - bitCnt ==> !BitAt(bitBuf, j)
  }

  lemma AddCode(bitBuf: nat, bitCnt: nat, code: nat, len: nat)
    requires bitCnt + len <= 24 && code < Pow2(len) && Clean(bitBuf, bitCnt)
    ensures var buf := BitOr(bitBuf, Shl(code, 24 - (bitCnt + len)));
            Clean(buf, bitCnt + len) && Pending(buf, bitCnt + len) == Pending(bitBuf, bitCnt) + MsbBits(code, len)
  {
    var n, sh := bitCnt + len, 24 - (bitCnt + len);
    var buf := BitOr(bitBuf, Shl(code, sh));
    forall j | 0 <= j < 24
      ensures BitAt(buf, j) == (BitAt(bitBuf, j) || (j >= sh && BitAt(code, j - sh)))
    {
      BitAtOr(bitBuf, Shl(code, sh), j);
      BitAtShl(code, sh, j);
    }
    var x, y := Pending(buf, n), Pending(bitBuf, bitCnt) + MsbBits(code, len);
    forall i | 0 <= i < n
      ensures x[i] == y[i]
    {
      if i < bitCnt {
        BitAtHigh(code, len, 23 - i - sh);
      }
    }
  }

  lemma EmitByte(bitBuf: nat, bitCnt: nat)
    requires 8 <= bitCnt <= 24 && Clean(bitBuf, bitCnt)
    ensures var c, buf := Shr(bitBuf, 16) % 256, bitBuf * 256 % 0x1_0000_0000;
            Clean(buf, bitCnt - 8) && Pending(bitBuf, bitCnt) == MsbBits(c, 8) + Pending(buf, bitCnt - 8)
  {
    var c, buf := Shr(bitBuf, 16) % 256, bitBuf * 256 % 0x1_0000_0000;
    ShlByte(bitBuf);
    forall j | 0 <= j < 24
      ensures BitAt(buf, j) == (j >= 8 && BitAt(bitBuf, j - 8))
      ensures BitAt(c, j) == (j < 8 && BitAt(bitBuf, 16 + j))
    {
      BitAtWord(bitBuf * 256, j);
      BitAtShl(bitBuf, 8, j);
      BitAtByte(Shr(bitBuf, 16), j);
      BitAtShr(bitBuf, 16, j);
    }
  }

  class Writer {
    var out: seq<byte>
    var bitBuf: nat
    var bitCnt: nat

    /** The bytes before stuffing. */
    ghost var raw: seq<byte>

    ghost predicate Valid()
      reads this
    {
      bitCnt < 8 && Clean(bitBuf, bitCnt) && out == Stuff(raw)
    }

    /** Every bit written, flushed or pending. */
    ghost function Written(): seq<bool>
      requires bitCnt <= 24
      reads this
    {
      MsbBytes(raw) + Pending(bitBuf, bitCnt)
    }

    constructor ()
      ensures Valid() && Written() == []
    {
      out, bitBuf, bitCnt, raw := [], 0, 0, [];
      new;
      forall j | 0 <= j < 24 ensures !BitAt(0, j) { BitAtZero(j); }
    }

    /** Moves the first eight pending bits to the output, stuffing a zero after 0xFF. */
    method FlushByte()
      requires 8 <= bitCnt <= 24 && Clean(bitBuf, bitCnt) && out == Stuff(raw)
      modifies this
      ensures bitCnt == old(bitCnt) - 8 && Clean(bitBuf, bitCnt) && out == Stuff(raw) && Written() == old(Written())
    {
      EmitByte(bitBuf, bitCnt);
      var c := Shr(bitBuf, 16) % 256;
      MsbBytesSnoc(raw, c);
      ConcatAssoc(MsbBytes(raw), MsbBits(c, 8), Pending(bitBuf * 256 % 0x1_0000_0000, bitCnt - 8));
      assert (raw + [c])[..|raw|] == raw;
      out := out + [c];
      if c == 255 {
        out := out + [0];
      }
      assert out == Stuff(raw + [c]);
      raw := raw + [c];
      bitBuf := bitBuf * 256 % 0x1_0000_0000;
      bitCnt := bitCnt - 8;
    }

    /** Ors a code in below the pending bits. */
    method Append(code: nat, len: nat)
      requires Valid() && code < Pow2(len) && len <= 16
      modifies this`bitBuf, this`bitCnt
      ensures bitCnt == old(bitCnt) + len && Clean(bitBuf, bitCnt) && Written() == old(Written()) + MsbBits(code, len)
    {
      AddCode(bitBuf, bitCnt, code, len);
      ConcatAssoc(MsbBytes(raw), Pending(bitBuf, bitCnt), MsbBits(code, len));
      bitCnt := bitCnt + len;
      bitBuf := BitOr(bitBuf, Shl(code, 24 - bitCnt));
    }

    method WriteBits(code: nat, len: nat)
      requires Valid() && code < Pow2(len) && len <= 16
      modifies this
      ensures Valid() && Written() == old(Written()) + MsbBits(code, len) && bitCnt == (old(bitCnt) + len) % 8
    {
      Append(code, len);
      FlushAll();
    }

    method FlushAll()
      requires bitCnt <= 24 && Clean(bitBuf, bitCnt) && out == Stuff(raw)
      modifies this
      ensures Valid() && Written() == old(Written()) && bitCnt == old(bitCnt) % 8
    {
      while bitCnt >= 8
        invariant bitCnt <= 24 && Clean(bitBuf, bitCnt) && out == Stuff(raw)
        invariant Written() == old(Written()) && bitCnt % 8 == old(bitCnt) % 8
      {
        FlushByte();
      }
    }

    /** Fills up with ones: every bit written so far ends up in a whole byte. */
    method Fill() returns (ghost ones: seq<bool>)
      requires Valid()
      modifies this
      ensures Valid() && |ones| < 8 && MsbBytes(raw) == old(Written()) + ones
    {
      ghost var before, n := Written(), bitCnt;
      ghost var fill := MsbBits(0x7F, 7);
      assert Pow2(7) == 128;
      WriteBits(0x7F, 7);
      ones := if n == 0 then [] else fill[..8 - n];
      assert |MsbBytes(raw)| == 8 * |raw| && |before| % 8 == n;
      assert Written()[..8 * |raw|] == MsbBytes(raw);
      assert (before + fill)[..|before| + |ones|] == before + ones;
    }
  }
}

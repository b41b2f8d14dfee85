/** The zlib writer as a whole, and its main theorem: every non-empty byte string comes back
    from a conforming reader, whatever the quality setting and whichever block type was used. */
module Zlib {
  import opened Bits
  import opened Inflate
  import opened DeflateCodes
  import opened Deflate
  import opened Adler
  import opened Lz77

  const HEADER: seq<byte> := [0x78, 0x5e]

  // ----- the compressed form

  /** BFINAL = 1 and BTYPE = 1. */
  function FixedPrefix(): seq<bool>
  {
    BytesToBits(HEADER) + ToBits(1, 1) + ToBits(1, 2)
  }

  /** The writer has sent exactly the tokens of data[..i]. */
  ghost predicate Sent(w: BitWriter, tokens: seq<Token>, data: seq<byte>, i: nat)
    requires i <= |data|
    reads w
  {
    w.Valid() && ValidTokens(tokens) && Expand([], tokens) == Some(data[..i])
    && w.Written() == FixedPrefix() + TokensBits(tokens)
  }

  method Emit(w: BitWriter, t: Token, ghost tokens: seq<Token>, ghost data: seq<byte>, ghost i: nat, ghost next: nat)
    returns (ghost more: seq<Token>)
    requires i <= next <= |data| && Sent(w, tokens, data, i)
    requires ValidToken(t) && Apply(data[..i], t) == Some(data[..next])
    modifies w
    ensures Sent(w, more, data, next)
  {
    more := tokens + [t];
    TokensBitsSnoc(tokens, t);
    ExpandSnoc([], tokens, t);
    ConcatAssoc(FixedPrefix(), TokensBits(tokens), TokenBits(t));
    w.AddToken(t);
  }

  method EmitLiteral(w: BitWriter, ghost tokens: seq<Token>, data: seq<byte>, i: nat) returns (ghost more: seq<Token>)
    requires i < |data| && Sent(w, tokens, data, i)
    modifies w
    ensures Sent(w, more, data, i + 1)
  {
    assert data[..i] + [data[i]] == data[..i + 1];
    more := Emit(w, Literal(data[i]), tokens, data, i, i + 1);
  }

  method Begin() returns (w: BitWriter)
    ensures fresh(w) && w.Valid() && w.Written() == FixedPrefix()
  {
    Pow2Small();
    w := new BitWriter(HEADER);
    assert w.Written() == BytesToBits(HEADER);
    w.Add(1, 1);
    w.Add(1, 2);
  }

  /** One turn of the main loop: hash, search, send. */
  method Step(w: BitWriter, ghost tokens: seq<Token>, data: seq<byte>, i: nat, table: array<Positions>, quality: nat)
    returns (next: nat, ghost more: seq<Token>)
    requires i + 3 < |data| && Sent(w, tokens, data, i) && TableBefore(table, i)
    requires TableBounded(table, quality) && quality > 0
    modifies w, table
    ensures i < next <= |data| && Sent(w, more, data, next) && TableBefore(table, next) && TableBounded(table, quality)
  {
    var h := HashAt(data, i);
    var hn := HashAt(data, i + 1);
    var t := ChooseToken(data, i, h, hn, table, quality);
    next := i + Advance(t);
    more := Emit(w, t, tokens, data, i, next);
    TableGrows(table, i + 1, next);
  }

  /** End-of-block symbol and padding. */
  method Finish(w: BitWriter) returns (ghost pad: seq<bool>)
    requires w.Valid()
    modifies w
    ensures |pad| < 8 && BytesToBits(w.out) == old(w.Written()) + LitLenBits(256) + pad
  {
    w.Huff(256);
    pad := w.Pad();
    assert w.Written() == BytesToBits(w.out);
  }

  /** The main loop: all but the last bytes. */
  method SendMatches(w: BitWriter, data: seq<byte>, table: array<Positions>, quality: nat)
    returns (i: nat, ghost tokens: seq<Token>)
    requires w.Valid() && w.Written() == FixedPrefix() && quality > 0
    requires TableBefore(table, 0) && TableBounded(table, quality)
    modifies w, table
    ensures i <= |data| && Sent(w, tokens, data, i)
  {
    i, tokens := 0, [];
    assert data[..0] == [] && FixedPrefix() + [] == FixedPrefix();
    while i < |data| - 3
      invariant i <= |data| && Sent(w, tokens, data, i) && TableBefore(table, i) && TableBounded(table, quality)
    {
      i, tokens := Step(w, tokens, data, i, table, quality);
    }
  }

  /** The last bytes as literals. */
  method SendRest(w: BitWriter, ghost tokens: seq<Token>, data: seq<byte>, start: nat) returns (ghost more: seq<Token>)
    requires start <= |data| && Sent(w, tokens, data, start)
    modifies w
    ensures Sent(w, more, data, |data|)
  {
    more := tokens;
    for i := start to |data|
      invariant Sent(w, more, data, i)
    {
      more := EmitLiteral(w, more, data, i);
    }
  }

  /** One fixed-Huffman block holding all of data, padded to whole bytes. */
  method FixedBlock(data: seq<byte>, quality: nat)
    returns (out: seq<byte>, ghost tokens: seq<Token>, ghost pad: seq<bool>)
    requires quality > 0
    ensures ValidTokens(tokens) && Expand([], tokens) == Some(data)
    ensures |pad| < 8 && BytesToBits(out) == FixedPrefix() + TokensBits(tokens) + LitLenBits(256) + pad
  {
    var w := Begin();
    var table := new Positions[ZHASH](_ => []);
    var i;
    i, tokens := SendMatches(w, data, table, quality);
    tokens := SendRest(w, tokens, data, i);
    assert data[..|data|] == data;
    pad := Finish(w);
    out := w.out;
  }

  // ----- the stored form

  /** Length of the next stored block. */
  function BlockLen(left: nat): (n: nat)
    ensures n <= left && n <= 32767 && (left > 0 ==> n > 0)
  {
    if left > 32767 then 32767 else left
  }

  /** BFINAL and BTYPE = 0, LEN, and NLEN = ~LEN. */
  function StoredHeader(n: nat, last: bool): (h: seq<byte>)
    requires n <= 32767
    ensures |h| == 5
  {
    [Bit(last), n % 256, n / 256, 255 - n % 256, 255 - n / 256]
  }

  function StoredBlock(chunk: seq<byte>, last: bool): seq<byte>
    requires |chunk| <= 32767
  {
    StoredHeader(|chunk|, last) + chunk
  }

  /** The stored blocks for data[j..]. */
  function StoredFrom(data: seq<byte>, j: nat): (s: seq<byte>)
    requires j <= |data|
    decreases |data| - j
  {
    if j == |data| then []
    else
      var n := BlockLen(|data| - j);
      StoredBlock(data[j..j + n], j + n == |data|) + StoredFrom(data, j + n)
  }

  lemma {:induction false} StoredSize(data: seq<byte>, j: nat)
    requires j <= |data|
    ensures |StoredFrom(data, j)| == |data| - j + (|data| - j + 32766) / 32767 * 5
    decreases |data| - j
  {
    if j != |data| {
      var n := BlockLen(|data| - j);
      StoredSize(data, j + n);
    }
  }

  /** Writes the stored form over a buffer that has held capacity bytes. Each block is copied
      without a test whether there is room: there is, if the buffer has held as many bytes. */
  method StoreBlocks(data: seq<byte>, ghost capacity: nat) returns (out: seq<byte>)
    requires |HEADER + StoredFrom(data, 0)| <= capacity
    ensures out == HEADER + StoredFrom(data, 0)
  {
    out := HEADER;
    var j := 0;
    while j < |data|
      invariant j <= |data| && out + StoredFrom(data, j) == HEADER + StoredFrom(data, 0)
    {
      var blocklen := |data| - j;
      if blocklen > 32767 {
        blocklen := 32767;
      }
      var block := StoredBlock(data[j..j + blocklen], |data| - j == blocklen);
      ConcatAssoc(out, block, StoredFrom(data, j + blocklen));
      out := out + block;
      assert |out| <= |out + StoredFrom(data, j + blocklen)| <= capacity;
      j := j + blocklen;
    }
    assert out + [] == out;
  }

  // ----- reading both forms back

  lemma {:induction false} ReadBytesBack(s: seq<byte>, rest: Bitstream)
    ensures ReadBytes(BytesToBits(s) + rest, |s|) == Some((s, rest))
    decreases |s|
  {
    if |s| == 0 {
      assert BytesToBits(s) + rest == rest;
    } else {
      var tail := BytesToBits(s[1..]) + rest;
      assert [s[0]] + s[1..] == s;
      BytesToBitsConcat([s[0]], s[1..]);
      BytesToBitsOne(s[0]);
      ConcatAssoc(ToBits(s[0], 8), BytesToBits(s[1..]), rest);
      Pow2Word();
      FromToBits(s[0], 8);
      assert (ToBits(s[0], 8) + tail)[..8] == ToBits(s[0], 8);
      assert (ToBits(s[0], 8) + tail)[8..] == tail;
      ReadBytesBack(s[1..], rest);
    }
  }

  /** Two bytes, low byte first, read as a 16-bit number. */
  lemma ReadWordBack(lo: byte, hi: byte, rest: seq<byte>)
    ensures ReadBits(BytesToBits([lo, hi] + rest), 16) == Some((lo + 256 * hi, BytesToBits(rest)))
  {
    BytesToBitsConcat([lo, hi], rest);
    assert [lo, hi] == [lo] + [hi];
    BytesToBitsConcat([lo], [hi]);
    BytesToBitsOne(lo);
    BytesToBitsOne(hi);
    Pow2Word();
    ShlByte(hi);
    ToBitsJoin(lo, 8, hi, 8);
    ReadBitsBack(lo + 256 * hi, 16, BytesToBits(rest));
  }

  /** Block header byte: BFINAL, then BTYPE = 0, then alignment to the next byte. */
  lemma ReadStoredFlag(last: bool, rest: seq<byte>)
    ensures var bits := BytesToBits([Bit(last)] + rest);
            var final := ReadBits(bits, 1);
            final.Some? && final.value.0 == Bit(last)
            && var kind := ReadBits(final.value.1, 2);
            kind.Some? && kind.value.0 == 0 && Align(kind.value.1) == BytesToBits(rest)
  {
    BytesToBitsConcat([Bit(last)], rest);
    BytesToBitsOne(Bit(last));
    Pow2Small();
    ToBitsJoin(Bit(last), 1, 0, 7);
    ToBitsJoin(0, 2, 0, 5);
    assert Shl(0, 1) == 0 && Shl(0, 2) == 0;
    var tail := ToBits(0, 5) + BytesToBits(rest);
    ConcatAssoc(ToBits(0, 2), ToBits(0, 5), BytesToBits(rest));
    ConcatAssoc(ToBits(Bit(last), 1), ToBits(0, 7), BytesToBits(rest));
    ReadBitsBack(Bit(last), 1, ToBits(0, 2) + tail);
    ReadBitsBack(0, 2, tail);
    assert |tail| % 8 == 5;
    assert tail[5..] == BytesToBits(rest);
  }

  /** The body of one stored block. */
  lemma StoredBodyBack(chunk: seq<byte>, rest: seq<byte>, out: seq<byte>, bits: Bitstream)
    requires |chunk| <= 32767
    requires Align(bits) == BytesToBits([|chunk| % 256, |chunk| / 256, 255 - |chunk| % 256, 255 - |chunk| / 256]
               + chunk + rest)
    ensures InflateStored(bits, out) == Some((out + chunk, BytesToBits(rest)))
  {
    var n := |chunk|;
    var lo: byte, hi: byte := n % 256, n / 256;
    var lo2: byte, hi2: byte := 255 - lo, 255 - hi;
    var tail := chunk + rest;
    assert [lo, hi, lo2, hi2] + chunk + rest == [lo, hi] + ([lo2, hi2] + tail);
    ReadWordBack(lo, hi, [lo2, hi2] + tail);
    ReadWordBack(lo2, hi2, tail);
    assert lo + 256 * hi == n;
    BytesToBitsConcat(chunk, rest);
    ReadBytesBack(chunk, BytesToBits(rest));
  }

  /** One stored block, up to the flag that says whether to go on. */
  lemma OneStoredBack(chunk: seq<byte>, last: bool, after: seq<byte>, out: seq<byte>)
    requires |chunk| <= 32767
    ensures InflateBlocks(BytesToBits(StoredBlock(chunk, last) + after), out)
         == if last then Some((out + chunk, BytesToBits(after))) else InflateBlocks(BytesToBits(after), out + chunk)
  {
    var n := |chunk|;
    var body := [n % 256, n / 256, 255 - n % 256, 255 - n / 256] + chunk + after;
    assert StoredBlock(chunk, last) + after == [Bit(last)] + body;
    ReadStoredFlag(last, body);
    var kind := ReadBits(ReadBits(BytesToBits([Bit(last)] + body), 1).value.1, 2).value.1;
    StoredBodyBack(chunk, after, out, kind);
  }

  type Reader = (Bitstream, seq<byte>) -> Option<(seq<byte>, Bitstream)>

  /** A reader that takes one stored block as it should. */
  ghost predicate ReadsStored(read: Reader)
  {
    forall chunk: seq<byte>, last, after, out {:trigger read(BytesToBits(StoredBlock(chunk, last) + after), out)} ::
      |chunk| <= 32767 ==>
      read(BytesToBits(StoredBlock(chunk, last) + after), out)
      == if last then Some((out + chunk, BytesToBits(after))) else read(BytesToBits(after), out + chunk)
  }

  /** Such a reader completes data from the blocks for data[j..], leaving the rest unread. */
  lemma {:induction false} StoredBack(read: Reader, data: seq<byte>, j: nat, rest: seq<byte>)
    requires j < |data| && ReadsStored(read)
    ensures read(BytesToBits(StoredFrom(data, j) + rest), data[..j]) == Some((data, BytesToBits(rest)))
    decreases |data| - j
  {
    var n := BlockLen(|data| - j);
    var block, more := StoredBlock(data[j..j + n], j + n == |data|), StoredFrom(data, j + n);
    ConcatAssoc(block, more, rest);
    assert data[..j] + data[j..j + n] == data[..j + n];
    if j + n == |data| {
      assert data[..j + n] == data;
      assert more + rest == rest;
    } else {
      StoredBack(read, data, j + n, rest);
    }
  }

  lemma InflateReadsStored()
    ensures ReadsStored(InflateBlocks)
  {
    forall chunk: seq<byte>, last, after, out | |chunk| <= 32767
      ensures InflateBlocks(BytesToBits(StoredBlock(chunk, last) + after), out)
           == if last then Some((out + chunk, BytesToBits(after))) else InflateBlocks(BytesToBits(after), out + chunk)
    {
      OneStoredBack(chunk, last, after, out);
    }
  }

  lemma StoredBlocksBack(data: seq<byte>, rest: seq<byte>)
    requires |data| > 0
    ensures InflateBlocks(BytesToBits(StoredFrom(data, 0) + rest), []) == Some((data, BytesToBits(rest)))
  {
    InflateReadsStored();
    StoredBack(InflateBlocks, data, 0, rest);
    assert data[..0] == [];
  }

  /** A fixed block, its padding, and what follows. */
  lemma FixedBack(tokens: seq<Token>, data: seq<byte>, rest: Bitstream)
    requires ValidTokens(tokens) && Expand([], tokens) == Some(data)
    ensures InflateBlocks(ToBits(1, 1) + (ToBits(1, 2) + (TokensBits(tokens) + LitLenBits(256) + rest)), [])
              == Some((data, rest))
  {
    var body := TokensBits(tokens) + LitLenBits(256) + rest;
    Pow2Small();
    ReadBitsBack(1, 1, ToBits(1, 2) + body);
    ReadBitsBack(1, 2, body);
    FixedBlockBack(tokens, [], rest);
  }

  /** What a reader sees after the two header bytes of a compressed stream. */
  lemma FixedBits(out: seq<byte>, tokens: seq<Token>, pad: seq<bool>, sum: seq<byte>)
    requires ValidTokens(tokens)
    requires BytesToBits(out) == FixedPrefix() + TokensBits(tokens) + LitLenBits(256) + pad
    ensures |out| >= 2 && out[..2] == HEADER
    ensures BytesToBits((out + sum)[2..])
         == ToBits(1, 1) + (ToBits(1, 2) + (TokensBits(tokens) + LitLenBits(256) + (pad + BytesToBits(sum))))
  {
    PartsBits(out, BytesToBits(HEADER), ToBits(1, 1), ToBits(1, 2), TokensBits(tokens), LitLenBits(256), pad, sum);
  }

  lemma PartsBits(out: seq<byte>, a: Bitstream, b: Bitstream, c: Bitstream, t: Bitstream, e: Bitstream,
                  pad: Bitstream, sum: seq<byte>)
    requires a == BytesToBits(HEADER) && BytesToBits(out) == a + b + c + t + e + pad
    ensures |out| >= 2 && out[..2] == HEADER
    ensures BytesToBits((out + sum)[2..]) == b + (c + (t + e + (pad + BytesToBits(sum))))
  {
    BytesToBitsConcat(out, sum);
    Regroup(a, b, c, t, e, pad, BytesToBits(sum));
    HeaderBits(out, a, b + c + t + e + pad);
    assert (out + sum)[..2] == out[..2];
    AfterHeader(out + sum, a, b + (c + (t + e + (pad + BytesToBits(sum)))));
  }

  lemma AfterHeader(s: seq<byte>, head: Bitstream, body: Bitstream)
    requires |s| >= 2 && s[..2] == HEADER && head == BytesToBits(HEADER) && BytesToBits(s) == head + body
    ensures BytesToBits(s[2..]) == body
  {
    assert s == s[..2] + s[2..];
    BytesToBitsConcat(s[..2], s[2..]);
    assert (head + body)[|head|..] == body;
    assert (head + BytesToBits(s[2..]))[|head|..] == BytesToBits(s[2..]);
  }

  lemma Regroup(a: Bitstream, b: Bitstream, c: Bitstream, t: Bitstream, e: Bitstream, p: Bitstream, s: Bitstream)
    ensures a + b + c + t + e + p == a + (b + c + t + e + p)
    ensures a + b + c + t + e + p + s == a + (b + (c + (t + e + (p + s))))
  {
    ConcatAssoc(t + e, p, s);
    ConcatAssoc(c, t + e, p + s);
    ConcatAssoc(c, t, e);
    ConcatAssoc(b, c + t + e, p + s);
  }

  /** A stream whose bits start with the header's bits starts with the header. */
  lemma HeaderBits(out: seq<byte>, head: Bitstream, rest: Bitstream)
    requires head == BytesToBits(HEADER) && BytesToBits(out) == head + rest
    ensures |out| >= 2 && out[..2] == HEADER
  {
    ReadBytesBack(HEADER, rest);
    assert out[..2] + out[2..] == out;
    BytesToBitsConcat(out[..2], out[2..]);
    ReadBytesBack(out[..2], BytesToBits(out[2..]));
  }

  /** The checksum bytes the writer appends. */
  function ChecksumBytes(s1: nat, s2: nat): (b: seq<byte>)
    requires s1 < 65521 && s2 < 65521
    ensures IsChecksum(b, (s1, s2))
  {
    [s2 / 256, s2 % 256, s1 / 256, s1 % 256]
  }

  lemma TailBack(data: seq<byte>, pad: Bitstream, sum: seq<byte>)
    requires |pad| < 8 && IsChecksum(sum, Adler32(data))
    ensures CheckTail(data, pad + BytesToBits(sum)) == Some(data)
  {
    var s := BytesToBits(sum);
    assert (pad + s)[|pad|..] == s;
    assert s + [] == s;
    ReadBytesBack(sum, []);
  }

  /** A stream reads back when its body inflates and its tail checks. */
  lemma StreamBack(s: seq<byte>, data: seq<byte>, rest: Bitstream)
    requires |s| >= 2 && s[..2] == HEADER
    requires InflateBlocks(BytesToBits(s[2..]), []) == Some((data, rest)) && CheckTail(data, rest) == Some(data)
    ensures ZlibDecode(s) == Some(data)
  {
    assert s[0] == s[..2][0] && s[1] == s[..2][1];
  }

  lemma FixedStreamBack(out: seq<byte>, tokens: seq<Token>, pad: seq<bool>, data: seq<byte>, sum: seq<byte>)
    requires ValidTokens(tokens) && Expand([], tokens) == Some(data) && |pad| < 8
    requires BytesToBits(out) == FixedPrefix() + TokensBits(tokens) + LitLenBits(256) + pad
    requires IsChecksum(sum, Adler32(data))
    ensures ZlibDecode(out + sum) == Some(data)
  {
    FixedBits(out, tokens, pad, sum);
    FixedBack(tokens, data, pad + BytesToBits(sum));
    TailBack(data, pad, sum);
    assert (out + sum)[..2] == out[..2];
    StreamBack(out + sum, data, pad + BytesToBits(sum));
  }

  lemma AlignedStreamBack(body: seq<byte>, data: seq<byte>, sum: seq<byte>)
    requires InflateBlocks(BytesToBits(body + sum), []) == Some((data, BytesToBits(sum)))
    requires IsChecksum(sum, Adler32(data))
    ensures ZlibDecode(HEADER + body + sum) == Some(data)
  {
    var s, none := HEADER + body + sum, [];
    assert s[2..] == body + sum && s[..2] == HEADER;
    assert none + BytesToBits(sum) == BytesToBits(sum);
    TailBack(data, none, sum);
    StreamBack(s, data, BytesToBits(sum));
  }

  lemma StoredStreamBack(data: seq<byte>, sum: seq<byte>)
    requires |data| > 0 && IsChecksum(sum, Adler32(data))
    ensures ZlibDecode(HEADER + StoredFrom(data, 0) + sum) == Some(data)
  {
    StoredBlocksBack(data, sum);
    AlignedStreamBack(StoredFrom(data, 0), data, sum);
  }

  /** With no data there is no block, and a reader finds none. */
  lemma EmptyStreamFails(sum: seq<byte>)
    requires sum == [0, 0, 0, 1]
    ensures ZlibDecode(HEADER + sum) == None
  {
    assert (HEADER + sum)[2..] == [Bit(false)] + [0, 0, 1];
    ReadStoredFlag(false, [0, 0, 1]);
    assert [0, 0, 1] == [0, 0] + [1];
    ReadWordBack(0, 0, [1]);
  }

  /** The compressor. A reader gets the input back exactly when the input is not empty, and
      the result never exceeds the stored size. */
  method Compress(data: seq<byte>, quality: int) returns (out: seq<byte>)
    ensures ZlibDecode(out) == if |data| > 0 then Some(data) else None
    ensures |out| <= |data| + 6 + (|data| + 32766) / 32767 * 5
  {
    var q := if quality < 5 then 5 else quality;
    ghost var tokens, pad;
    out, tokens, pad := FixedBlock(data, q);
    assert 8 * |out| >= |FixedPrefix()| + |LitLenBits(256)| == 26;
    var stored := |out| > |data| + 2 + (|data| + 32766) / 32767 * 5;
    StoredSize(data, 0);
    if stored {
      out := StoreBlocks(data, |out|);
    }
    var s1, s2 := Checksum(data);
    var sum := ChecksumBytes(s1, s2);
    if |data| == 0 {
      assert HEADER + StoredFrom(data, 0) == HEADER;
      EmptyStreamFails(sum);
    } else if stored {
      StoredStreamBack(data, sum);
    } else {
      FixedStreamBack(out, tokens, pad, data, sum);
    }
    out := out + sum;
  }
}

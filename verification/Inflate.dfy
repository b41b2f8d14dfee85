/** The decoder side of RFC 1951 (DEFLATE) and RFC 1950 (zlib): what any conforming reader
    does with a stream. Dynamic Huffman blocks, which the writer never emits, are rejected. */
module Inflate {
  import opened Bits

  /** One step of LZ77: a byte, or `len` bytes copied from `dist` bytes back. */
  datatype Token = Literal(b: byte) | Match(len: nat, dist: nat)

  datatype Item = Tok(t: Token) | EndOfBlock

  type Bitstream = seq<bool>

  /** Reads `n` bits as a number, least significant bit first (section 3.1.1). */
  function ReadBits(bits: Bitstream, n: nat): (r: Option<(nat, Bitstream)>)
    ensures r.Some? ==> |r.value.1| == |bits| - n
  {
    if |bits| < n then None else Some((FromBits(bits[..n]), bits[n..]))
  }

  /** Reads `n` bits of a Huffman code, most significant bit first (section 3.1.1). */
  function ReadCode(bits: Bitstream, n: nat): (r: Option<(nat, Bitstream)>)
    ensures r.Some? ==> |r.value.1| == |bits| - n
  {
    if |bits| < n then None else Some((FromMsb(bits[..n]), bits[n..]))
  }

  function ReadBytes(bits: Bitstream, n: nat): (r: Option<(seq<byte>, Bitstream)>)
    ensures r.Some? ==> |r.value.1| == |bits| - 8 * n
  {
    if n == 0 then Some(([], bits))
    else if |bits| < 8 then None
    else
      ToFromBits(bits[..8]);
      var rest := ReadBytes(bits[8..], n - 1);
      if rest.None? then None
      else Some(([FromBits(bits[..8])] + rest.value.0, rest.value.1))
  }

  /** The fixed literal/length code of section 3.2.6. */
  function DecodeLitLen(bits: Bitstream): (r: Option<(nat, Bitstream)>)
    ensures r.Some? ==> |r.value.1| < |bits| && r.value.0 < 288
  {
    var c7 := ReadCode(bits, 7);
    if c7.Some? && c7.value.0 <= 0x17 then Some((256 + c7.value.0, c7.value.1))
    else
      var c8 := ReadCode(bits, 8);
      if c8.Some? && 0x30 <= c8.value.0 <= 0xBF then Some((c8.value.0 - 0x30, c8.value.1))
      else if c8.Some? && 0xC0 <= c8.value.0 <= 0xC7 then Some((280 + c8.value.0 - 0xC0, c8.value.1))
      else
        var c9 := ReadCode(bits, 9);
        if c9.Some? && 0x190 <= c9.value.0 <= 0x1FF then Some((144 + c9.value.0 - 0x190, c9.value.1))
        else None
  }

  /** Extra bits and base of length code 257 + c: the table of section 3.2.5. */
  function LengthExtra(c: nat): nat
  {
    if c < 8 then 0 else if c < 12 then 1 else if c < 16 then 2 else if c < 20 then 3
    else if c < 24 then 4 else if c < 28 then 5 else 0
  }

  function LengthBase(c: nat): nat
  {
    if c < 8 then 3 + c else if c < 12 then 11 + 2 * (c - 8) else if c < 16 then 19 + 4 * (c - 12)
    else if c < 20 then 35 + 8 * (c - 16) else if c < 24 then 67 + 16 * (c - 20)
    else if c < 28 then 131 + 32 * (c - 24) else 258
  }

  /** Extra bits and base of distance code c: the table of section 3.2.5. */
  function DistExtra(c: nat): nat
  {
    if c < 4 then 0 else if c < 6 then 1 else if c < 8 then 2 else if c < 10 then 3 else if c < 12 then 4
        else if c < 14 then 5
    else if c < 16 then 6 else if c < 18 then 7 else if c < 20 then 8 else if c < 22 then 9 else if c < 24 then 10
        else if c < 26 then 11
    else if c < 28 then 12 else 13
  }

  function DistBase(c: nat): nat
  {
    if c < 4 then 1 + c else if c < 6 then 5 + 2 * (c - 4)
    else if c < 8 then 9 + 4 * (c - 6) else if c < 10 then 17 + 8 * (c - 8)
    else if c < 12 then 33 + 16 * (c - 10) else if c < 14 then 65 + 32 * (c - 12)
    else if c < 16 then 129 + 64 * (c - 14) else if c < 18 then 257 + 128 * (c - 16)
    else if c < 20 then 513 + 256 * (c - 18) else if c < 22 then 1025 + 512 * (c - 20)
    else if c < 24 then 2049 + 1024 * (c - 22) else if c < 26 then 4097 + 2048 * (c - 24)
    else if c < 28 then 8193 + 4096 * (c - 26) else 16385 + 8192 * (c - 28)
  }

  /** The distance half of a match: a 5-bit code and its extra bits. */
  function DecodeDist(bits: Bitstream): (r: Option<(nat, Bitstream)>)
    ensures r.Some? ==> |r.value.1| <= |bits|
  {
    var c := ReadCode(bits, 5);
    if c.None? || c.value.0 > 29 then None
    else
      var x := ReadBits(c.value.1, DistExtra(c.value.0));
      if x.None? then None else Some((DistBase(c.value.0) + x.value.0, x.value.1))
  }

  /** The rest of a match whose length code is 257 + c. */
  function DecodeMatch(c: nat, bits: Bitstream): (r: Option<(Item, Bitstream)>)
    ensures r.Some? ==> |r.value.1| <= |bits|
  {
    var x := ReadBits(bits, LengthExtra(c));
    if x.None? then None
    else
      var d := DecodeDist(x.value.1);
      if d.None? then None
      else Some((Tok(Match(LengthBase(c) + x.value.0, d.value.0)), d.value.1))
  }

  /** The next element of a fixed-Huffman block. */
  function DecodeItem(bits: Bitstream): (r: Option<(Item, Bitstream)>)
    ensures r.Some? ==> |r.value.1| < |bits|
  {
    var s := DecodeLitLen(bits);
    if s.None? then None
    else if s.value.0 < 256 then Some((Tok(Literal(s.value.0)), s.value.1))
    else if s.value.0 == 256 then Some((EndOfBlock, s.value.1))
    else if s.value.0 > 285 then None
    else DecodeMatch(s.value.0 - 257, s.value.1)
  }

  /** Copies `len` bytes from `dist` back; the regions may overlap (section 3.2.3). */
  function Copy(out: seq<byte>, len: nat, dist: nat): (r: seq<byte>)
    requires 0 < dist <= |out|
    ensures |r| == |out| + len
    decreases len
  {
    if len == 0 then out else Copy(out + [out[|out| - dist]], len - 1, dist)
  }

  function Apply(out: seq<byte>, t: Token): (r: Option<seq<byte>>)
  {
    match t
    case Literal(b) => Some(out + [b])
    case Match(len, dist) => if 0 < dist <= |out| then Some(Copy(out, len, dist)) else None
  }

  /** Body of a fixed-Huffman block up to and including its end-of-block symbol. */
  function InflateFixed(bits: Bitstream, out: seq<byte>): (r: Option<(seq<byte>, Bitstream)>)
    ensures r.Some? ==> |r.value.1| < |bits|
    decreases |bits|
  {
    var it := DecodeItem(bits);
    if it.None? then None
    else if it.value.0 == EndOfBlock then Some((out, it.value.1))
    else
      var o := Apply(out, it.value.0.t);
      if o.None? then None else InflateFixed(it.value.1, o.value)
  }

  /** A stream holds whole bytes, so |bits| % 8 bits remain of the byte being read. */
  function Align(bits: Bitstream): (r: Bitstream)
    ensures |r| <= |bits| && |r| % 8 == 0
  {
    bits[|bits| % 8..]
  }

  /** Body of a stored block (section 3.2.4). */
  function InflateStored(bits: Bitstream, out: seq<byte>): (r: Option<(seq<byte>, Bitstream)>)
    ensures r.Some? ==> |r.value.1| <= |bits|
  {
    var len := ReadBits(Align(bits), 16);
    if len.None? then None
    else
      var nlen := ReadBits(len.value.1, 16);
      if nlen.None? || len.value.0 + nlen.value.0 != 0xFFFF then None
      else
        var data := ReadBytes(nlen.value.1, len.value.0);
        if data.None? then None else Some((out + data.value.0, data.value.1))
  }

  /** Blocks up to the one marked BFINAL (section 3.2.3). */
  function InflateBlocks(bits: Bitstream, out: seq<byte>): (r: Option<(seq<byte>, Bitstream)>)
    ensures r.Some? ==> |r.value.1| <= |bits|
    decreases |bits|
  {
    var final := ReadBits(bits, 1);
    if final.None? then None
    else
      var kind := ReadBits(final.value.1, 2);
      if kind.None? then None
      else
        var body := if kind.value.0 == 0 then InflateStored(kind.value.1, out)
                    else if kind.value.0 == 1 then InflateFixed(kind.value.1, out)
                    else None;
        if body.None? then None
        else if final.value.0 == 1 then body
        else InflateBlocks(body.value.1, body.value.0)
  }

  /** Adler-32 of section 9 of RFC 1950, byte by byte. */
  function AdlerFrom(s1: nat, s2: nat, data: seq<byte>): (r: (nat, nat))
    decreases |data|
  {
    if |data| == 0 then (s1, s2)
    else
      var a := (s1 + data[0]) % 65521;
      AdlerFrom(a, (s2 + a) % 65521, data[1..])
  }

  function Adler32(data: seq<byte>): (nat, nat)
  {
    AdlerFrom(1, 0, data)
  }

  /** The four checksum bytes, most significant first (section 2.2 of RFC 1950). */
  predicate IsChecksum(b: seq<byte>, sum: (nat, nat))
  {
    |b| == 4 && 256 * (b[0] as int) + b[1] == sum.1 && 256 * (b[2] as int) + b[3] == sum.0
  }

  /** Section 2.2 of RFC 1950: deflate method, window up to 32K, check bits, no dictionary. */
  predicate ValidHeader(cmf: byte, flg: byte)
  {
    cmf % 16 == 8 && cmf / 16 <= 7 && (256 * (cmf as int) + flg) % 31 == 0 && flg / 32 % 2 == 0
  }

  /** After the last block: the next whole byte starts the checksum, and nothing follows it. */
  function CheckTail(data: seq<byte>, bits: Bitstream): (r: Option<seq<byte>>)
    ensures r.Some? ==> r.value == data
  {
    var sum := ReadBytes(Align(bits), 4);
    if sum.Some? && |sum.value.1| == 0 && IsChecksum(sum.value.0, Adler32(data)) then Some(data) else None
  }

  function DecodeBody(bits: Bitstream): (r: Option<seq<byte>>)
  {
    var body := InflateBlocks(bits, []);
    if body.None? then None else CheckTail(body.value.0, body.value.1)
  }

  /** A zlib stream: two header bytes, DEFLATE data, checksum, nothing more. */
  function ZlibDecode(s: seq<byte>): (r: Option<seq<byte>>)
  {
    if |s| < 2 || !ValidHeader(s[0], s[1]) then None else DecodeBody(BytesToBits(s[2..]))
  }
}

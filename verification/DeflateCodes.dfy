/** The bit patterns the DEFLATE writer gives to tokens, and the theorem that the
    RFC 1951 reader takes them back. */
module DeflateCodes {
  import opened Bits
  import opened Inflate

  /** Code and width of a literal/length symbol, before bit reversal. */
  function HuffCode(n: nat): (r: (nat, nat))
    requires n < 288
    ensures 7 <= r.1 <= 9
  {
    if n <= 143 then (0x30 + n, 8)
    else if n <= 255 then (0x190 + n - 144, 9)
    else if n <= 279 then (n - 256, 7)
    else (0xC0 + n - 280, 8)
  }

  function LitLenBits(n: nat): seq<bool>
    requires n < 288
  {
    MsbBits(HuffCode(n).0, HuffCode(n).1)
  }

  /** One past the longest length of length code 257 + j. */
  function LengthLimit(j: nat): nat
  {
    if j < 28 then LengthBase(j + 1) else 259
  }

  /** The first length code from j on that covers len. */
  function LengthCode(len: nat, j: nat): (r: nat)
    requires j < 29 && LengthBase(j) <= len <= 258
    ensures r < 29 && LengthBase(r) <= len < LengthLimit(r)
    decreases len, 29 - j
  {
    if len >= LengthLimit(j) then LengthCode(len, j + 1) else j
  }

  /** The first distance code from j on that covers dist. */
  function DistCode(dist: nat, j: nat): (r: nat)
    requires j < 30 && DistBase(j) <= dist < 32768
    ensures r < 30 && DistBase(r) <= dist < DistBase(r + 1)
    decreases dist, 30 - j
  {
    if dist >= DistBase(j + 1) then DistCode(dist, j + 1) else j
  }

  predicate ValidToken(t: Token)
  {
    t.Match? ==> 3 <= t.len <= 258 && 1 <= t.dist <= 32767
  }

  function LengthBits(len: nat): seq<bool>
    requires 3 <= len <= 258
  {
    var j := LengthCode(len, 0);
    LitLenBits(j + 257) + ToBits(len - LengthBase(j), LengthExtra(j))
  }

  function DistBits(dist: nat): seq<bool>
    requires 1 <= dist <= 32767
  {
    var j := DistCode(dist, 0);
    MsbBits(j, 5) + ToBits(dist - DistBase(j), DistExtra(j))
  }

  function TokenBits(t: Token): seq<bool>
    requires ValidToken(t)
  {
    match t
    case Literal(b) => LitLenBits(b)
    case Match(len, dist) => LengthBits(len) + DistBits(dist)
  }

  predicate ValidTokens(ts: seq<Token>)
  {
    forall i :: 0 <= i < |ts| ==> ValidToken(ts[i])
  }

  function TokensBits(ts: seq<Token>): seq<bool>
    requires ValidTokens(ts)
  {
    if |ts| == 0 then [] else TokenBits(ts[0]) + TokensBits(ts[1..])
  }

  /** What the reader has produced after all of `ts`. */
  function Expand(out: seq<byte>, ts: seq<Token>): (r: Option<seq<byte>>)
    decreases |ts|
  {
    if |ts| == 0 then Some(out)
    else
      var o := Apply(out, ts[0]);
      if o.None? then None else Expand(o.value, ts[1..])
  }

  // ----- the extra bits of a code reach exactly to the next code's base

  lemma Pow2Small()
    ensures Pow2(0) == 1 && Pow2(1) == 2 && Pow2(2) == 4 && Pow2(3) == 8 && Pow2(4) == 16 && Pow2(5) == 32
    ensures Pow2(6) == 64 && Pow2(7) == 128 && Pow2(8) == 256 && Pow2(9) == 512 && Pow2(10) == 1024
    ensures Pow2(11) == 2048 && Pow2(12) == 4096 && Pow2(13) == 8192
  {
  }

  lemma LengthSpan(j: nat)
    requires j < 29
    ensures LengthLimit(j) <= LengthBase(j) + Pow2(LengthExtra(j))
  {
    Pow2Small();
  }

  lemma DistSpan(j: nat)
    requires j < 30
    ensures DistBase(j + 1) <= DistBase(j) + Pow2(DistExtra(j))
  {
    Pow2Small();
  }

  // ----- reading back single fields

  lemma ReadBitsBack(v: nat, n: nat, rest: Bitstream)
    requires v < Pow2(n)
    ensures ReadBits(ToBits(v, n) + rest, n) == Some((v, rest))
  {
    FromToBits(v, n);
    assert (ToBits(v, n) + rest)[..n] == ToBits(v, n);
    assert (ToBits(v, n) + rest)[n..] == rest;
  }

  lemma ReadCodeBack(v: nat, n: nat, rest: Bitstream)
    requires v < Pow2(n)
    ensures ReadCode(MsbBits(v, n) + rest, n) == Some((v, rest))
  {
    FromMsbBits(v, n);
    assert (MsbBits(v, n) + rest)[..n] == MsbBits(v, n);
    assert (MsbBits(v, n) + rest)[n..] == rest;
  }

  /** A shorter read of a code sees the code without its last bit. */
  lemma ReadCodeShort(v: nat, n: nat, rest: Bitstream)
    requires n > 0 && v < Pow2(n)
    ensures ReadCode(MsbBits(v, n) + rest, n - 1) == Some((v / 2, [v % 2 == 1] + rest))
  {
    MsbSnoc(v, n);
    ConcatAssoc(MsbBits(v / 2, n - 1), [v % 2 == 1], rest);
    ReadCodeBack(v / 2, n - 1, [v % 2 == 1] + rest);
  }

  /** The fixed code is prefix-free: any continuation leaves the symbol readable. */
  lemma {:induction false} LitLenBack(n: nat, rest: Bitstream)
    requires n < 288
    ensures DecodeLitLen(LitLenBits(n) + rest) == Some((n, rest))
  {
    Pow2Small();
    var (c, w) := HuffCode(n);
    ReadCodeBack(c, w, rest);
    if w > 7 {
      ReadCodeShort(c, w, rest);
    }
    if w == 9 {
      ReadCodeShorter(c, rest);
    }
  }

  lemma ReadCodeShorter(c: nat, rest: Bitstream)
    requires c < Pow2(9)
    ensures exists r :: ReadCode(MsbBits(c, 9) + rest, 7) == Some((c / 4, r))
  {
    var last := [c % 2 == 1] + rest;
    MsbSnoc(c, 9);
    ConcatAssoc(MsbBits(c / 2, 8), [c % 2 == 1], rest);
    ReadCodeShort(c / 2, 8, last);
    assert c / 2 / 2 == c / 4;
  }

  lemma DistBack(dist: nat, rest: Bitstream)
    requires 1 <= dist <= 32767
    ensures DecodeDist(DistBits(dist) + rest) == Some((dist, rest))
  {
    var j := DistCode(dist, 0);
    DistSpan(j);
    Pow2Small();
    var v, n := dist - DistBase(j), DistExtra(j);
    ConcatAssoc(MsbBits(j, 5), ToBits(v, n), rest);
    ReadCodeBack(j, 5, ToBits(v, n) + rest);
    ReadBitsBack(v, n, rest);
  }

  lemma MatchBack(len: nat, dist: nat, j: nat, rest: Bitstream)
    requires 1 <= dist <= 32767 && j < 29 && LengthBase(j) <= len < LengthLimit(j)
    ensures DecodeMatch(j, ToBits(len - LengthBase(j), LengthExtra(j)) + (DistBits(dist) + rest))
         == Some((Tok(Match(len, dist)), rest))
  {
    LengthSpan(j);
    MatchPartsBack(len, dist, j, len - LengthBase(j), LengthExtra(j), DistBits(dist), rest);
  }

  lemma MatchPartsBack(len: nat, dist: nat, j: nat, v: nat, n: nat, bits: Bitstream, rest: Bitstream)
    requires 1 <= dist <= 32767 && n == LengthExtra(j) && len == LengthBase(j) + v && v < Pow2(n)
    requires bits == DistBits(dist)
    ensures DecodeMatch(j, ToBits(v, n) + (bits + rest)) == Some((Tok(Match(len, dist)), rest))
  {
    ReadBitsBack(v, n, bits + rest);
    DistBack(dist, rest);
  }

  lemma TokenBack(t: Token, rest: Bitstream)
    requires ValidToken(t)
    ensures DecodeItem(TokenBits(t) + rest) == Some((Tok(t), rest))
  {
    match t
    case Literal(b) => LitLenBack(b, rest);
    case Match(len, dist) => MatchTokenBack(len, dist, rest);
  }

  lemma MatchTokenBack(len: nat, dist: nat, rest: Bitstream)
    requires ValidToken(Match(len, dist))
    ensures DecodeItem(TokenBits(Match(len, dist)) + rest) == Some((Tok(Match(len, dist)), rest))
  {
    var j := LengthCode(len, 0);
    var extra := ToBits(len - LengthBase(j), LengthExtra(j));
    var tail := extra + (DistBits(dist) + rest);
    ConcatAssoc(LengthBits(len), DistBits(dist), rest);
    ConcatAssoc(LitLenBits(j + 257), extra, DistBits(dist) + rest);
    LitLenBack(j + 257, tail);
    MatchBack(len, dist, j, rest);
  }

  /** A whole fixed block decodes to the expansion of its tokens. */
  lemma {:induction false} FixedBlockBack(ts: seq<Token>, out: seq<byte>, rest: Bitstream)
    requires ValidTokens(ts) && Expand(out, ts).Some?
    ensures InflateFixed(TokensBits(ts) + LitLenBits(256) + rest, out) == Some((Expand(out, ts).value, rest))
    decreases |ts|
  {
    if |ts| == 0 {
      assert TokensBits(ts) + LitLenBits(256) + rest == LitLenBits(256) + rest;
      LitLenBack(256, rest);
    } else {
      var tail := TokensBits(ts[1..]) + LitLenBits(256) + rest;
      ConcatAssoc(TokenBits(ts[0]), TokensBits(ts[1..]), LitLenBits(256));
      ConcatAssoc(TokenBits(ts[0]), TokensBits(ts[1..]) + LitLenBits(256), rest);
      TokenBack(ts[0], tail);
      FixedBlockBack(ts[1..], Apply(out, ts[0]).value, rest);
    }
  }

  // ----- growing a token sequence at its end

  lemma {:induction false} TokensBitsSnoc(ts: seq<Token>, t: Token)
    requires ValidTokens(ts) && ValidToken(t)
    ensures ValidTokens(ts + [t])
    ensures TokensBits(ts + [t]) == TokensBits(ts) + TokenBits(t)
  {
    if |ts| == 0 {
      assert ts + [t] == [t];
      assert [t][1..] == [];
      assert TokensBits([t]) == TokenBits(t) + TokensBits([]);
    } else {
      TokensBitsSnoc(ts[1..], t);
      assert (ts + [t])[1..] == ts[1..] + [t];
      ConcatAssoc(TokenBits(ts[0]), TokensBits(ts[1..]), TokenBits(t));
    }
  }

  lemma {:induction false} ExpandSnoc(out: seq<byte>, ts: seq<Token>, t: Token)
    requires Expand(out, ts).Some?
    ensures Expand(out, ts + [t]) == Apply(Expand(out, ts).value, t)
    decreases |ts|
  {
    if |ts| == 0 {
      assert ts + [t] == [t];
      assert [t][1..] == [];
    } else {
      ExpandSnoc(Apply(out, ts[0]).value, ts[1..], t);
      assert (ts + [t])[1..] == ts[1..] + [t];
    }
  }

  /** Copying inside a buffer whose next `len` bytes repeat those `dist` back extends it. */
  lemma {:induction false} CopyExtends(data: seq<byte>, i: nat, len: nat, dist: nat)
    requires 0 < dist <= i && i + len <= |data|
    requires data[i - dist..i - dist + len] == data[i..i + len]
    ensures Copy(data[..i], len, dist) == data[..i + len]
    decreases len
  {
    if len != 0 {
      var a, b := data[i - dist..i - dist + len], data[i..i + len];
      assert data[..i] + [data[..i][i - dist]] == data[..i + 1] by { assert a[0] == b[0]; }
      assert a[1..] == data[i + 1 - dist..i + 1 - dist + (len - 1)];
      assert b[1..] == data[i + 1..i + 1 + (len - 1)];
      CopyExtends(data, i + 1, len - 1, dist);
    }
  }
}

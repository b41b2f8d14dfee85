/** Decoding a BC6H block, and the bounds on every texel it can produce. */
module Bc6h {
  import opened Bits
  import opened BcTables
  import opened Bc6hRegister
  import opened Bc6hModes
  import opened Bc6hHeader
  import opened Bc6hValues
  import opened Bc6hEndpoints

  // ----- what a block means

  /** The register after k bits have been taken out. */
  function Rest(bits: seq<bool>, k: nat): (r: seq<bool>)
    requires k <= |bits|
    ensures |r| == |bits|
  {
    bits[k..] + Zeros(k)
  }

  /** Table index of the block's mode, unless it is reserved. */
  function BlockMode(bits: seq<bool>): (m: Option<nat>)
    requires |bits| == 128
    ensures m.Some? ==> m.value < 14
  {
    ModeToIndex(FromBits(bits[..if bits[1] then 5 else 2]))
  }

  lemma HeaderFits(m: nat)
    requires m < 14
    ensures Offset(FieldsOf(m), |FieldsOf(m)|) <= 128
  {
    HeaderSane(FieldsOf(m), m);
  }

  /** What the header stores in a channel. */
  function Raw(bits: seq<bool>, m: nat, ep: nat, ch: Channel): nat
    requires |bits| == 128 && m < 14
  {
    HeaderFits(m);
    ChannelValue(Rest(bits, ModeWidth(m)), FieldsOf(m), |FieldsOf(m)|, ep, ch)
  }

  lemma RawFits(bits: seq<bool>, m: nat, ep: nat, ch: Channel)
    requires |bits| == 128 && m < 14
    ensures Raw(bits, m, ep, ch) < Pow2(StoredBits(m, ep, ch)) <= 0x1_0000
  {
    HeaderFits(m);
    ChannelFits(Rest(bits, ModeWidth(m)), FieldsOf(m), m, ep, ch, StoredBits(m, ep, ch), Raw(bits, m, ep, ch));
    StoredAtMost16(m, ep, ch);
    Pow2Mono(StoredBits(m, ep, ch), 16);
    Pow2Word();
  }

  lemma EndpointSizes(m: nat, ep: nat, ch: Channel)
    requires m < 14 && ep < 2 * ModeOf(m).partitions
    ensures Sizes(ModeOf(m), StoredBits(m, ep, ch), ep) && ModeOf(m).partitions <= 2
  {
  }

  function Weight3(k: nat): (w: nat)
    ensures w <= 64
  {
    match k case 0 => 0 case 1 => 9 case 2 => 18 case 3 => 27 case 4 => 37 case 5 => 46 case 6 => 55 case _ => 64
  }

  function Weight4(k: nat): (w: nat)
    ensures w <= 64
  {
    match k
    case 0 => 0 case 1 => 4 case 2 => 9 case 3 => 13 case 4 => 17 case 5 => 21 case 6 => 26 case 7 => 30
    case 8 => 34 case 9 => 38 case 10 => 43 case 11 => 47 case 12 => 51 case 13 => 55 case 14 => 60 case _ => 64
  }

  /** One channel of a texel between two endpoints. */
  function Blend(isSigned: bool, e0: U16, e1: U16, w: nat): U16
    requires w <= 64
  {
    if isSigned then FinishSigned(Interpolate(SignExtend(e0, 16), SignExtend(e1, 16), w))
    else FinishUnsigned(Interpolate(e0, e1, w))
  }

  lemma ExtendWord(c: U16)
    ensures SignExtend(c, 16) == S16(c)
  {
    Pow2Word();
    Pow2Half();
    SignExtendMeans(c, 16);
  }

  lemma BlendFinite(isSigned: bool, e0: U16, e1: U16, w: nat)
    requires w <= 64 && (isSigned ==> S16(e0) != -0x8000 && S16(e1) != -0x8000)
    ensures Finite(Blend(isSigned, e0, e1, w))
  {
    if isSigned {
      ExtendWord(e0);
      ExtendWord(e1);
      SignedFiniteAbove(S16(e0), S16(e1), w);
    } else {
      UnsignedFinite(e0, e1, w);
    }
  }

  predicate HighEnough(e0: U16, e1: U16, w: nat)
  {
    HighMean(S16(e0), S16(e1), w)
  }

  lemma BlendFiniteIff(e0: U16, e1: U16, w: nat)
    requires w <= 64
    ensures Finite(Blend(true, e0, e1, w)) <==> HighEnough(e0, e1, w)
  {
    ExtendWord(e0);
    ExtendWord(e1);
    SignedFinite(S16(e0), S16(e1), w);
  }

  // ----- preparing the endpoints

  /** Stored channels and sizes of the endpoints, by row. */
  ghost function RawRow(bits: seq<bool>, m: nat, ep: nat): (r: seq<U16>)
    requires |bits| == 128 && m < 14
    ensures |r| == 3
  {
    RawFits(bits, m, ep, R);
    RawFits(bits, m, ep, G);
    RawFits(bits, m, ep, B);
    [Raw(bits, m, ep, R), Raw(bits, m, ep, G), Raw(bits, m, ep, B)]
  }

  function SizeRow(m: nat, ep: nat): (r: seq<nat>)
    ensures |r| == 3
  {
    [StoredBits(m, ep, R), StoredBits(m, ep, G), StoredBits(m, ep, B)]
  }

  function EndpointCount(m: nat): (n: nat)
    requires m < 14
    ensures n == 2 || n == 4
  {
    2 * ModeOf(m).partitions
  }

  ghost function RawRows(bits: seq<bool>, m: nat): (r: seq<seq<U16>>)
    requires |bits| == 128 && m < 14
    ensures |r| == EndpointCount(m)
  {
    seq(EndpointCount(m), k requires 0 <= k < EndpointCount(m) => RawRow(bits, m, k))
  }

  ghost function SizeRows(m: nat): (r: seq<seq<nat>>)
    requires m < 14
    ensures |r| == EndpointCount(m)
  {
    seq(EndpointCount(m), k requires 0 <= k < EndpointCount(m) => SizeRow(m, k))
  }

  lemma RowsStored(bits: seq<bool>, m: nat)
    requires |bits| == 128 && m < 14
    ensures Stored(ModeOf(m), RawRows(bits, m), SizeRows(m), EndpointCount(m))
  {
    forall k, i | 0 <= k < EndpointCount(m) && 0 <= i < 3
      ensures Sizes(ModeOf(m), SizeRows(m)[k][i], k) && RawRows(bits, m)[k][i] < Pow2(SizeRows(m)[k][i])
    {
      RowFine(bits, m, k, i);
    }
  }

  lemma RowFine(bits: seq<bool>, m: nat, ep: nat, i: nat)
    requires |bits| == 128 && m < 14 && ep < EndpointCount(m) && i < 3
    ensures Sizes(ModeOf(m), SizeRow(m, ep)[i], ep) && RawRow(bits, m, ep)[i] < Pow2(SizeRow(m, ep)[i])
  {
    RowSizes(m, ep);
    RowFits(bits, m, ep, i);
  }

  lemma RowSizes(m: nat, ep: nat)
    requires m < 14 && ep < EndpointCount(m)
    ensures var z := SizeRow(m, ep);
              Sizes(ModeOf(m), z[0], ep) && Sizes(ModeOf(m), z[1], ep) && Sizes(ModeOf(m), z[2], ep)
  {
    EndpointSizes(m, ep, R);
    EndpointSizes(m, ep, G);
    EndpointSizes(m, ep, B);
  }

  lemma RowFits(bits: seq<bool>, m: nat, ep: nat, i: nat)
    requires |bits| == 128 && m < 14 && i < 3
    ensures RawRow(bits, m, ep)[i] < Pow2(SizeRow(m, ep)[i])
  {
    RawFits(bits, m, ep, if i == 0 then R else if i == 1 then G else B);
  }

  lemma SizeRowPositive(m: nat, ep: nat)
    requires m < 14 && ep < EndpointCount(m)
    ensures forall i :: 0 <= i < 3 ==> 0 < SizeRow(m, ep)[i] <= 16
  {
    EndpointSizes(m, ep, R);
    EndpointSizes(m, ep, G);
    EndpointSizes(m, ep, B);
  }

  method MakeEnd(raw: array2<nat>, ghost row: seq<U16>, m: nat, ep: nat, isSigned: bool) returns (x: Rgbf)
    requires m < 14 && ep < EndpointCount(m) && raw.Length0 == 5 && raw.Length1 == 3
    requires [raw[ep, 0], raw[ep, 1], raw[ep, 2]] == row
    ensures fresh(x) && x.Valid() && x.channel == row && x.size == SizeRow(m, ep) && x.isSigned == isSigned
  {
    SizeRowPositive(m, ep);
    assert raw[ep, 0] == row[0] && raw[ep, 1] == row[1] && raw[ep, 2] == row[2];
    x := new Rgbf([raw[ep, 0], raw[ep, 1], raw[ep, 2]], SizeRow(m, ep), isSigned);
  }

  /** The endpoint objects as the header leaves them. */
  method MakeEnds(raw: array2<nat>, ghost rows: seq<seq<U16>>, m: nat, isSigned: bool) returns (e: seq<Rgbf>)
    requires m < 14 && raw.Length0 == 5 && raw.Length1 == 3 && |rows| == EndpointCount(m)
    requires forall ep :: 0 <= ep < |rows| ==> [raw[ep, 0], raw[ep, 1], raw[ep, 2]] == rows[ep]
    ensures |e| == |rows| && (forall k :: 0 <= k < |e| ==> fresh(e[k])) && Distinct(e) && AllValid(e)
    ensures forall k :: 0 <= k < |e| ==>
              e[k].channel == rows[k] && e[k].size == SizeRow(m, k) && e[k].isSigned == isSigned
  {
    e := [];
    var n := EndpointCount(m);
    for ep := 0 to n
      invariant |e| == ep && Distinct(e) && AllValid(e) && (forall k :: 0 <= k < |e| ==> fresh(e[k]))
      invariant forall k :: 0 <= k < |e| ==>
                  e[k].channel == rows[k] && e[k].size == SizeRow(m, k) && e[k].isSigned == isSigned
    {
      var x := MakeEnd(raw, rows[ep], m, ep, isSigned);
      e := e + [x];
    }
  }

  /** The channels hold what the header stores. */
  ghost predicate HeaderDone(raw: array2<nat>, bits: seq<bool>, m: nat)
    requires |bits| == 128 && m < 14 && raw.Length0 == 5 && raw.Length1 == 3
    reads raw
  {
    forall ep, ch :: 0 <= ep <= PARTITION ==> raw[ep, Number(ch)] == Raw(bits, m, ep, ch)
  }

  lemma ReadRows(raw: array2<nat>, bits: seq<bool>, m: nat, ep: nat)
    requires |bits| == 128 && m < 14 && raw.Length0 == 5 && raw.Length1 == 3 && ep < EndpointCount(m)
    requires HeaderDone(raw, bits, m)
    ensures [raw[ep, 0], raw[ep, 1], raw[ep, 2]] == RawRow(bits, m, ep)
  {
    assert Number(R) == 0 && Number(G) == 1 && Number(B) == 2;
    assert raw[ep, Number(R)] == Raw(bits, m, ep, R);
    assert raw[ep, Number(G)] == Raw(bits, m, ep, G);
    assert raw[ep, Number(B)] == Raw(bits, m, ep, B);
  }

  /** The values of the endpoints used for interpolation. */
  ghost function EndRows(bits: seq<bool>, m: nat, isSigned: bool): (rows: seq<seq<U16>>)
    requires |bits| == 128 && m < 14
    ensures |rows| == EndpointCount(m) && ThreeEach(rows)
  {
    RowsStored(bits, m);
    FinalRows(ModeOf(m), isSigned, RawRows(bits, m), SizeRows(m))
  }

  /** From stored channels to endpoints ready for interpolation. */
  method PrepareEnds(raw: array2<nat>, ghost bits: seq<bool>, m: nat, isSigned: bool) returns (e: seq<Rgbf>)
    requires |bits| == 128 && m < 14 && raw.Length0 == 5 && raw.Length1 == 3 && HeaderDone(raw, bits, m)
    ensures Prepared(e, EndRows(bits, m, isSigned)) && forall k :: 0 <= k < |e| ==> fresh(e[k])
  {
    ghost var raws, sizes := RawRows(bits, m), SizeRows(m);
    forall ep | 0 <= ep < |raws|
      ensures [raw[ep, 0], raw[ep, 1], raw[ep, 2]] == raws[ep]
    {
      ReadRows(raw, bits, m, ep);
    }
    e := MakeEnds(raw, raws, m, isSigned);
    RowsStored(bits, m);
    var d := ModeOf(m);
    assert AtStart(e, d, isSigned, raws, sizes);
    ExtendEnds(e, d, isSigned, raws, sizes);
    ResolveEnds(e, d, isSigned, raws, sizes);
    UnquantizeEnds(e, d, isSigned, raws, sizes);
    FinalIsPrepared(e, d, isSigned, raws, sizes);
  }

  // ----- indices and texels

  /** Bits of the indices before texel t: n for each, one less for texel 0 and for texel a. */
  function IndexPos(n: nat, a: nat, t: nat): nat
    requires n >= 2
  {
    n * t - (if t > 0 then 1 else 0) - if a < t then 1 else 0
  }

  function IndexSize(n: nat, a: nat, t: nat): nat
    requires n >= 2
  {
    if t == 0 || t == a then n - 1 else n
  }

  lemma IndexStep(n: nat, a: nat, t: nat)
    requires n >= 2 && a > 0
    ensures IndexPos(n, a, t + 1) == IndexPos(n, a, t) + IndexSize(n, a, t)
  {
  }

  lemma IndexPosMono(n: nat, a: nat, t: nat, u: nat)
    requires n >= 2 && a > 0 && t <= u
    ensures IndexPos(n, a, t) <= IndexPos(n, a, u)
  {
    assert n * (u - t) >= 2 * (u - t) && n * u == n * t + n * (u - t);
  }

  /** The index of texel t; the indices are the last bits of the block. */
  function Index(bits: seq<bool>, n: nat, a: nat, t: nat): (k: nat)
    requires |bits| == 128 && 2 <= n <= 4 && 0 < a && t < 16
    ensures k < Pow2(n)
  {
    IndexPosMono(n, a, t, t + 1);
    IndexPosMono(n, a, t + 1, 16);
    IndexStep(n, a, t);
    var start := 128 - IndexPos(n, a, 16);
    var s := bits[start + IndexPos(n, a, t)..start + IndexPos(n, a, t + 1)];
    ToFromBits(s);
    Pow2Mono(|s|, n);
    FromBits(s)
  }

  /** What the partition number selects: index size, second anchor, subset of each texel. */
  datatype Shape = Shape(n: nat, second: nat, region: seq<nat>)

  /** The shape refers to no more than `ends` endpoints. */
  predicate Fitting(s: Shape, ends: nat)
  {
    && 2 <= s.n <= 4 && 0 < s.second && |s.region| == 16
    && forall t :: 0 <= t < 16 ==> 2 * s.region[t] + 1 < ends
  }

  function ShapeOf(m: nat, p: nat): (s: Shape)
    requires m < 14 && p < 64
    ensures Fitting(s, EndpointCount(m)) && IndexPos(s.n, s.second, 16) == IndexWidth(m)
  {
    if ModeOf(m).partitions == 1 then Shape(4, 16, seq(16, _ => 0)) else Shape(3, Anchor2(p), Partition2(p))
  }

  function WeightOf(n: nat, k: nat): (w: nat)
    ensures w <= 64
  {
    if n == 4 then Weight4(k) else Weight3(k)
  }

  function PartitionNumber(bits: seq<bool>, m: nat): (p: nat)
    requires |bits| == 128 && m < 14
    ensures p < 64
  {
    PartitionSmall(bits, m);
    Raw(bits, m, PARTITION, R)
  }

  lemma PartitionSmall(bits: seq<bool>, m: nat)
    requires |bits| == 128 && m < 14
    ensures Raw(bits, m, PARTITION, R) < 64
  {
    RawFits(bits, m, PARTITION, R);
    assert StoredBits(m, PARTITION, R) <= 5;
    Pow2Mono(StoredBits(m, PARTITION, R), 5);
    assert Pow2(5) == 32;
  }

  function BlendRow(isSigned: bool, e0: seq<U16>, e1: seq<U16>, w: nat): (c: seq<U16>)
    requires |e0| == 3 && |e1| == 3 && w <= 64
    ensures |c| == 3
  {
    [Blend(isSigned, e0[0], e1[0], w), Blend(isSigned, e0[1], e1[1], w), Blend(isSigned, e0[2], e1[2], w)]
  }

  /** Texel t of a block with these endpoints. */
  function TexelRow(rows: seq<seq<U16>>, bits: seq<bool>, isSigned: bool, s: Shape, t: nat): (c: seq<U16>)
    requires |bits| == 128 && t < 16 && ThreeEach(rows) && Fitting(s, |rows|)
    ensures |c| == 3
  {
    BlendRow(isSigned, rows[2 * s.region[t]], rows[2 * s.region[t] + 1], WeightOf(s.n, Index(bits, s.n, s.second, t)))
  }

  /** The three channels of texel t. */
  ghost function Texel(bits: seq<bool>, m: nat, isSigned: bool, t: nat): (c: seq<U16>)
    requires |bits| == 128 && m < 14 && t < 16
    ensures |c| == 3
  {
    TexelRow(EndRows(bits, m, isSigned), bits, isSigned, ShapeOf(m, PartitionNumber(bits, m)), t)
  }

  lemma RowsAbove(bits: seq<bool>, m: nat)
    requires |bits| == 128 && m < 14 && ModeOf(m).endpointBits < 16
    ensures Above(EndRows(bits, m, true))
  {
    RowsStored(bits, m);
    FinalRowsAbove(ModeOf(m), RawRows(bits, m), SizeRows(m));
  }

  lemma RowFinite(rows: seq<seq<U16>>, bits: seq<bool>, isSigned: bool, s: Shape, t: nat, i: nat)
    requires |bits| == 128 && t < 16 && ThreeEach(rows) && Fitting(s, |rows|) && i < 3 && (isSigned ==> Above(rows))
    ensures Finite(TexelRow(rows, bits, isSigned, s, t)[i])
  {
    var ep := 2 * s.region[t];
    BlendFinite(isSigned, rows[ep][i], rows[ep + 1][i], WeightOf(s.n, Index(bits, s.n, s.second, t)));
  }

  /** No texel of an unsigned block, nor of a signed block of a mode below 16 bits, is infinite, a
      NaN or a negative zero. */
  lemma BlockFinite(bits: seq<bool>, m: nat, isSigned: bool, t: nat, i: nat)
    requires |bits| == 128 && m < 14 && t < 16 && i < 3 && (!isSigned || ModeOf(m).endpointBits < 16)
    ensures Finite(Texel(bits, m, isSigned, t)[i])
  {
    if isSigned {
      RowsAbove(bits, m);
    }
    RowFinite(EndRows(bits, m, isSigned), bits, isSigned, ShapeOf(m, PartitionNumber(bits, m)), t, i);
  }

  /** The endpoints of texel t, weighted by its index, stay above the most negative number. */
  predicate TexelHigh(rows: seq<seq<U16>>, bits: seq<bool>, s: Shape, t: nat, i: nat)
    requires |bits| == 128 && t < 16 && ThreeEach(rows) && Fitting(s, |rows|) && i < 3
  {
    HighEnough(rows[2 * s.region[t]][i], rows[2 * s.region[t] + 1][i], WeightOf(s.n, Index(bits, s.n, s.second, t)))
  }

  lemma RowFiniteIff(rows: seq<seq<U16>>, bits: seq<bool>, s: Shape, t: nat, i: nat)
    requires |bits| == 128 && t < 16 && ThreeEach(rows) && Fitting(s, |rows|) && i < 3
    ensures Finite(TexelRow(rows, bits, true, s, t)[i]) <==> TexelHigh(rows, bits, s, t, i)
  {
    var ep := 2 * s.region[t];
    BlendFiniteIff(rows[ep][i], rows[ep + 1][i], WeightOf(s.n, Index(bits, s.n, s.second, t)));
  }

  /** Exactly when a texel of any signed block is finite, told from its endpoints. */
  lemma EndsFiniteIff(bits: seq<bool>, m: nat, t: nat, i: nat)
    requires |bits| == 128 && m < 14 && t < 16 && i < 3
    ensures Finite(Texel(bits, m, true, t)[i]) <==>
              TexelHigh(EndRows(bits, m, true), bits, ShapeOf(m, PartitionNumber(bits, m)), t, i)
  {
    RowFiniteIff(EndRows(bits, m, true), bits, ShapeOf(m, PartitionNumber(bits, m)), t, i);
  }

  // ----- decoding

  lemma RestTwice(bits: seq<bool>, k: nat, n: nat)
    requires k + n <= |bits|
    ensures Rest(Rest(bits, k), n) == Rest(bits, k + n)
  {
  }

  lemma RestFront(bits: seq<bool>, k: nat, n: nat)
    requires k + n <= |bits|
    ensures Rest(bits, k)[..n] == bits[k..k + n]
  {
  }

  /** Takes the index of texel t out of the register. */
  method ReadIndex(data: Data, ghost bits: seq<bool>, n: nat, a: nat, t: nat) returns (k: nat)
    requires data.Valid() && |bits| == 128 && 2 <= n <= 4 && 0 < a && t < 16 && IndexPos(n, a, 16) <= 128
    requires data.Contents() == Rest(bits, 128 - IndexPos(n, a, 16) + IndexPos(n, a, t))
    modifies data
    ensures IndexPos(n, a, t + 1) <= IndexPos(n, a, 16)
    ensures data.Valid() && data.Contents() == Rest(bits, 128 - IndexPos(n, a, 16) + IndexPos(n, a, t + 1))
    ensures k == Index(bits, n, a, t)
  {
    var size := if t == 0 || t == a then n - 1 else n;
    ghost var start := 128 - IndexPos(n, a, 16) + IndexPos(n, a, t);
    IndexSlice(bits, n, a, t, start, size);
    k := TakeIndex(data, bits, start, size);
  }

  /** Takes `size` bits out of the register. */
  method TakeIndex(data: Data, ghost bits: seq<bool>, ghost start: nat, size: nat) returns (k: nat)
    requires data.Valid() && 0 < size < 5 && start + size <= |bits| == 128 && data.Contents() == Rest(bits, start)
    modifies data
    ensures data.Valid() && data.Contents() == Rest(bits, start + size) && k == FromBits(bits[start..start + size])
  {
    RestTwice(bits, start, size);
    RestFront(bits, start, size);
    k := data.ConsumeBits(size - 1, 0);
  }

  lemma IndexSlice(bits: seq<bool>, n: nat, a: nat, t: nat, start: nat, size: nat)
    requires |bits| == 128 && 2 <= n <= 4 && 0 < a && t < 16 && IndexPos(n, a, 16) <= 128
    requires start == 128 - IndexPos(n, a, 16) + IndexPos(n, a, t) && size == IndexSize(n, a, t)
    ensures IndexPos(n, a, t + 1) == IndexPos(n, a, t) + size && IndexPos(n, a, t + 1) <= IndexPos(n, a, 16)
    ensures Index(bits, n, a, t) == FromBits(bits[start..start + size])
  {
    IndexStep(n, a, t);
    IndexPosMono(n, a, t + 1, 16);
  }

  /** Reads the sixteen indices and interpolates; the register is then used up. */
  method DecodeTexels(data: Data, e: seq<Rgbf>, ghost rows: seq<seq<U16>>, ghost bits: seq<bool>, isSigned: bool,
                      s: Shape) returns (out: seq<seq<U16>>)
    requires data.Valid() && |bits| == 128 && Prepared(e, rows) && Fitting(s, |rows|)
    requires IndexPos(s.n, s.second, 16) <= 128
    requires data.Contents() == Rest(bits, 128 - IndexPos(s.n, s.second, 16))
    modifies data
    ensures data.Valid() && data.Contents() == Rest(bits, 128)
    ensures |out| == 16 && forall t :: 0 <= t < 16 ==> out[t] == TexelRow(rows, bits, isSigned, s, t)
  {
    out := [];
    for t := 0 to 16
      invariant data.Valid() && IndexPos(s.n, s.second, t) <= IndexPos(s.n, s.second, 16)
      invariant data.Contents() == Rest(bits, 128 - IndexPos(s.n, s.second, 16) + IndexPos(s.n, s.second, t))
      invariant |out| == t && forall u :: 0 <= u < t ==> out[u] == TexelRow(rows, bits, isSigned, s, u)
    {
      var k := ReadIndex(data, bits, s.n, s.second, t);
      var ep := 2 * s.region[t];
      out := out + [BlendRow(isSigned, e[ep].channel, e[ep + 1].channel, WeightOf(s.n, k))];
    }
  }

  /** The width of the mode number tells the two shortest modes. */
  lemma ModeBits(bits: seq<bool>)
    requires |bits| == 128 && BlockMode(bits).Some?
    ensures ModeWidth(BlockMode(bits).value) == if bits[1] then 5 else 2
  {
    var s := bits[..if bits[1] then 5 else 2];
    LowTwo(s);
    SecondBit(Bit(s[0]), Bit(s[1]), FromBits(s[2..]));
  }

  lemma LowTwo(s: seq<bool>)
    requires |s| >= 2
    ensures FromBits(s) == Bit(s[0]) + 2 * Bit(s[1]) + 4 * FromBits(s[2..])
  {
    assert s[1..][1..] == s[2..];
    assert FromBits(s[1..]) == Bit(s[1]) + 2 * FromBits(s[2..]);
  }

  lemma SecondBit(a: nat, b: nat, w: nat)
    requires a < 2 && b < 2
    ensures (a + 2 * b + 4 * w) / 2 % 2 == b
  {
    assert (a + 2 * b + 4 * w) / 2 == b + 2 * w;
  }

  lemma TexelsFinite(bits: seq<bool>, m: nat, isSigned: bool, out: seq<seq<U16>>)
    requires |bits| == 128 && m < 14 && |out| == 16 && forall t :: 0 <= t < 16 ==>
               |out[t]| == 3 && out[t] == Texel(bits, m, isSigned, t)
    ensures !isSigned || ModeOf(m).endpointBits < 16 ==> forall t, i :: 0 <= t < 16 && 0 <= i < 3 ==> Finite(out[t][i])
  {
    if !isSigned || ModeOf(m).endpointBits < 16 {
      forall t, i | 0 <= t < 16 && 0 <= i < 3 ensures Finite(out[t][i]) { BlockFinite(bits, m, isSigned, t, i); }
    }
  }

  method ReadMode(data: Data, ghost bits: seq<bool>) returns (mode: nat)
    requires data.Valid() && |bits| == 128 && data.Contents() == bits
    modifies data
    ensures data.Valid() && data.Contents() == Rest(bits, if bits[1] then 5 else 2)
    ensures BlockMode(bits) == ModeToIndex(mode)
  {
    assert bits[1] == BitAt(data.low, 1);
    if data.low / 2 % 2 == 0 {
      mode := data.ConsumeBits(1, 0);
    } else {
      mode := data.ConsumeBits(4, 0);
    }
  }

  /** Reads the header of a legal mode. */
  method ReadHeader(data: Data, ghost bits: seq<bool>, m: nat) returns (raw: array2<nat>)
    requires data.Valid() && |bits| == 128 && m < 14 && data.Contents() == Rest(bits, ModeWidth(m))
    modifies data
    ensures fresh(raw) && raw.Length0 == 5 && raw.Length1 == 3 && HeaderDone(raw, bits, m)
    ensures data.Valid() && data.Contents() == Rest(bits, 128 - IndexWidth(m))
  {
    HeaderSane(FieldsOf(m), m);
    RestTwice(bits, ModeWidth(m), Offset(FieldsOf(m), |FieldsOf(m)|));
    raw := ReadFields(data, FieldsOf(m));
    ReadIsDone(raw, bits, m);
  }

  lemma ReadIsDone(raw: array2<nat>, bits: seq<bool>, m: nat)
    requires |bits| == 128 && m < 14 && raw.Length0 == 5 && raw.Length1 == 3
    requires Offset(FieldsOf(m), |FieldsOf(m)|) <= 128
    requires HeaderRead(raw, Rest(bits, ModeWidth(m)), FieldsOf(m), |FieldsOf(m)|)
    ensures HeaderDone(raw, bits, m)
  {
  }

  method DecodeLegal(data: Data, ghost bits: seq<bool>, m: nat, isSigned: bool) returns (out: seq<seq<U16>>)
    requires data.Valid() && |bits| == 128 && m < 14 && data.Contents() == Rest(bits, ModeWidth(m))
    modifies data
    ensures data.Valid() && data.Contents() == Rest(bits, 128)
    ensures |out| == 16 && forall t :: 0 <= t < 16 ==> out[t] == Texel(bits, m, isSigned, t)
  {
    var raw := ReadHeader(data, bits, m);
    var p := raw[PARTITION, Number(R)];
    PartitionSmall(bits, m);
    assert p == Raw(bits, m, PARTITION, R);
    var e := PrepareEnds(raw, bits, m, isSigned);
    var s := ShapeOf(m, p);
    out := DecodeTexels(data, e, EndRows(bits, m, isSigned), bits, isSigned, s);
  }

  /** Sixteen texels of a block: each is what the block means, black for reserved modes, and finite
      unless the block is signed and its endpoints have 16 bits. */
  method Decode(low: nat, high: nat, isSigned: bool) returns (out: seq<seq<U16>>)
    requires low < Pow2(64) && high < Pow2(64)
    ensures |out| == 16 && forall t :: 0 <= t < 16 ==> |out[t]| == 3
    ensures var bits := Word128(low, high);
            match BlockMode(bits)
            case None => forall t :: 0 <= t < 16 ==> out[t] == [0, 0, 0]
            case Some(m) =>
              && (forall t :: 0 <= t < 16 ==> out[t] == Texel(bits, m, isSigned, t))
              && (!isSigned || ModeOf(m).endpointBits < 16 ==> forall t, i :: 0 <= t < 16 && 0 <= i < 3 ==>
                  Finite(out[t][i]))
  {
    var data := new Data(low, high);
    ghost var bits := data.Contents();
    var mode := ReadMode(data, bits);
    match ModeToIndex(mode)
    case None =>
      out := seq(16, _ => [0, 0, 0]);
    case Some(m) =>
      ModeBits(bits);
      out := DecodeLegal(data, bits, m, isSigned);
      TexelsFinite(bits, m, isSigned, out);
  }

  // ----- a signed 16-bit block that is not finite

  /** Mode 15, red base endpoint -32768, everything else zero. */
  ghost function LowestRed(): (bits: seq<bool>)
    ensures |bits| == 128
  {
    seq(128, i => i < 4 || i == 39)
  }

  lemma {:induction false} FromBitsZeros(n: nat)
    ensures FromBits(Zeros(n)) == 0 && FromMsb(Zeros(n)) == 0
  {
    if n > 0 {
      assert Zeros(n)[1..] == Zeros(n - 1) && Zeros(n)[..n - 1] == Zeros(n - 1);
      FromBitsZeros(n - 1);
    }
  }

  lemma LowestRedMode()
    ensures BlockMode(LowestRed()) == Some(9)
  {
    var s := LowestRed()[..5];
    assert s == [true, true, true, true, false];
    assert FromBits([false]) == 0 && [false][1..] == [];
    assert FromBits([true, false]) == 1 && [true, false][1..] == [false];
    assert FromBits([true, true, false]) == 3 && [true, true, false][1..] == [true, false];
    assert FromBits([true, true, true, false]) == 7 && [true, true, true, false][1..] == [true, true, false];
    assert FromBits(s) == 15 && s[1..] == [true, true, true, false];
  }

  lemma {:induction false} TopBitOnly(n: nat)
    ensures FromMsb([true] + Zeros(n)) == Pow2(n)
  {
    var s := [true] + Zeros(n);
    if n == 0 {
      assert s == [true] && s[..0] == [];
    } else {
      assert s[..n] == [true] + Zeros(n - 1);
      TopBitOnly(n - 1);
    }
  }

  /** Fields of mode 15 that are not the red base endpoint's leave it alone. */
  lemma OtherFields(bits: seq<bool>, fs: seq<Field>, i: nat)
    requires |bits| == 128 && fs == Mode9() && i < 9 && i != 0 && i != 4 && Offset(fs, 9) <= 128
    ensures Offset(fs, i + 1) <= 128 && ChannelValue(bits, fs, i + 1, 0, R) == ChannelValue(bits, fs, i, 0, R)
  {
    OffsetMono(fs, i + 1, 9);
    NothingRead(bits, fs, i, 0, R);
  }

  lemma RedOffsets(fs: seq<Field>)
    requires fs == Mode9()
    ensures Offset(fs, 1) == 10 && Offset(fs, 4) == 34 && Offset(fs, 5) == 40 && Offset(fs, 9) == 60
  {
    assert Offset(fs, 2) == 20 && Offset(fs, 3) == 30;
    assert Offset(fs, 6) == 44 && Offset(fs, 7) == 50 && Offset(fs, 8) == 54;
  }

  lemma RedTop(bits: seq<bool>, fs: seq<Field>)
    requires bits == Rest(LowestRed(), 5) && fs == Mode9() && Offset(fs, 4) == 34 && Offset(fs, 5) == 40
    ensures Contribution(bits, fs, 4, 0, R) == 0x8000
  {
    var x, y := Slice(bits, fs, 4), [true] + Zeros(5);
    assert |x| == 6;
    forall i | 0 <= i < 6
      ensures x[i] == y[i]
    {
      assert x[i] == bits[34 + i] == LowestRed()[39 + i];
    }
    assert x == y;
    TopBitOnly(5);
    Pow2Add(10, 5);
    Pow2Half();
  }

  lemma RedLow(bits: seq<bool>, fs: seq<Field>)
    requires bits == Rest(LowestRed(), 5) && fs == Mode9() && Offset(fs, 1) == 10
    ensures ChannelValue(bits, fs, 1, 0, R) == 0
  {
    assert Slice(bits, fs, 0) == Zeros(10);
    FromBitsZeros(10);
    assert ChannelValue(bits, fs, 0, 0, R) == 0;
  }

  lemma LowestRedRaw()
    ensures Raw(LowestRed(), 9, 0, R) == 0x8000
  {
    var bits, fs := Rest(LowestRed(), 5), Mode9();
    RedOffsets(fs);
    RedLow(bits, fs);
    OtherFields(bits, fs, 1);
    OtherFields(bits, fs, 2);
    OtherFields(bits, fs, 3);
    RedTop(bits, fs);
    assert ChannelValue(bits, fs, 5, 0, R) == 0x8000;
    OtherFields(bits, fs, 5);
    OtherFields(bits, fs, 6);
    OtherFields(bits, fs, 7);
    OtherFields(bits, fs, 8);
  }

  lemma LowestRedEnd()
    ensures EndRows(LowestRed(), 9, true)[0][0] == 0x8000
  {
    LowestRedRows();
    RowsStored(LowestRed(), 9);
    FinalLowest();
  }

  lemma LowestRedRows()
    ensures RawRows(LowestRed(), 9)[0][0] == 0x8000 && SizeRows(9)[0][0] == 16
  {
    LowestRedRaw();
    assert RawRows(LowestRed(), 9)[0] == RawRow(LowestRed(), 9, 0) && SizeRows(9)[0] == SizeRow(9, 0);
  }

  lemma FinalLowest()
    ensures Sizes(ModeOf(9), 16, 0) && Final(ModeOf(9), true, 0x8000, 0x8000, 16, 0) == 0x8000
  {
    ExtendWord(0x8000);
  }

  lemma LowestRedIndex()
    ensures Index(LowestRed(), 4, 16, 0) == 0
  {
    var bits := LowestRed();
    assert IndexPos(4, 16, 16) == 63 && IndexPos(4, 16, 0) == 0 && IndexPos(4, 16, 1) == 3;
    assert bits[65..68] == Zeros(3);
    FromBitsZeros(3);
  }

  lemma FirstTexelLow(rows: seq<seq<U16>>, bits: seq<bool>, s: Shape)
    requires |bits| == 128 && ThreeEach(rows) && Fitting(s, |rows|) && s.region[0] == 0 && s.n == 4
    requires rows[0][0] == 0x8000 && Index(bits, s.n, s.second, 0) == 0
    ensures !TexelHigh(rows, bits, s, 0, 0)
  {
  }

  /** The bound on signed blocks cannot be extended to 16-bit endpoints: this block's first texel is
      minus infinity. */
  lemma SixteenBitsNotFinite()
    ensures BlockMode(LowestRed()) == Some(9) && ModeOf(9).endpointBits == 16
    ensures !Finite(Texel(LowestRed(), 9, true, 0)[0])
  {
    LowestRedMode();
    LowestRedTexel();
  }

  lemma FirstTexelInfinite(rows: seq<seq<U16>>, bits: seq<bool>, s: Shape)
    requires |bits| == 128 && ThreeEach(rows) && Fitting(s, |rows|) && s.region[0] == 0 && s.n == 4
    requires rows[0][0] == 0x8000 && Index(bits, s.n, s.second, 0) == 0
    ensures !Finite(TexelRow(rows, bits, true, s, 0)[0])
  {
    FirstTexelLow(rows, bits, s);
    RowFiniteIff(rows, bits, s, 0, 0);
  }

  lemma LowestRedTexel()
    ensures !Finite(Texel(LowestRed(), 9, true, 0)[0])
  {
    LowestRedEnd();
    LowestRedIndex();
    FirstTexelInfinite(EndRows(LowestRed(), 9, true), LowestRed(), ShapeOf(9, PartitionNumber(LowestRed(), 9)));
  }
}

/** Which signed BC6H blocks have texels that are not finite, told from the stored fields: only
    those of the one mode with 16-bit endpoints, by its base, its delta and the texel's index. */
module Bc6hSigned {
  import opened Bits
  import opened Bc6hModes
  import opened Bc6hValues
  import opened Bc6hEndpoints
  import opened Bc6h

  /** The table index of mode 15. */
  const WIDEST: nat := 9

  lemma OnlyWidest(m: nat)
    requires m < 14
    ensures ModeOf(m).endpointBits < 16 <==> m != WIDEST
  {
  }

  /** A stored four-bit difference. */
  function Signed4(delta: nat): int
    requires delta < 16
  {
    if delta < 8 then delta else delta - 16
  }

  /** The lowest number is 0x8000. The texel between a stored base and its difference stays above
      it unless one endpoint is the lowest and the other too near or not weighted. */
  predicate StoredHigh(base: U16, delta: nat, index: nat)
    requires delta < 16
  {
    var d, w := Signed4(delta), Weight4(index);
    if base == 0x8000 then if d < 0 then w > 0 else d * w >= 32
    else if (base + d) % 0x1_0000 == 0x8000 then w < 64 && (d > 0 || -d * (64 - w) >= 32)
    else true
  }

  // ----- the endpoints of the mode

  lemma BaseKept(base: U16)
    ensures Sizes(ModeOf(WIDEST), 16, 0) && Final(ModeOf(WIDEST), true, base, base, 16, 0) == base
  {
    ExtendWord(base);
  }

  lemma DeltaExtended(delta: nat)
    requires delta < 16
    ensures ToU16(SignExtend(delta, 4)) == Signed4(delta) % 0x1_0000
  {
    assert Pow2(3) == 8 && Pow2(4) == 16;
    SignExtendMeans(delta, 4);
  }

  lemma SumWraps(base: U16, d: int)
    ensures (base + d % 0x1_0000) % 0x1_0000 == (base + d) % 0x1_0000
  {
  }

  /** At 16 bits resolving a difference is plain addition. */
  lemma ResolveWide(base: U16, x: U16, e: U16)
    requires e == (base + x) % 0x1_0000
    ensures ResolveDelta(base, x, 16, true) == e
  {
    Pow2Word();
    ExtendWord(e);
  }

  lemma ExtendKeeps(base: U16)
    ensures ToU16(SignExtend(base, 16)) == base
  {
    ExtendWord(base);
  }

  lemma DeltaAdded(d: ModeDesc, base: U16, delta: U16, e: U16)
    requires d.hasDelta && d.endpointBits == 16 && delta < 16 && e == (base + Signed4(delta)) % 0x1_0000
    ensures Final(d, true, base, delta, 4, 1) == e
  {
    ExtendKeeps(base);
    DeltaExtended(delta);
    SumWraps(base, Signed4(delta));
    ResolveWide(base, ToU16(SignExtend(delta, 4)), e);
  }

  // ----- the condition

  /** How far a 16-bit pattern is above the lowest number. */
  lemma AboveLowest(c: U16)
    ensures S16(c) + 0x8000 == (c + 0x8000) % 0x1_0000
  {
  }

  lemma AtLeast(x: nat, y: nat)
    requires x >= 1
    ensures x * y >= y
  {
  }

  lemma MeanOfTwo(u: nat, v: nat, w: nat)
    requires w <= 64
    ensures u >= 1 && v >= 1 ==> u * (64 - w) + v * w >= 64
    ensures u >= 64 && w < 64 ==> u * (64 - w) + v * w >= 64
    ensures v >= 64 && w > 0 ==> u * (64 - w) + v * w >= 64
  {
    if u >= 1 {
      AtLeast(u, 64 - w);
    }
    if v >= 1 {
      AtLeast(v, w);
    }
    if w < 64 {
      AtLeast(64 - w, u);
    }
    if w > 0 {
      AtLeast(w, v);
    }
  }

  lemma MeanHigh(base: U16, d: int, w: nat, u: nat, v: nat)
    requires -8 <= d < 8 && w <= 64 && u == (base + 0x8000) % 0x1_0000 && v == (base + d + 0x8000) % 0x1_0000
    ensures u * (64 - w) + v * w >= 32 <==>
            if base == 0x8000 then if d < 0 then w > 0 else d * w >= 32
            else if (base + d) % 0x1_0000 == 0x8000 then w < 64 && (d > 0 || -d * (64 - w) >= 32)
            else true
  {
    MeanOfTwo(u, v, w);
    if base == 0x8000 {
      assert u == 0 && v == if d < 0 then d + 0x1_0000 else d;
    } else if (base + d) % 0x1_0000 == 0x8000 {
      assert v == 0 && u == if d > 0 then 0x1_0000 - d else -d;
    } else {
      assert u >= 1 && v >= 1;
    }
  }

  lemma LowestShift(base: U16, d: int, e: U16)
    requires e == (base + d) % 0x1_0000
    ensures (e + 0x8000) % 0x1_0000 == (base + d + 0x8000) % 0x1_0000
  {
  }

  lemma HighMeans(base: U16, d: int, w: nat, e: U16)
    requires -8 <= d < 8 && w <= 64 && e == (base + d) % 0x1_0000
    ensures HighEnough(base, e, w) <==>
            if base == 0x8000 then if d < 0 then w > 0 else d * w >= 32
            else if (base + d) % 0x1_0000 == 0x8000 then w < 64 && (d > 0 || -d * (64 - w) >= 32)
            else true
  {
    AboveLowest(base);
    AboveLowest(e);
    LowestShift(base, d, e);
    MeanHigh(base, d, w, S16(base) + 0x8000, S16(e) + 0x8000);
  }

  lemma StoredHighMeans(base: U16, delta: nat, index: nat)
    requires delta < 16
    ensures StoredHigh(base, delta, index) <==> HighEnough(base, (base + Signed4(delta)) % 0x1_0000, Weight4(index))
  {
    HighMeans(base, Signed4(delta), Weight4(index), (base + Signed4(delta)) % 0x1_0000);
  }

  lemma RowAt(d: ModeDesc, raws: seq<seq<U16>>, sizes: seq<seq<nat>>, k: nat, i: nat)
    requires Stored(d, raws, sizes, |raws|) && k < |raws| && i < 3
    ensures FinalRows(d, true, raws, sizes)[k][i] == Final(d, true, raws[0][i], raws[k][i], sizes[k][i], k)
  {
  }

  lemma WidestSizes(i: nat)
    requires i < 3
    ensures SizeRow(WIDEST, 0)[i] == 16 && SizeRow(WIDEST, 1)[i] == 4
  {
  }

  lemma DeltaSmall(bits: seq<bool>, i: nat)
    requires |bits| == 128 && i < 3
    ensures RawRow(bits, WIDEST, 1)[i] < 16
  {
    WidestSizes(i);
    RowFits(bits, WIDEST, 1, i);
    assert Pow2(4) == 16;
  }

  /** The endpoints are the stored base and its sum with the difference. */
  lemma WidestRows(bits: seq<bool>, i: nat, base: U16, delta: U16, e: U16)
    requires |bits| == 128 && i < 3 && base == RawRow(bits, WIDEST, 0)[i] && delta == RawRow(bits, WIDEST, 1)[i]
    requires delta < 16
    requires e == (base + Signed4(delta)) % 0x1_0000
    ensures EndRows(bits, WIDEST, true)[0][i] == base && EndRows(bits, WIDEST, true)[1][i] == e
  {
    var d, raws, sizes := ModeOf(WIDEST), RawRows(bits, WIDEST), SizeRows(WIDEST);
    RowsStored(bits, WIDEST);
    WidestSizes(i);
    RowAt(d, raws, sizes, 0, i);
    RowAt(d, raws, sizes, 1, i);
    BaseKept(base);
    DeltaAdded(d, base, delta, e);
  }

  lemma OneRegion(rows: seq<seq<U16>>, bits: seq<bool>, s: Shape, t: nat, i: nat)
    requires |bits| == 128 && t < 16 && ThreeEach(rows) && Fitting(s, |rows|) && i < 3
    requires s.n == 4 && s.second == 16 && s.region[t] == 0
    ensures TexelHigh(rows, bits, s, t, i) == HighEnough(rows[0][i], rows[1][i], Weight4(Index(bits, 4, 16, t)))
  {
  }

  lemma WidestEnds(bits: seq<bool>, t: nat, i: nat)
    requires |bits| == 128 && t < 16 && i < 3
    ensures var rows := EndRows(bits, WIDEST, true);
            Finite(Texel(bits, WIDEST, true, t)[i]) <==>
                HighEnough(rows[0][i], rows[1][i], Weight4(Index(bits, 4, 16, t)))
  {
    EndsFiniteIff(bits, WIDEST, t, i);
    OneRegion(EndRows(bits, WIDEST, true), bits, ShapeOf(WIDEST, PartitionNumber(bits, WIDEST)), t, i);
  }

  lemma WidestFiniteIff(bits: seq<bool>, t: nat, i: nat, base: U16, delta: U16)
    requires |bits| == 128 && t < 16 && i < 3 && delta < 16
    requires base == RawRow(bits, WIDEST, 0)[i] && delta == RawRow(bits, WIDEST, 1)[i]
    ensures Finite(Texel(bits, WIDEST, true, t)[i]) <==> StoredHigh(base, delta, Index(bits, 4, 16, t))
  {
    var e := (base + Signed4(delta)) % 0x1_0000;
    WidestRows(bits, i, base, delta, e);
    WidestEnds(bits, t, i);
    StoredHighMeans(base, delta, Index(bits, 4, 16, t));
  }

  /** Exactly when a texel of a signed block is finite. */
  lemma BlockFiniteIff(bits: seq<bool>, m: nat, t: nat, i: nat)
    requires |bits| == 128 && m < 14 && t < 16 && i < 3
    ensures RawRow(bits, WIDEST, 1)[i] < 16
    ensures Finite(Texel(bits, m, true, t)[i]) <==>
            m != WIDEST || StoredHigh(RawRow(bits, WIDEST, 0)[i], RawRow(bits, WIDEST, 1)[i], Index(bits, 4, 16, t))
  {
    DeltaSmall(bits, i);
    OnlyWidest(m);
    if m != WIDEST {
      BlockFinite(bits, m, true, t, i);
    } else {
      WidestFiniteIff(bits, t, i, RawRow(bits, WIDEST, 0)[i], RawRow(bits, WIDEST, 1)[i]);
    }
  }
}

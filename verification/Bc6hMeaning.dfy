/** What a BC6H texel is in terms of the numbers its block stores, said without the steps of the
    decoder: which number an endpoint stands for, how it is rescaled, which mean of two endpoints
    the index asks for, and which half-precision float that becomes. */
module Bc6hMeaning {
  import opened Bits
  import opened Bc6hModes
  import opened Bc6hHeader
  import opened Bc6hValues
  import opened Bc6hEndpoints
  import opened Bc6h

  // ----- the relations

  function Multiple(k: int, p: int): int
  {
    k * p
  }

  /** Equal up to a multiple of p. */
  ghost predicate Congruent(x: int, y: int, p: int)
  {
    exists k :: x == y + Multiple(k, p)
  }

  /** `size` bits in two's complement. */
  function TwosComplement(raw: nat, size: nat): int
    requires size > 0
  {
    if raw < Pow2(size - 1) then raw else raw - Pow2(size)
  }

  predicate Representable(isSigned: bool, v: int, size: nat)
    requires size > 0
  {
    if isSigned then 0 - Pow2(size - 1) <= v < Pow2(size - 1) else 0 <= v < Pow2(size)
  }

  /** The number of `size` bits that a stored channel stands for: itself, or as a delta the base and
      the signed difference added, wrapping around. */
  ghost predicate StandsFor(isSigned: bool, delta: bool, base: nat, raw: nat, stored: nat, size: nat, v: int)
    requires stored > 0 && size > 0
  {
    Representable(isSigned, v, size)
    && Congruent(v, if delta then base + TwosComplement(raw, stored) else raw, Pow2(size))
  }

  /** v of `size` bits rescaled to 16: zero and the largest stay so, others are scaled half a step up. */
  predicate RescaledUnsigned(v: int, size: nat, r: int)
  {
    if size >= 15 then r == v
    else if v == 0 then r == 0
    else if v == Pow2(size) - 1 then r == 0xFFFF
    else r * Pow2(size) <= v * 0x1_0000 + 0x8000 < (r + 1) * Pow2(size)
  }

  /** The same for the magnitude of a signed number. */
  predicate RescaledSigned(v: int, size: nat, r: int)
    requires size > 0
  {
    if size >= 16 then r == v
    else if v < 0 then RescaledMagnitude(-v, size, -r)
    else RescaledMagnitude(v, size, r)
  }

  predicate RescaledMagnitude(v: int, size: nat, r: int)
    requires size > 0
  {
    if v == 0 then r == 0
    else if v >= Pow2(size - 1) - 1 then r == 0x7FFF
    else r * Pow2(size - 1) <= v * 0x8000 + 0x4000 < (r + 1) * Pow2(size - 1)
  }

  predicate Rescaled(isSigned: bool, v: int, size: nat, r: int)
    requires size > 0
  {
    if isSigned then RescaledSigned(v, size, r) else RescaledUnsigned(v, size, r)
  }

  /** The index k of n bits asks for k / (2^n - 1) of the way, in 64ths to the nearest. */
  predicate NearestWeight(n: nat, k: int, w: int)
  {
    (2 * w - 1) * (Pow2(n) - 1) < 128 * k < (2 * w + 1) * (Pow2(n) - 1)
  }

  /** The mean of a and b with that weight, to the nearest, halves up. */
  predicate WeightedMean(a: int, b: int, w: int, mean: int)
  {
    64 * mean <= a * (64 - w) + b * w + 32 < 64 * mean + 64
  }

  /** The half-precision float: scaled by 31/64, or by 31/32 with the sign apart and no negative zero. */
  predicate HalfFloat(isSigned: bool, t: int, h: int)
  {
    if !isSigned then 64 * h <= 31 * t < 64 * h + 64
    else if t < 0 then (h == 0 && 31 * -t < 32) || (h > 0x8000 && 32 * (h - 0x8000) <= 31 * -t < 32 * (h - 0x8000) + 32)
    else 32 * h <= 31 * t < 32 * h + 32
  }

  /** A 16-bit pattern as the number meant. */
  function Num(isSigned: bool, c: U16): int
  {
    if isSigned then S16(c) else c
  }

  // ----- rescaling

  lemma Floor(x: int, p: int)
    requires p > 0
    ensures x / p * p <= x < (x / p + 1) * p
  {
  }

  lemma ScaleUnsigned(c: nat, p: nat, r: int)
    requires c < p - 1 && r == (c * 0x1_0000 + 0x8000) / p
    ensures 0 <= r < 0x1_0000 && r * p <= c * 0x1_0000 + 0x8000 < (r + 1) * p
  {
    DivBelow(c * 0x1_0000 + 0x8000, p, 0x1_0000);
    Floor(c * 0x1_0000 + 0x8000, p);
  }

  lemma UnquantizeUnsignedMeans(c: U16, size: nat)
    requires c < Pow2(size)
    ensures RescaledUnsigned(c, size, UnquantizeUnsigned(c, size))
  {
    var p := Pow2(size);
    if size < 15 && c != 0 && c != p - 1 {
      var r := (c * 0x1_0000 + 0x8000) / p;
      ScaleUnsigned(c, p, r);
      UnquantizeUnsignedBy(c, size, p, r);
    }
  }

  lemma UnquantizeUnsignedBy(c: U16, size: nat, p: nat, r: U16)
    requires size < 15 && c != 0 && p == Pow2(size) && c != p - 1 && r == (c * 0x1_0000 + 0x8000) / p
    ensures UnquantizeUnsigned(c, size) == r
  {
  }

  lemma SignedResult(v: int, r: nat, c: U16)
    requires r <= 0x7FFF && c == ToU16(if v < 0 then 0 - r else r)
    ensures S16(c) == if v < 0 then 0 - r else r
  {
    BackToSigned(if v < 0 then 0 - r else r);
  }

  /** The signed case with its magnitude and step named. */
  lemma UnquantizeSignedBy(c: U16, size: nat, v: int, a: nat, p: nat, r: nat)
    requires 0 < size < 16 && c != 0 && v == S16(c) && a == (if v < 0 then -v else v) <= 0x4000 && p == Pow2(size - 1)
    requires r == if a >= p - 1 then 0x7FFF else (a * 0x8000 + 0x4000) / p
    ensures UnquantizeSigned(c, size) == ToU16(if v < 0 then 0 - r else r)
  {
    BackToSigned(a);
  }

  lemma Magnitude(a: nat, size: nat, p: nat, r: int)
    requires 0 < size && a > 0 && p == Pow2(size - 1)
    requires r == if a >= p - 1 then 0x7FFF else (a * 0x8000 + 0x4000) / p
    ensures 0 <= r <= 0x7FFF && RescaledMagnitude(a, size, r)
  {
    if a < p - 1 {
      ScaleFits(a, p);
      Floor(a * 0x8000 + 0x4000, p);
    }
  }

  lemma UnquantizeSignedMeans(c: U16, size: nat)
    requires 0 < size <= 16 && SignedFits(S16(c), size)
    ensures RescaledSigned(S16(c), size, S16(UnquantizeSigned(c, size)))
  {
    if size < 16 && c != 0 {
      var v, p := S16(c), Pow2(size - 1);
      Pow2Mono(size - 1, 14);
      assert Pow2(14) == 0x4000;
      var a := if v < 0 then -v else v;
      var r := if a >= p - 1 then 0x7FFF else (a * 0x8000 + 0x4000) / p;
      Magnitude(a, size, p, r);
      UnquantizeSignedBy(c, size, v, a, p, r);
      SignedResult(v, r, UnquantizeSigned(c, size));
    }
  }

  // ----- deltas

  lemma Apart(x: int, y: int, k: int, p: int)
    requires x == y + k * p
    ensures Congruent(x, y, p)
  {
    assert x == y + Multiple(k, p);
  }

  lemma Distribute(j: int, k: int, p: int)
    ensures j * p + k * p == (j + k) * p
  {
  }

  lemma Chain(x: int, y: int, z: int, p: int)
    requires Congruent(x, y, p) && Congruent(y, z, p)
    ensures Congruent(x, z, p)
  {
    var j :| x == y + Multiple(j, p);
    var k :| y == z + Multiple(k, p);
    Distribute(j, k, p);
    Apart(x, z, j + k, p);
  }

  lemma Sums(a: int, b: int, x: int, y: int, p: int)
    requires Congruent(a, x, p) && Congruent(b, y, p)
    ensures Congruent(a + b, x + y, p)
  {
    var j :| a == x + Multiple(j, p);
    var k :| b == y + Multiple(k, p);
    Distribute(j, k, p);
    Apart(a + b, x + y, j + k, p);
  }

  lemma RemainderCongruent(x: int, p: int)
    requires p > 0
    ensures Congruent(x % p, x, p)
  {
    Apart(x % p, x, -(x / p), p);
  }

  lemma Regroup(k: int, p: int, q: int)
    ensures -k * q * p == -k * (p * q)
  {
  }

  /** Keeping 16 bits keeps any fewer. */
  lemma WordCongruent(x: int, size: nat)
    requires size <= 16
    ensures Congruent(ToU16(x), x, Pow2(size))
  {
    var p, q, k := Pow2(size), Pow2(16 - size), x / 0x1_0000;
    Pow2Add(size, 16 - size);
    Pow2Word();
    Regroup(k, p, q);
    Apart(ToU16(x), x, -k * q, p);
  }

  lemma ComplementCongruent(raw: nat, size: nat)
    requires size > 0
    ensures Congruent(TwosComplement(raw, size), raw, Pow2(size))
  {
    Apart(TwosComplement(raw, size), raw, if raw < Pow2(size - 1) then 0 else -1, Pow2(size));
  }

  lemma ResolveMeans(base: U16, delta: U16, size: nat, isSigned: bool)
    requires 0 < size <= 16
    ensures var v := Num(isSigned, ResolveDelta(base, delta, size, isSigned));
            Representable(isSigned, v, size) && Congruent(v, base + delta, Pow2(size))
  {
    ResolveSum(base, delta, size, isSigned, base + delta, (base + delta) % Pow2(size));
  }

  lemma ResolveSum(base: U16, delta: U16, size: nat, isSigned: bool, sum: nat, s: nat)
    requires 0 < size <= 16 && sum == base + delta && s == sum % Pow2(size)
    ensures var v := Num(isSigned, ResolveDelta(base, delta, size, isSigned));
            Representable(isSigned, v, size) && Congruent(v, sum, Pow2(size))
  {
    RemainderCongruent(sum, Pow2(size));
    assert ResolveDelta(base, delta, size, isSigned) == if isSigned then ToU16(SignExtend(s, size)) else s;
    if isSigned {
      ResolvedSign(s, size, sum);
    }
  }

  lemma ResolvedSign(s: nat, size: nat, sum: int)
    requires 0 < size <= 16 && s < Pow2(size) && Congruent(s, sum, Pow2(size))
    ensures var v := S16(ToU16(SignExtend(s, size)));
            Representable(true, v, size) && Congruent(v, sum, Pow2(size))
  {
    ExtendFits(s, size);
    SignExtendMeans(s, size);
    ComplementCongruent(s, size);
    Chain(TwosComplement(s, size), s, sum, Pow2(size));
  }

  /** Sign extension of a stored channel, as a number and up to a multiple. */
  lemma ExtendMeans(raw: nat, size: nat, keep: nat)
    requires 0 < size <= 16 && raw < Pow2(size) && keep <= 16
    ensures S16(ToU16(SignExtend(raw, size))) == TwosComplement(raw, size)
    ensures Congruent(ToU16(SignExtend(raw, size)), TwosComplement(raw, size), Pow2(keep))
  {
    ExtendFits(raw, size);
    SignExtendMeans(raw, size);
    WordCongruent(SignExtend(raw, size), keep);
  }

  lemma BaseCongruent(d: ModeDesc, isSigned: bool, base: U16)
    requires 0 < d.endpointBits <= 16 && base < Pow2(d.endpointBits)
    ensures Congruent(Extended(d, isSigned, base, d.endpointBits, 0), base, Pow2(d.endpointBits))
  {
    var size := d.endpointBits;
    if isSigned {
      ExtendMeans(base, size, size);
      ComplementCongruent(base, size);
      Chain(ToU16(SignExtend(base, size)), TwosComplement(base, size), base, Pow2(size));
    } else {
      Apart(base, base, 0, Pow2(size));
    }
  }

  lemma ResolvedMeans(d: ModeDesc, isSigned: bool, base: U16, raw: U16, stored: nat, ep: nat)
    requires Sizes(d, stored, ep) && raw < Pow2(stored) && base < Pow2(d.endpointBits)
    ensures StandsFor(isSigned, d.hasDelta && ep > 0, base, raw, stored, d.endpointBits,
                      Num(isSigned, Resolved(d, isSigned, base, raw, stored, ep)))
  {
    var size := d.endpointBits;
    ExtendMeans(raw, stored, size);
    if d.hasDelta && ep > 0 {
      var b: int, x: int := Extended(d, isSigned, base, size, 0), ToU16(SignExtend(raw, stored));
      BaseCongruent(d, isSigned, base);
      Sums(b, x, base, TwosComplement(raw, stored), Pow2(size));
      ResolveMeans(b, x, size, isSigned);
      Chain(Num(isSigned, ResolveDelta(b, x, size, isSigned)), b + x, base + TwosComplement(raw, stored), Pow2(size));
    } else if isSigned {
      ComplementCongruent(raw, stored);
    } else {
      Apart(raw, raw, 0, Pow2(size));
    }
  }

  // ----- an endpoint

  /** r is the 16-bit endpoint of a stored channel. */
  ghost predicate EndpointIs(d: ModeDesc, isSigned: bool, base: nat, raw: nat, stored: nat, ep: nat, r: int)
    requires Sizes(d, stored, ep)
  {
    exists v :: StandsFor(isSigned, d.hasDelta && ep > 0, base, raw, stored, d.endpointBits, v)
                && Rescaled(isSigned, v, d.endpointBits, r)
  }

  lemma UnquantizedMeans(isSigned: bool, y: U16, size: nat)
    requires 0 < size <= 16 && Representable(isSigned, Num(isSigned, y), size)
    ensures Rescaled(isSigned, Num(isSigned, y), size, Num(isSigned, Unquantized(isSigned, y, size)))
  {
    if isSigned {
      UnquantizeSignedMeans(y, size);
    } else {
      UnquantizeUnsignedMeans(y, size);
    }
  }

  lemma SomeEndpoint(d: ModeDesc, isSigned: bool, base: nat, raw: nat, stored: nat, ep: nat, v: int, r: int)
    requires Sizes(d, stored, ep) && Rescaled(isSigned, v, d.endpointBits, r)
    requires StandsFor(isSigned, d.hasDelta && ep > 0, base, raw, stored, d.endpointBits, v)
    ensures EndpointIs(d, isSigned, base, raw, stored, ep, r)
  {
  }

  lemma EndpointMeans(d: ModeDesc, isSigned: bool, base: U16, raw: U16, stored: nat, ep: nat)
    requires Sizes(d, stored, ep) && raw < Pow2(stored) && base < Pow2(d.endpointBits)
    ensures EndpointIs(d, isSigned, base, raw, stored, ep, Num(isSigned, Final(d, isSigned, base, raw, stored, ep)))
  {
    var y := Resolved(d, isSigned, base, raw, stored, ep);
    ResolvedMeans(d, isSigned, base, raw, stored, ep);
    UnquantizedMeans(isSigned, y, d.endpointBits);
    SomeEndpoint(d, isSigned, base, raw, stored, ep, Num(isSigned, y),
                 Num(isSigned, Unquantized(isSigned, y, d.endpointBits)));
  }

  // ----- between two endpoints

  lemma WeightMeans(n: nat, k: nat)
    requires (n == 3 || n == 4) && k < Pow2(n)
    ensures NearestWeight(n, k, WeightOf(n, k))
  {
    assert Pow2(3) == 8 && Pow2(4) == 16;
  }

  lemma MeanIs(a: int, b: int, w: nat)
    requires w <= 64
    ensures WeightedMean(a, b, w, Interpolate(a, b, w))
  {
    var x := a * (64 - w) + b * w + 32;
    assert 64 * (x / 64) <= x < 64 * (x / 64) + 64;
  }

  lemma HalfUnsignedIs(t: int)
    requires 0 <= t <= 0xFFFF
    ensures HalfFloat(false, t, FinishUnsigned(t))
  {
  }

  lemma HalfSignedIs(t: int)
    requires -0x8000 <= t <= 0x7FFF
    ensures HalfFloat(true, t, FinishSigned(t))
  {
    var a := if t < 0 then -t else t;
    FinishSignedIs(t, a * 31 / 32);
    HalfOf(t, a, a * 31 / 32);
  }

  lemma HalfOf(t: int, a: nat, x: nat)
    requires -0x8000 <= t <= 0x7FFF && a == (if t < 0 then -t else t) && x == a * 31 / 32
    ensures HalfFloat(true, t, Normal(if t < 0 then x + 0x8000 else x))
  {
    assert 32 * x <= 31 * a < 32 * x + 32;
  }

  /** h is the float between a and b that index k of n bits asks for. */
  ghost predicate Mixed(isSigned: bool, a: int, b: int, n: nat, k: int, h: int)
  {
    exists w, mean :: NearestWeight(n, k, w) && WeightedMean(a, b, w, mean) && HalfFloat(isSigned, mean, h)
  }

  lemma BlendMeans(isSigned: bool, e0: U16, e1: U16, n: nat, k: nat, w: nat)
    requires w <= 64 && NearestWeight(n, k, w)
    ensures Mixed(isSigned, Num(isSigned, e0), Num(isSigned, e1), n, k, Blend(isSigned, e0, e1, w))
  {
    var a, b := Num(isSigned, e0), Num(isSigned, e1);
    var mean := Interpolate(a, b, w);
    MeanIs(a, b, w);
    if isSigned {
      ExtendWord(e0);
      ExtendWord(e1);
      Between(a, b, w, -0x8000, 0x7FFF);
      HalfSignedIs(mean);
    } else {
      Between(a, b, w, 0, 0xFFFF);
      HalfUnsignedIs(mean);
    }
  }

  // ----- a texel of a block

  /** h is channel ch of texel t: the index picks the weight, the partition the two endpoints. */
  ghost predicate TexelIs(bits: seq<bool>, m: nat, isSigned: bool, s: Shape, t: nat, ch: Channel, h: int)
    requires |bits| == 128 && m < 14 && t < 16 && Fitting(s, EndpointCount(m))
  {
    exists a, b :: Ends(bits, m, isSigned, s.region[t], ch, a, b)
                   && Mixed(isSigned, a, b, s.n, Index(bits, s.n, s.second, t), h)
  }

  /** a and b are channel ch of the two endpoints of a region. */
  ghost predicate Ends(bits: seq<bool>, m: nat, isSigned: bool, region: nat, ch: Channel, a: int, b: int)
    requires |bits| == 128 && m < 14 && 2 * region + 1 < EndpointCount(m)
  {
    BlockEndpoint(bits, m, isSigned, 2 * region, ch, a) && BlockEndpoint(bits, m, isSigned, 2 * region + 1, ch, b)
  }

  /** r is the 16-bit value of channel ch of an endpoint of the block. */
  ghost predicate BlockEndpoint(bits: seq<bool>, m: nat, isSigned: bool, ep: nat, ch: Channel, r: int)
    requires |bits| == 128 && m < 14 && ep < EndpointCount(m)
  {
    EndpointSizes(m, ep, ch);
    EndpointIs(ModeOf(m), isSigned, Raw(bits, m, 0, ch), Raw(bits, m, ep, ch), StoredBits(m, ep, ch), ep, r)
  }

  lemma RowsAt(bits: seq<bool>, m: nat, isSigned: bool, ep: nat, ch: Channel)
    requires |bits| == 128 && m < 14 && ep < EndpointCount(m)
    ensures Raw(bits, m, 0, ch) < 0x1_0000 && Raw(bits, m, ep, ch) < 0x1_0000
    ensures Sizes(ModeOf(m), StoredBits(m, ep, ch), ep)
    ensures EndRows(bits, m, isSigned)[ep][Number(ch)]
              == Final(ModeOf(m), isSigned, Raw(bits, m, 0, ch), Raw(bits, m, ep, ch), StoredBits(m, ep, ch), ep)
  {
    EndpointSizes(m, ep, ch);
    RowsStored(bits, m);
    RawAt(bits, m, 0, ch);
    RawAt(bits, m, ep, ch);
    FinalAt(ModeOf(m), isSigned, RawRows(bits, m), SizeRows(m), ep, Number(ch));
  }

  lemma RawAt(bits: seq<bool>, m: nat, ep: nat, ch: Channel)
    requires |bits| == 128 && m < 14 && ep < EndpointCount(m)
    ensures Raw(bits, m, ep, ch) < 0x1_0000
    ensures RawRows(bits, m)[ep][Number(ch)] == Raw(bits, m, ep, ch)
    ensures SizeRows(m)[ep] == SizeRow(m, ep) && SizeRow(m, ep)[Number(ch)] == StoredBits(m, ep, ch)
  {
    RawOf(bits, m, ep, ch);
    SizeOf(m, ep, ch);
    assert RawRows(bits, m)[ep] == RawRow(bits, m, ep);
  }

  lemma RawOf(bits: seq<bool>, m: nat, ep: nat, ch: Channel)
    requires |bits| == 128 && m < 14
    ensures Raw(bits, m, ep, ch) < 0x1_0000 && RawRow(bits, m, ep)[Number(ch)] == Raw(bits, m, ep, ch)
  {
    RawFits(bits, m, ep, ch);
  }

  lemma SizeOf(m: nat, ep: nat, ch: Channel)
    requires m < 14 && ep < EndpointCount(m)
    ensures SizeRows(m)[ep] == SizeRow(m, ep) && SizeRow(m, ep)[Number(ch)] == StoredBits(m, ep, ch)
  {
  }

  lemma FinalAt(d: ModeDesc, isSigned: bool, raws: seq<seq<U16>>, sizes: seq<seq<nat>>, ep: nat, i: nat)
    requires Stored(d, raws, sizes, |raws|) && ep < |raws| && i < 3
    ensures FinalRows(d, isSigned, raws, sizes)[ep][i]
              == Final(d, isSigned, raws[0][i], raws[ep][i], sizes[ep][i], ep)
  {
    assert FinalRows(d, isSigned, raws, sizes)[ep] == FinalRow(d, isSigned, raws, sizes, ep);
  }

  lemma EndRowMeans(bits: seq<bool>, m: nat, isSigned: bool, ep: nat, ch: Channel)
    requires |bits| == 128 && m < 14 && ep < EndpointCount(m)
    ensures BlockEndpoint(bits, m, isSigned, ep, ch, Num(isSigned, EndRows(bits, m, isSigned)[ep][Number(ch)]))
  {
    RowsAt(bits, m, isSigned, ep, ch);
    RawFits(bits, m, 0, ch);
    RawFits(bits, m, ep, ch);
    EndpointSizes(m, 0, ch);
    EndpointMeans(ModeOf(m), isSigned, Raw(bits, m, 0, ch), Raw(bits, m, ep, ch), StoredBits(m, ep, ch), ep);
  }

  /** Every channel of every texel is the float its stored numbers stand for. */
  lemma TexelMeans(bits: seq<bool>, m: nat, isSigned: bool, s: Shape, t: nat, ch: Channel)
    requires |bits| == 128 && m < 14 && t < 16 && s == ShapeOf(m, PartitionNumber(bits, m))
    ensures TexelIs(bits, m, isSigned, s, t, ch, Texel(bits, m, isSigned, t)[Number(ch)])
  {
    TexelRowMeans(bits, m, isSigned, s, EndRows(bits, m, isSigned), t, ch);
  }

  lemma EndsMeans(bits: seq<bool>, m: nat, isSigned: bool, region: nat, ch: Channel, rows: seq<seq<U16>>)
    requires |bits| == 128 && m < 14 && 2 * region + 1 < EndpointCount(m) && rows == EndRows(bits, m, isSigned)
    ensures Ends(bits, m, isSigned, region, ch, Num(isSigned, rows[2 * region][Number(ch)]),
                 Num(isSigned, rows[2 * region + 1][Number(ch)]))
  {
    EndRowMeans(bits, m, isSigned, 2 * region, ch);
    EndRowMeans(bits, m, isSigned, 2 * region + 1, ch);
  }

  lemma TexelRowMeans(bits: seq<bool>, m: nat, isSigned: bool, s: Shape, rows: seq<seq<U16>>, t: nat, ch: Channel)
    requires |bits| == 128 && m < 14 && t < 16 && Fitting(s, EndpointCount(m)) && s.n >= 3
    requires rows == EndRows(bits, m, isSigned)
    ensures TexelIs(bits, m, isSigned, s, t, ch, TexelRow(rows, bits, isSigned, s, t)[Number(ch)])
  {
    var e0, e1 := rows[2 * s.region[t]][Number(ch)], rows[2 * s.region[t] + 1][Number(ch)];
    EndsMeans(bits, m, isSigned, s.region[t], ch, rows);
    TexelAt(rows, bits, isSigned, s, t, ch);
    RowMeans(bits, m, isSigned, s, t, ch, e0, e1,
        Blend(isSigned, e0, e1, WeightOf(s.n, Index(bits, s.n, s.second, t))));
  }

  lemma TexelAt(rows: seq<seq<U16>>, bits: seq<bool>, isSigned: bool, s: Shape, t: nat, ch: Channel)
    requires |bits| == 128 && t < 16 && ThreeEach(rows) && Fitting(s, |rows|)
    ensures TexelRow(rows, bits, isSigned, s, t)[Number(ch)]
              == Blend(isSigned, rows[2 * s.region[t]][Number(ch)], rows[2 * s.region[t] + 1][Number(ch)],
                       WeightOf(s.n, Index(bits, s.n, s.second, t)))
  {
  }

  lemma RowMeans(bits: seq<bool>, m: nat, isSigned: bool, s: Shape, t: nat, ch: Channel, e0: U16, e1: U16, h: U16)
    requires |bits| == 128 && m < 14 && t < 16 && Fitting(s, EndpointCount(m)) && s.n >= 3
    requires Ends(bits, m, isSigned, s.region[t], ch, Num(isSigned, e0), Num(isSigned, e1))
    requires h == Blend(isSigned, e0, e1, WeightOf(s.n, Index(bits, s.n, s.second, t)))
    ensures TexelIs(bits, m, isSigned, s, t, ch, h)
  {
    var k := Index(bits, s.n, s.second, t);
    WeightMeans(s.n, k);
    BlendMeans(isSigned, e0, e1, s.n, k, WeightOf(s.n, k));
  }

  // ----- the relations leave one value

  lemma Step(q: int, r: int, p: int)
    requires p > 0
    ensures q <= r ==> q * p <= r * p
  {
  }

  lemma SameFloor(x: int, p: int, q: int, r: int)
    requires p > 0 && q * p <= x < (q + 1) * p && r * p <= x < (r + 1) * p
    ensures q == r
  {
    Step(q + 1, r, p);
    Step(r + 1, q, p);
  }

  lemma SameResidue(x: int, y: int, p: int, lo: int, k: int)
    requires p > 0 && x == y + k * p && lo <= x < lo + p && lo <= y < lo + p
    ensures x == y
  {
    Step(1, k, p);
    Step(k, -1, p);
  }

  lemma StandsForOne(isSigned: bool, delta: bool, base: nat, raw: nat, stored: nat, size: nat, v: int, v': int)
    requires stored > 0 && size > 0 && StandsFor(isSigned, delta, base, raw, stored, size, v)
    requires StandsFor(isSigned, delta, base, raw, stored, size, v')
    ensures v == v'
  {
    var sum := if delta then base + TwosComplement(raw, stored) else raw;
    var p, lo := Pow2(size), if isSigned then 0 - Pow2(size - 1) else 0;
    var j :| v == sum + Multiple(j, p);
    var k :| v' == sum + Multiple(k, p);
    Distribute(j, -k, p);
    SameResidue(v, v', p, lo, j - k);
  }

  lemma RescaledOne(isSigned: bool, v: int, size: nat, r: int, r': int)
    requires size > 0 && Rescaled(isSigned, v, size, r) && Rescaled(isSigned, v, size, r')
    ensures r == r'
  {
    if !isSigned {
      if size < 15 && v != 0 && v != Pow2(size) - 1 {
        SameFloor(v * 0x1_0000 + 0x8000, Pow2(size), r, r');
      }
    } else if size < 16 {
      if v < 0 {
        MagnitudeOne(-v, size, -r, -r');
      } else {
        MagnitudeOne(v, size, r, r');
      }
    }
  }

  lemma MagnitudeOne(v: int, size: nat, r: int, r': int)
    requires size > 0 && RescaledMagnitude(v, size, r) && RescaledMagnitude(v, size, r')
    ensures r == r'
  {
    if v != 0 && v < Pow2(size - 1) - 1 {
      SameFloor(v * 0x8000 + 0x4000, Pow2(size - 1), r, r');
    }
  }

  lemma EndpointOne(d: ModeDesc, isSigned: bool, base: nat, raw: nat, stored: nat, ep: nat, r: int, r': int)
    requires Sizes(d, stored, ep) && EndpointIs(d, isSigned, base, raw, stored, ep, r)
    requires EndpointIs(d, isSigned, base, raw, stored, ep, r')
    ensures r == r'
  {
    var delta, size := d.hasDelta && ep > 0, d.endpointBits;
    var v :| StandsFor(isSigned, delta, base, raw, stored, size, v) && Rescaled(isSigned, v, size, r);
    var v' :| StandsFor(isSigned, delta, base, raw, stored, size, v') && Rescaled(isSigned, v', size, r');
    StandsForOne(isSigned, delta, base, raw, stored, size, v, v');
    RescaledOne(isSigned, v, size, r, r');
  }

  lemma WeightOne(n: nat, k: int, w: int, w': int)
    requires n > 0 && NearestWeight(n, k, w) && NearestWeight(n, k, w')
    ensures w == w'
  {
    Step(2 * w + 1, 2 * w' - 1, Pow2(n) - 1);
    Step(2 * w' + 1, 2 * w - 1, Pow2(n) - 1);
  }

  lemma MeanOne(a: int, b: int, w: int, mean: int, mean': int)
    requires WeightedMean(a, b, w, mean) && WeightedMean(a, b, w, mean')
    ensures mean == mean'
  {
  }

  lemma HalfOne(isSigned: bool, t: int, h: int, h': int)
    requires HalfFloat(isSigned, t, h) && HalfFloat(isSigned, t, h')
    ensures h == h'
  {
  }

  lemma MixedOne(isSigned: bool, a: int, b: int, n: nat, k: int, h: int, h': int)
    requires n > 0 && Mixed(isSigned, a, b, n, k, h) && Mixed(isSigned, a, b, n, k, h')
    ensures h == h'
  {
    var w, mean :| NearestWeight(n, k, w) && WeightedMean(a, b, w, mean) && HalfFloat(isSigned, mean, h);
    var w', mean' :| NearestWeight(n, k, w') && WeightedMean(a, b, w', mean') && HalfFloat(isSigned, mean', h');
    WeightOne(n, k, w, w');
    MeanOne(a, b, w, mean, mean');
    HalfOne(isSigned, mean, h, h');
  }

  /** The channels of a texel are the only numbers in that relation to the stored ones. */
  lemma TexelIff(bits: seq<bool>, m: nat, isSigned: bool, s: Shape, t: nat, ch: Channel, h: int)
    requires |bits| == 128 && m < 14 && t < 16 && s == ShapeOf(m, PartitionNumber(bits, m))
    ensures TexelIs(bits, m, isSigned, s, t, ch, h) <==> h == Texel(bits, m, isSigned, t)[Number(ch)]
  {
    TexelMeans(bits, m, isSigned, s, t, ch);
    if TexelIs(bits, m, isSigned, s, t, ch, h) {
      TexelOne(bits, m, isSigned, s, t, ch, h, Texel(bits, m, isSigned, t)[Number(ch)]);
    }
  }

  lemma TexelOne(bits: seq<bool>, m: nat, isSigned: bool, s: Shape, t: nat, ch: Channel, h: int, h': int)
    requires |bits| == 128 && m < 14 && t < 16 && Fitting(s, EndpointCount(m))
    requires TexelIs(bits, m, isSigned, s, t, ch, h) && TexelIs(bits, m, isSigned, s, t, ch, h')
    ensures h == h'
  {
    var region, k := s.region[t], Index(bits, s.n, s.second, t);
    var a, b :| Ends(bits, m, isSigned, region, ch, a, b) && Mixed(isSigned, a, b, s.n, k, h);
    var a', b' :| Ends(bits, m, isSigned, region, ch, a', b') && Mixed(isSigned, a', b', s.n, k, h');
    EndsOne(bits, m, isSigned, region, ch, a, b, a', b');
    MixedOne(isSigned, a, b, s.n, k, h, h');
  }

  lemma EndsOne(bits: seq<bool>, m: nat, isSigned: bool, region: nat, ch: Channel, a: int, b: int, a': int, b': int)
    requires |bits| == 128 && m < 14 && 2 * region + 1 < EndpointCount(m)
    requires Ends(bits, m, isSigned, region, ch, a, b) && Ends(bits, m, isSigned, region, ch, a', b')
    ensures a == a' && b == b'
  {
    BlockEndpointOne(bits, m, isSigned, 2 * region, ch, a, a');
    BlockEndpointOne(bits, m, isSigned, 2 * region + 1, ch, b, b');
  }

  lemma BlockEndpointOne(bits: seq<bool>, m: nat, isSigned: bool, ep: nat, ch: Channel, r: int, r': int)
    requires |bits| == 128 && m < 14 && ep < EndpointCount(m)
    requires BlockEndpoint(bits, m, isSigned, ep, ch, r) && BlockEndpoint(bits, m, isSigned, ep, ch, r')
    ensures r == r'
  {
    EndpointSizes(m, ep, ch);
    EndpointOne(ModeOf(m), isSigned, Raw(bits, m, 0, ch), Raw(bits, m, ep, ch), StoredBits(m, ep, ch), ep, r, r');
  }

  // ----- unsigned texels

  /** Monotone scaling. */
  lemma ScaleMono(x: int, y: int)
    requires x <= y
    ensures x * 31 / 64 <= y * 31 / 64
  {
  }

  lemma BlendBetween(e0: U16, e1: U16, w: nat, lo: int, hi: int)
    requires w <= 64 && lo <= e0 <= hi && lo <= e1 <= hi
    ensures lo * 31 / 64 <= Blend(false, e0, e1, w) <= hi * 31 / 64
    ensures w == 0 ==> Blend(false, e0, e1, w) == e0 * 31 / 64
    ensures w == 64 ==> Blend(false, e0, e1, w) == e1 * 31 / 64
  {
    var t := Interpolate(e0, e1, w);
    Between(e0, e1, w, lo, hi);
    Between(e0, e1, w, 0, 0xFFFF);
    ScaleMono(lo, t);
    ScaleMono(t, hi);
    FinishIs(t);
  }

  lemma FinishIs(t: int)
    requires 0 <= t <= 0xFFFF
    ensures FinishUnsigned(t) == t * 31 / 64
  {
  }

  lemma LastWeight(n: nat, k: nat)
    requires (n == 3 || n == 4) && k < Pow2(n)
    ensures k == 0 ==> WeightOf(n, k) == 0
    ensures k == Pow2(n) - 1 ==> WeightOf(n, k) == 64
  {
    assert Pow2(3) == 8 && Pow2(4) == 16;
  }

  /** The first index gives the first endpoint, the last the second, any other a value between. */
  lemma UnsignedBetween(bits: seq<bool>, m: nat, s: Shape, t: nat, ch: Channel, e0: U16, e1: U16, k: nat)
    requires |bits| == 128 && m < 14 && t < 16 && s == ShapeOf(m, PartitionNumber(bits, m))
    requires e0 == EndRows(bits, m, false)[2 * s.region[t]][Number(ch)]
    requires e1 == EndRows(bits, m, false)[2 * s.region[t] + 1][Number(ch)] && k == Index(bits, s.n, s.second, t)
    ensures var h := Texel(bits, m, false, t)[Number(ch)];
            && (if e0 <= e1 then e0 * 31 / 64 <= h <= e1 * 31 / 64 else e1 * 31 / 64 <= h <= e0 * 31 / 64)
            && (k == 0 ==> h == e0 * 31 / 64) && (k == Pow2(s.n) - 1 ==> h == e1 * 31 / 64)
  {
    TexelAt(EndRows(bits, m, false), bits, false, s, t, ch);
    LastWeight(s.n, k);
    BlendBetween(e0, e1, WeightOf(s.n, k), if e0 <= e1 then e0 else e1, if e0 <= e1 then e1 else e0);
  }

  /** A channel of ones that is no delta is the largest endpoint. */
  lemma AllOnes(bits: seq<bool>, m: nat, ep: nat, ch: Channel, d: ModeDesc, raw: U16)
    requires |bits| == 128 && m < 14 && ep < EndpointCount(m) && d == ModeOf(m) && !(d.hasDelta && ep > 0)
    requires raw == Raw(bits, m, ep, ch) && raw == Pow2(d.endpointBits) - 1
    ensures EndRows(bits, m, false)[ep][Number(ch)] == 0xFFFF
  {
    NoFifteen(m);
    RowsAt(bits, m, false, ep, ch);
    FinalOnes(d, Raw(bits, m, 0, ch), raw, StoredBits(m, ep, ch), ep);
  }

  /** Its float is the largest. */
  lemma LargestFloat(e: U16)
    ensures Blend(false, 0xFFFF, e, 0) == 0x7BFF && Blend(false, e, 0xFFFF, 64) == 0x7BFF
  {
    BlendBetween(0xFFFF, e, 0, 0, 0xFFFF);
    BlendBetween(e, 0xFFFF, 64, 0, 0xFFFF);
  }

  lemma FinalOnes(d: ModeDesc, base: U16, raw: U16, stored: nat, ep: nat)
    requires Sizes(d, stored, ep) && !(d.hasDelta && ep > 0) && d.endpointBits != 15 && raw == Pow2(d.endpointBits) - 1
    ensures Final(d, false, base, raw, stored, ep) == 0xFFFF
  {
    Pow2Word();
  }

  lemma NoFifteen(m: nat)
    requires m < 14
    ensures 0 < ModeOf(m).endpointBits < 15 || ModeOf(m).endpointBits == 16
  {
  }
}

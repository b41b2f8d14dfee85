/** Huffman tables as a JPEG header carries them: how many codes of each length there are and the
    symbols in code order (section C.2 of ITU-T T.81). */
module JpegTables {
  import opened Bits
  import opened JpegSymbols
  import opened JpegCode
  import opened JpegScan

  /** Number of codes of each length 1..16; index 0 is unused. */
  type Counts = seq<nat>

  /** First code of a length: codes of one length follow each other, and the next length begins
      behind the last one, doubled. */
  function First(nr: Counts, l: nat): nat
    requires 1 <= l <= |nr|
    decreases nr, l
  {
    if l == 1 then 0 else 2 * (First(nr, l - 1) + nr[l - 1])
  }

  /** The codes never run out of their length. */
  ghost predicate Kraft(nr: Counts)
  {
    |nr| == 17 && forall l :: 1 <= l <= 16 ==> First(nr, l) + nr[l] <= Pow2(l)
  }

  /** A table definition: counts that fit and not more symbols than codes. */
  ghost predicate Described(nr: Counts, values: seq<nat>)
  {
    Kraft(nr) && |values| <= |Codes(nr, 16)|
  }

  /** Codes up to length l, in order, each with its length. */
  function Codes(nr: Counts, l: nat): seq<(nat, nat)>
    requires l < |nr|
    decreases nr, l
  {
    if l == 0 then [] else Codes(nr, l - 1) + seq(nr[l], k requires 0 <= k < nr[l] => CodeAt(nr, l, k))
  }

  function CodeAt(nr: Counts, l: nat, k: nat): (nat, nat)
    requires 1 <= l <= |nr|
  {
    (First(nr, l) + k, l)
  }

  /** A code of length l. */
  predicate CodeOf(nr: Counts, c: nat, l: nat)
  {
    1 <= l < |nr| && First(nr, l) <= c < First(nr, l) + nr[l]
  }

  lemma {:induction false} CodesAre(nr: Counts, l: nat, i: nat)
    requires l < |nr| && i < |Codes(nr, l)|
    ensures CodeOf(nr, Codes(nr, l)[i].0, Codes(nr, l)[i].1) && Codes(nr, l)[i].1 <= l
    decreases l
  {
    if l > 0 && i < |Codes(nr, l - 1)| {
      CodesAre(nr, l - 1, i);
    }
  }

  /** No code occurs twice. */
  lemma {:induction false} CodesDiffer(nr: Counts, l: nat, i: nat, j: nat)
    requires l < |nr| && i < j < |Codes(nr, l)|
    ensures Codes(nr, l)[i] != Codes(nr, l)[j]
    decreases l
  {
    if l > 0 {
      var n := |Codes(nr, l - 1)|;
      if j < n {
        CodesDiffer(nr, l - 1, i, j);
      } else if i < n {
        CodesAre(nr, l - 1, i);
      }
    }
  }

  lemma {:induction false} CodesPrefix(nr: Counts, l: nat, m: nat)
    requires l <= m < |nr|
    ensures Codes(nr, l) <= Codes(nr, m)
    decreases m
  {
    if l < m {
      CodesPrefix(nr, l, m - 1);
    }
  }

  /** Code number i of length l. */
  lemma CodeNumber(nr: Counts, l: nat, i: nat, k: nat)
    requires |nr| == 17 && 1 <= l <= 16 && i < nr[l] && k == |Codes(nr, l - 1)| + i
    ensures k < |Codes(nr, 16)| && Codes(nr, 16)[k] == (First(nr, l) + i, l)
  {
    CodesPrefix(nr, l, 16);
    assert Codes(nr, l)[k] == CodeAt(nr, l, i);
  }

  // ----- no code begins another

  /** Codes of a greater length begin behind all codes of a smaller one. */
  lemma {:induction false} FirstGrows(nr: Counts, l: nat, m: nat)
    requires 1 <= l < m < |nr|
    ensures First(nr, m) >= Shl(First(nr, l) + nr[l], m - l)
    decreases m
  {
    if m == l + 1 {
      assert Shl(First(nr, l) + nr[l], 1) == 2 * Shl(First(nr, l) + nr[l], 0);
    } else {
      FirstGrows(nr, l, m - 1);
    }
  }

  lemma {:induction false} ShrBelow(v: nat, x: nat, n: nat)
    requires v >= Shl(x, n)
    ensures Shr(v, n) >= x
    decreases n
  {
    if n > 0 {
      ShrBelow(v / 2, x, n - 1);
    }
  }

  /** The first l bits of an m-bit code, as a number. */
  lemma MsbPrefix(d: nat, m: nat, l: nat)
    requires l <= m
    ensures MsbBits(d, m)[..l] == MsbBits(Shr(d, m - l), l)
  {
    forall i | 0 <= i < l
      ensures MsbBits(d, m)[i] == MsbBits(Shr(d, m - l), l)[i]
    {
      BitAtShr(d, m - l, l - 1 - i);
      assert m - l + (l - 1 - i) == m - 1 - i;
    }
  }

  lemma SamePrefix(c: nat, l: nat, d: nat, m: nat)
    requires c < Pow2(l) && d < Pow2(m) && MsbBits(c, l) <= MsbBits(d, m)
    ensures l <= m && c == Shr(d, m - l)
  {
    MsbPrefix(d, m, l);
    assert MsbBits(c, l) == MsbBits(d, m)[..l];
    FromMsbBits(c, l);
    ShrFits(d, l, m - l);
    FromMsbBits(Shr(d, m - l), l);
  }

  /** Of two codes that begin alike both are the same. */
  lemma PrefixSame(nr: Counts, c: nat, l: nat, d: nat, m: nat)
    requires Kraft(nr) && CodeOf(nr, c, l) && CodeOf(nr, d, m) && MsbBits(c, l) <= MsbBits(d, m)
    ensures c == d && l == m
  {
    CodeFits(nr, c, l);
    CodeFits(nr, d, m);
    SamePrefix(c, l, d, m);
    if l < m {
      LaterAbove(nr, l, d, m);
      assert false;
    }
  }

  lemma CodeFits(nr: Counts, c: nat, l: nat)
    requires Kraft(nr) && CodeOf(nr, c, l)
    ensures c < Pow2(l)
  {
  }

  lemma LaterAbove(nr: Counts, l: nat, d: nat, m: nat)
    requires 1 <= l < m && CodeOf(nr, d, m)
    ensures Shr(d, m - l) >= First(nr, l) + nr[l]
  {
    FirstGrows(nr, l, m);
    ShrBelow(d, First(nr, l) + nr[l], m - l);
  }

  // ----- tables by symbol

  /** Position of the first occurrence. */
  function Place(values: seq<nat>, s: nat): (p: nat)
    ensures p <= |values| && (p < |values| ==> values[p] == s) && (p == |values| ==> s !in values)
  {
    if |values| == 0 then 0 else if values[0] == s then 0 else 1 + Place(values[1..], s)
  }

  /** The table the header describes. */
  function HuffTable(nr: Counts, values: seq<nat>): (ht: Table)
    requires |nr| == 17 && |values| <= |Codes(nr, 16)|
    ensures |ht| == 256
  {
    seq(256, s requires 0 <= s < 256 => if Place(values, s) < |values| then Codes(nr, 16)[Place(values, s)] else (0, 0))
  }

  lemma UsedCode(nr: Counts, values: seq<nat>, s: nat)
    requires |nr| == 17 && |values| <= |Codes(nr, 16)| && s < 256
    ensures var ht := HuffTable(nr, values);
            && (Used(ht, s) <==> s in values)
            && (Used(ht, s) ==>
                CodeOf(nr, ht[s].0, ht[s].1) && ht[s].1 <= 16 && Place(values, s) < |values|
                    && ht[s] == Codes(nr, 16)[Place(values, s)])
            && (!Used(ht, s) ==> ht[s] == (0, 0))
  {
    if Place(values, s) < |values| {
      CodesAre(nr, 16, Place(values, s));
    }
  }

  /** Every table described by counts that fit is usable for decoding: its codes fit their lengths
      and none begins another. */
  lemma HuffTableUsable(nr: Counts, values: seq<nat>)
    requires Described(nr, values)
    ensures WellFormed(HuffTable(nr, values)) && PrefixFree(HuffTable(nr, values))
  {
    var ht := HuffTable(nr, values);
    forall s | 0 <= s < 256
      ensures ht[s].1 <= 16 && ht[s].0 < Pow2(ht[s].1)
    {
      UsedCode(nr, values, s);
    }
    forall s, t | 0 <= s < |ht| && 0 <= t < |ht| && s != t && Used(ht, s) && Used(ht, t)
      ensures !(CodeBits(ht, s) <= CodeBits(ht, t))
    {
      NotPrefix(nr, values, s, t);
    }
  }

  lemma NotPrefix(nr: Counts, values: seq<nat>, s: nat, t: nat)
    requires Described(nr, values) && s < 256 && t < 256 && s != t
    requires Used(HuffTable(nr, values), s) && Used(HuffTable(nr, values), t)
    ensures !(CodeBits(HuffTable(nr, values), s) <= CodeBits(HuffTable(nr, values), t))
  {
    var ht := HuffTable(nr, values);
    UsedCode(nr, values, s);
    UsedCode(nr, values, t);
    if CodeBits(ht, s) <= CodeBits(ht, t) {
      PrefixSame(nr, ht[s].0, ht[s].1, ht[t].0, ht[t].1);
      var p, q := Place(values, s), Place(values, t);
      if p < q {
        CodesDiffer(nr, 16, p, q);
      } else {
        CodesDiffer(nr, 16, q, p);
      }
      assert false;
    }
  }

  // ----- the tables of the header the writer sends

  /** The luminance DC table. */
  function YdcCounts(): Counts
  {
    [0, 0, 1, 5, 1, 1, 1, 1, 1, 1, 0, 0, 0, 0, 0, 0, 0]
  }

  function YdcValues(): (values: seq<nat>)
    ensures |values| == 12
  {
    [0x00, 0x01, 0x02, 0x03, 0x04, 0x05, 0x06, 0x07, 0x08, 0x09, 0x0a, 0x0b]
  }

  lemma YdcFirsts(nr: Counts)
    requires nr == YdcCounts()
    ensures First(nr, 1) == 0 && First(nr, 2) == 0 && First(nr, 3) == 2 && First(nr, 4) == 14
    ensures First(nr, 5) == 30 && First(nr, 6) == 62 && First(nr, 7) == 126 && First(nr, 8) == 254
    ensures First(nr, 9) == 510 && First(nr, 10) == 1022 && First(nr, 11) == 2044 && First(nr, 12) == 4088
    ensures First(nr, 13) == 8176 && First(nr, 14) == 16352 && First(nr, 15) == 32704 && First(nr, 16) == 65408
  {
  }

  lemma YdcLengths(nr: Counts)
    requires nr == YdcCounts()
    ensures |Codes(nr, 1)| == 0 && |Codes(nr, 2)| == 1 && |Codes(nr, 3)| == 6 && |Codes(nr, 4)| == 7
    ensures |Codes(nr, 5)| == 8 && |Codes(nr, 6)| == 9 && |Codes(nr, 7)| == 10 && |Codes(nr, 8)| == 11
    ensures |Codes(nr, 9)| == 12 && |Codes(nr, 10)| == 12 && |Codes(nr, 11)| == 12 && |Codes(nr, 12)| == 12
    ensures |Codes(nr, 13)| == 12 && |Codes(nr, 14)| == 12 && |Codes(nr, 15)| == 12 && |Codes(nr, 16)| == 12
  {
  }

  lemma YdcDescribed(nr: Counts)
    requires nr == YdcCounts()
    ensures Kraft(nr) && |Codes(nr, 16)| == 12
  {
    SmallPowers();
    YdcFirsts(nr);
    YdcLengths(nr);
  }

  /** The luminance AC table. */
  function YacCounts(): Counts
  {
    [0, 0, 2, 1, 3, 3, 2, 4, 3, 5, 5, 4, 4, 0, 0, 1, 125]
  }

  function YacValues(): (values: seq<nat>)
    ensures |values| == 162
  {
    seq(162, k requires 0 <= k < 162 => YacValue(k))
  }

  lemma YacFirsts(nr: Counts)
    requires nr == YacCounts()
    ensures First(nr, 1) == 0 && First(nr, 2) == 0 && First(nr, 3) == 4 && First(nr, 4) == 10
    ensures First(nr, 5) == 26 && First(nr, 6) == 58 && First(nr, 7) == 120 && First(nr, 8) == 248
    ensures First(nr, 9) == 502 && First(nr, 10) == 1014 && First(nr, 11) == 2038 && First(nr, 12) == 4084
    ensures First(nr, 13) == 8176 && First(nr, 14) == 16352 && First(nr, 15) == 32704 && First(nr, 16) == 65410
  {
  }

  lemma YacLengths(nr: Counts)
    requires nr == YacCounts()
    ensures |Codes(nr, 1)| == 0 && |Codes(nr, 2)| == 2 && |Codes(nr, 3)| == 3 && |Codes(nr, 4)| == 6
    ensures |Codes(nr, 5)| == 9 && |Codes(nr, 6)| == 11 && |Codes(nr, 7)| == 15 && |Codes(nr, 8)| == 18
    ensures |Codes(nr, 9)| == 23 && |Codes(nr, 10)| == 28 && |Codes(nr, 11)| == 32 && |Codes(nr, 12)| == 36
    ensures |Codes(nr, 13)| == 36 && |Codes(nr, 14)| == 36 && |Codes(nr, 15)| == 37 && |Codes(nr, 16)| == 162
  {
  }

  lemma YacDescribed(nr: Counts)
    requires nr == YacCounts()
    ensures Kraft(nr) && |Codes(nr, 16)| == 162
  {
    SmallPowers();
    YacFirsts(nr);
    YacLengths(nr);
  }

  /** The chrominance DC table. */
  function UvdcCounts(): Counts
  {
    [0, 0, 3, 1, 1, 1, 1, 1, 1, 1, 1, 1, 0, 0, 0, 0, 0]
  }

  function UvdcValues(): (values: seq<nat>)
    ensures |values| == 12
  {
    [0x00, 0x01, 0x02, 0x03, 0x04, 0x05, 0x06, 0x07, 0x08, 0x09, 0x0a, 0x0b]
  }

  lemma UvdcFirsts(nr: Counts)
    requires nr == UvdcCounts()
    ensures First(nr, 1) == 0 && First(nr, 2) == 0 && First(nr, 3) == 6 && First(nr, 4) == 14
    ensures First(nr, 5) == 30 && First(nr, 6) == 62 && First(nr, 7) == 126 && First(nr, 8) == 254
    ensures First(nr, 9) == 510 && First(nr, 10) == 1022 && First(nr, 11) == 2046 && First(nr, 12) == 4094
    ensures First(nr, 13) == 8188 && First(nr, 14) == 16376 && First(nr, 15) == 32752 && First(nr, 16) == 65504
  {
  }

  lemma UvdcLengths(nr: Counts)
    requires nr == UvdcCounts()
    ensures |Codes(nr, 1)| == 0 && |Codes(nr, 2)| == 3 && |Codes(nr, 3)| == 4 && |Codes(nr, 4)| == 5
    ensures |Codes(nr, 5)| == 6 && |Codes(nr, 6)| == 7 && |Codes(nr, 7)| == 8 && |Codes(nr, 8)| == 9
    ensures |Codes(nr, 9)| == 10 && |Codes(nr, 10)| == 11 && |Codes(nr, 11)| == 12 && |Codes(nr, 12)| == 12
    ensures |Codes(nr, 13)| == 12 && |Codes(nr, 14)| == 12 && |Codes(nr, 15)| == 12 && |Codes(nr, 16)| == 12
  {
  }

  lemma UvdcDescribed(nr: Counts)
    requires nr == UvdcCounts()
    ensures Kraft(nr) && |Codes(nr, 16)| == 12
  {
    SmallPowers();
    UvdcFirsts(nr);
    UvdcLengths(nr);
  }

  /** The chrominance AC table. */
  function UvacCounts(): Counts
  {
    [0, 0, 2, 1, 2, 4, 4, 3, 4, 7, 5, 4, 4, 0, 1, 2, 119]
  }

  function UvacValues(): (values: seq<nat>)
    ensures |values| == 162
  {
    seq(162, k requires 0 <= k < 162 => UvacValue(k))
  }

  lemma UvacFirsts(nr: Counts)
    requires nr == UvacCounts()
    ensures First(nr, 1) == 0 && First(nr, 2) == 0 && First(nr, 3) == 4 && First(nr, 4) == 10
    ensures First(nr, 5) == 24 && First(nr, 6) == 56 && First(nr, 7) == 120 && First(nr, 8) == 246
    ensures First(nr, 9) == 500 && First(nr, 10) == 1014 && First(nr, 11) == 2038 && First(nr, 12) == 4084
    ensures First(nr, 13) == 8176 && First(nr, 14) == 16352 && First(nr, 15) == 32706 && First(nr, 16) == 65416
  {
  }

  lemma UvacLengths(nr: Counts)
    requires nr == UvacCounts()
    ensures |Codes(nr, 1)| == 0 && |Codes(nr, 2)| == 2 && |Codes(nr, 3)| == 3 && |Codes(nr, 4)| == 5
    ensures |Codes(nr, 5)| == 9 && |Codes(nr, 6)| == 13 && |Codes(nr, 7)| == 16 && |Codes(nr, 8)| == 20
    ensures |Codes(nr, 9)| == 27 && |Codes(nr, 10)| == 32 && |Codes(nr, 11)| == 36 && |Codes(nr, 12)| == 40
    ensures |Codes(nr, 13)| == 40 && |Codes(nr, 14)| == 41 && |Codes(nr, 15)| == 43 && |Codes(nr, 16)| == 162
  {
  }

  lemma UvacDescribed(nr: Counts)
    requires nr == UvacCounts()
    ensures Kraft(nr) && |Codes(nr, 16)| == 162
  {
    SmallPowers();
    UvacFirsts(nr);
    UvacLengths(nr);
  }

  lemma SmallPowers()
    ensures Pow2(1) == 2 && Pow2(2) == 4 && Pow2(3) == 8 && Pow2(4) == 16 && Pow2(5) == 32 && Pow2(6) == 64
    ensures Pow2(7) == 128 && Pow2(8) == 256
    ensures Pow2(9) == 512 && Pow2(10) == 1024 && Pow2(11) == 2048 && Pow2(12) == 4096 && Pow2(13) == 8192
    ensures Pow2(14) == 16384 && Pow2(15) == 32768 && Pow2(16) == 65536
  {
    Pow2Word();
  }

  /** A table definition of the header. */
  datatype Definition = Definition(counts: Counts, values: seq<nat>)

  ghost predicate IsYdc(d: Definition) { d.counts == YdcCounts() && d.values == YdcValues() }
  ghost predicate IsYac(d: Definition) { d.counts == YacCounts() && d.values == YacValues() }
  ghost predicate IsUvdc(d: Definition) { d.counts == UvdcCounts() && d.values == UvdcValues() }
  ghost predicate IsUvac(d: Definition) { d.counts == UvacCounts() && d.values == UvacValues() }

  // The four definitions of the header hold no more values than codes.

  lemma YdcDefinition(d: Definition)
    requires IsYdc(d)
    ensures Described(d.counts, d.values)
  {
    YdcDescribed(d.counts);
  }

  lemma YacDefinition(d: Definition)
    requires IsYac(d)
    ensures Described(d.counts, d.values)
  {
    YacDescribed(d.counts);
  }

  lemma UvdcDefinition(d: Definition)
    requires IsUvdc(d)
    ensures Described(d.counts, d.values)
  {
    UvdcDescribed(d.counts);
  }

  lemma UvacDefinition(d: Definition)
    requires IsUvac(d)
    ensures Described(d.counts, d.values)
  {
    UvacDescribed(d.counts);
  }

  ghost predicate TableOf(ht: Table, d: Definition)
  {
    Described(d.counts, d.values) ==> ht == HuffTable(d.counts, d.values)
  }

  lemma TableUsable(ht: Table, d: Definition)
    requires Described(d.counts, d.values) && TableOf(ht, d)
    ensures WellFormed(ht) && PrefixFree(ht)
  {
    HuffTableUsable(d.counts, d.values);
  }

  /** A scan written with the tables the header defines can be decoded with them. */
  lemma HeaderTablesUsable(t: Tables, ydc: Definition, yac: Definition, uvdc: Definition, uvac: Definition)
    requires IsYdc(ydc) && IsYac(yac) && IsUvdc(uvdc) && IsUvac(uvac)
    requires TableOf(t.ydc, ydc) && TableOf(t.yac, yac) && TableOf(t.uvdc, uvdc) && TableOf(t.uvac, uvac)
    ensures Usable(t)
  {
    YdcDefinition(ydc);
    YacDefinition(yac);
    UvdcDefinition(uvdc);
    UvacDefinition(uvac);
    TableUsable(t.ydc, ydc);
    TableUsable(t.yac, yac);
    TableUsable(t.uvdc, uvdc);
    TableUsable(t.uvac, uvac);
  }
}

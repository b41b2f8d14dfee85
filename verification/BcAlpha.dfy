/** The alpha block: the BC3/BC4 encoder of stb_dxt.cpp against the decoder of bc_decoder.cpp. */
module BcAlpha {
  import opened Bits

  // ----- decoder

  /** Eight bytes as the little-endian integer the decoder overlays on them. */
  function LittleEndian(b: seq<byte>): nat
  {
    if |b| == 0 then 0 else b[0] + 256 * LittleEndian(b[1..])
  }

  /** The three index bits of texel i. */
  function GetIdx(data: nat, i: nat): (k: nat)
    ensures k < 8
  {
    Shr(data, 3 * i + 16) % 8
  }

  /** Entry k of the palette of an unsigned channel with endpoints c0 and c1. */
  function Palette(c0: byte, c1: byte, k: nat): byte
    requires k < 8
  {
    if k == 0 then c0 else if k == 1 then c1
    else if c0 > c1 then ((8 - k) * c0 + (k - 1) * c1) / 7
    else if k < 6 then ((6 - k) * c0 + (k - 1) * c1) / 5
    else if k == 6 then 0 else 255
  }

  /** The value decoded for texel i of a block. */
  function DecodeTexel(block: seq<byte>, i: nat): byte
    requires |block| == 8
  {
    var data := LittleEndian(block);
    Palette(data % 256, data / 256 % 256, GetIdx(data, i))
  }

  /** v is the k-th of n parts of the way from x to y, rounded down. */
  predicate PartOfWay(x: byte, y: byte, k: nat, n: nat, v: int)
    requires k <= n
  {
    n * v <= (n - k) * x + k * y < n * v + n
  }

  /** The decoder's entries: both endpoints, sevenths between them if they descend, otherwise fifths
      and the two extremes. */
  lemma PaletteMeans(c0: byte, c1: byte, k: nat)
    requires k < 8
    ensures k == 0 ==> Palette(c0, c1, k) == c0
    ensures k == 1 ==> Palette(c0, c1, k) == c1
    ensures c0 > c1 && k >= 2 ==> PartOfWay(c0, c1, k - 1, 7, Palette(c0, c1, k))
    ensures c0 <= c1 && 2 <= k < 6 ==> PartOfWay(c0, c1, k - 1, 5, Palette(c0, c1, k))
    ensures c0 <= c1 && k >= 6 ==> Palette(c0, c1, k) == if k == 6 then 0 else 255
  {
    if k >= 2 && c0 > c1 {
      var x := (8 - k) * c0 + (k - 1) * c1;
      assert 7 * (x / 7) <= x < 7 * (x / 7) + 7;
    } else if 2 <= k < 6 {
      var x := (6 - k) * c0 + (k - 1) * c1;
      assert 5 * (x / 5) <= x < 5 * (x / 5) + 5;
    }
  }

  // ----- bits of little-endian integers

  lemma {:induction false} LittleEndianBit(b: seq<byte>, k: nat)
    requires k < 8 * |b|
    ensures BitAt(LittleEndian(b), k) == BitAt(b[k / 8], k % 8)
    decreases |b|
  {
    Pow2Word();
    var w := LittleEndian(b[1..]);
    ShlByte(w);
    BitAtJoin(b[0], 8, w, k);
    if k >= 8 {
      LittleEndianBit(b[1..], k - 8);
      assert (k - 8) / 8 == k / 8 - 1 && (k - 8) % 8 == k % 8;
    }
  }

  /** Three bits at k, as a number. */
  lemma ThreeBits(v: nat, k: nat)
    ensures Shr(v, k) % 8 == Bit(BitAt(v, k)) + 2 * Bit(BitAt(v, k + 1)) + 4 * Bit(BitAt(v, k + 2))
  {
    ShrAdd(v, k, 1);
    ShrAdd(v, k, 2);
    var w := Shr(v, k);
    assert Shr(w, 1) == w / 2 && Shr(w, 2) == w / 4;
  }

  // ----- index selection

  /** Index on the linear scale, 0 at the minimum and 7 at the maximum. */
  function LinearIndex(v: byte, mn: byte, mx: byte): (ind: nat)
    requires mn <= v <= mx
    ensures ind < 8
  {
    var dist := mx - mn;
    var bias := (if dist < 8 then dist - 1 else dist / 2 + 2) - mn * 7;
    var a := v * 7 + bias;
    var i4 := if a >= dist * 4 then 4 else 0;
    var a4 := if a >= dist * 4 then a - dist * 4 else a;
    var i2 := if a4 >= dist * 2 then 2 else 0;
    var a2 := if a4 >= dist * 2 then a4 - dist * 2 else a4;
    i4 + i2 + if a2 >= dist then 1 else 0
  }

  /** The format's numbering: 0 and 1 are the endpoints. */
  function DxtIndex(ind: nat): (k: nat)
    requires ind < 8
    ensures k < 8
  {
    var k := (8 - ind) % 8;
    if 2 > k then 1 - k else k
  }

  /** Value of linear index l above the minimum. */
  function Step(dist: nat, l: nat): nat
  {
    l * dist / 7
  }

  /** The linear index is a rounded division by dist. */
  lemma LinearIndexBrackets(v: byte, mn: byte, mx: byte)
    requires mn <= v <= mx && mn < mx
    ensures var dist := mx - mn;
            var a := 7 * (v - mn) + (if dist < 8 then dist - 1 else dist / 2 + 2);
            LinearIndex(v, mn, mx) * dist <= a < (LinearIndex(v, mn, mx) + 1) * dist
  {
    var dist := mx - mn;
    var a := 7 * (v - mn) + (if dist < 8 then dist - 1 else dist / 2 + 2);
    Brackets(LinearIndex(v, mn, mx), dist, a);
  }

  lemma Brackets(l: nat, dist: nat, a: nat)
    requires dist > 0 && a < 8 * dist && l < 8
    requires var b := if a >= 4 * dist then a - 4 * dist else a;
             var c := if b >= 2 * dist then b - 2 * dist else b;
             l == (if a >= 4 * dist then 4 else 0) + (if b >= 2 * dist then 2 else 0) + if c >= dist then 1 else 0
    ensures l * dist <= a < (l + 1) * dist
  {
    Multiples(l, dist);
  }

  lemma Multiples(l: nat, dist: nat)
    requires l < 8
    ensures l * dist == (if l >= 4 then 4 * dist else 0) + (if l % 4 >= 2 then 2 * dist else 0) + l % 2 * dist
    ensures (l + 1) * dist == l * dist + dist
  {
  }

  /** The decoder's palette entry for a linear index. */
  lemma PaletteOfLinear(mn: byte, mx: byte, l: nat)
    requires mn < mx && l < 8
    ensures Palette(mx, mn, DxtIndex(l)) == mn + Step(mx - mn, l)
  {
  }

  function Far(a: int, b: int): nat
  {
    if a < b then b - a else a - b
  }

  /** Among the eight interpolated values the chosen one is nearest. */
  lemma Nearest(dist: nat, u: nat, l: nat, m: nat)
    requires 0 < dist <= 255 && u <= dist && l < 8 && m < 8
    requires l * dist <= 7 * u + (if dist < 8 then dist - 1 else dist / 2 + 2) < (l + 1) * dist
    ensures Far(u, Step(dist, l)) <= Far(u, Step(dist, m))
    ensures dist < 8 ==> Step(dist, l) == u
  {
    if dist < 8 {
      SmallExact(dist, u, l);
    } else if m > l {
      NextNotNearer(dist, u, l);
      FarAbove(dist, u, l, m);
    } else if m < l {
      PreviousNotNearer(dist, u, l);
      FarBelow(dist, u, l, m);
    }
  }

  lemma FarAbove(dist: nat, u: nat, l: nat, m: nat)
    requires l < m && 2 * u <= Step(dist, l) + Step(dist, l + 1)
    ensures Far(u, Step(dist, l)) <= Far(u, Step(dist, m))
  {
    StepMono(dist, l, l + 1);
    StepMono(dist, l + 1, m);
  }

  lemma FarBelow(dist: nat, u: nat, l: nat, m: nat)
    requires m < l && Step(dist, l - 1) + Step(dist, l) <= 2 * u
    ensures Far(u, Step(dist, l)) <= Far(u, Step(dist, m))
  {
    StepMono(dist, l - 1, l);
    StepMono(dist, m, l - 1);
  }

  lemma SmallExact(dist: nat, u: nat, l: nat)
    requires 0 < dist < 8 && l * dist <= 7 * u + dist - 1 < (l + 1) * dist
    ensures Step(dist, l) == u
  {
    var a := l * dist;
    assert (l + 1) * dist == a + dist;
    assert 7 * u <= a < 7 * u + 7;
  }

  lemma StepMono(dist: nat, l: nat, m: nat)
    requires l <= m
    ensures Step(dist, l) <= Step(dist, m)
  {
    assert l * dist <= m * dist;
  }

  /** No larger index is nearer: the value lies at or below the midpoint above. */
  lemma NextNotNearer(dist: nat, u: nat, l: nat)
    requires 8 <= dist <= 255 && l < 7 && 7 * u + dist / 2 + 2 < (l + 1) * dist
    ensures 2 * u <= Step(dist, l) + Step(dist, l + 1)
  {
    if dist % 7 == 0 {
      assert l * dist == 7 * (l * (dist / 7));
    }
    assert (l + 1) * dist == l * dist + dist;
    BelowMidpoint(dist, u, l * dist);
  }

  /** Two floors of sevenths lose less than the rounding bias allows for. */
  lemma BelowMidpoint(dist: nat, u: nat, a: nat)
    requires 7 * u + dist / 2 + 2 < a + dist && (dist % 7 == 0 ==> a % 7 == 0)
    ensures 2 * u <= a / 7 + (a + dist) / 7
  {
    var p, q, h := a / 7, (a + dist) / 7, dist / 2;
    assert a <= 7 * p + 6 && a + dist <= 7 * q + 6 && dist <= 2 * h + 1;
    assert 14 * u <= 7 * (p + q) + 7;
  }

  /** No smaller index is nearer: the value lies at or above the midpoint below. */
  lemma PreviousNotNearer(dist: nat, u: nat, l: nat)
    requires 8 <= dist <= 255 && 0 < l < 8 && l * dist <= 7 * u + dist / 2 + 2
    ensures Step(dist, l - 1) + Step(dist, l) <= 2 * u
  {
    match l { case 1 => case 2 => case 3 => case 4 => case 5 => case 6 => case _ => }
  }

  // ----- the encoder

  /** Three-bit fields one after the other. */
  function FieldBits(inds: seq<nat>): (b: seq<bool>)
    ensures |b| == 3 * |inds|
  {
    seq(3 * |inds|, k requires 0 <= k < 3 * |inds| => BitAt(inds[k / 3], k % 3))
  }

  lemma FieldBitsSnoc(inds: seq<nat>, x: nat)
    ensures FieldBits(inds + [x]) == FieldBits(inds) + ToBits(x, 3)
  {
    var a, b := FieldBits(inds + [x]), FieldBits(inds) + ToBits(x, 3);
    forall k | 0 <= k < |a|
      ensures a[k] == b[k]
    {
      if k >= 3 * |inds| {
        assert k / 3 == |inds| && k % 3 == k - 3 * |inds|;
      }
    }
  }

  /** The decoder reads back each field written. */
  lemma IndexBack(block: seq<byte>, inds: seq<nat>, i: nat)
    requires |block| == 8 && |inds| == 16 && i < 16 && inds[i] < 8
    requires BytesToBits(block[2..]) == FieldBits(inds)
    ensures GetIdx(LittleEndian(block), i) == inds[i]
  {
    IndexBit(block, inds, i, 0, 3 * i);
    IndexBit(block, inds, i, 1, 3 * i + 1);
    IndexBit(block, inds, i, 2, 3 * i + 2);
    SameThree(LittleEndian(block), 3 * i + 16, inds[i]);
  }

  lemma SameThree(v: nat, k: nat, x: nat)
    requires x < 8 && BitAt(v, k) == BitAt(x, 0) && BitAt(v, k + 1) == BitAt(x, 1) && BitAt(v, k + 2) == BitAt(x, 2)
    ensures Shr(v, k) % 8 == x
  {
    ThreeBits(v, k);
    ThreeBits(x, 0);
  }

  lemma IndexBit(block: seq<byte>, inds: seq<nat>, i: nat, j: nat, k: nat)
    requires |block| == 8 && |inds| == 16 && i < 16 && j < 3 && k == 3 * i + j
    requires BytesToBits(block[2..]) == FieldBits(inds)
    ensures BitAt(LittleEndian(block), k + 16) == BitAt(inds[i], j)
  {
    LittleEndianBit(block, k + 16);
    assert (k + 16) / 8 == k / 8 + 2 && (k + 16) % 8 == k % 8;
    assert BytesToBits(block[2..])[k] == FieldBits(inds)[k];
    assert k / 3 == i && k % 3 == j;
  }

  /** The 16 source values, stride bytes apart. */
  function Texels(src: seq<byte>, stride: nat): (t: seq<byte>)
    requires 15 * stride < |src|
    ensures |t| == 16
  {
    seq(16, i requires 0 <= i < 16 => assert i * stride <= 15 * stride; src[i * stride])
  }

  lemma TexelAt(src: seq<byte>, stride: nat, i: nat)
    requires 15 * stride < |src| && i < 16
    ensures i * stride < |src| && Texels(src, stride)[i] == src[i * stride]
  {
    assert i * stride <= 15 * stride;
  }

  method MinMax(src: seq<byte>, stride: nat) returns (mn: byte, mx: byte)
    requires 15 * stride < |src|
    ensures mn in Texels(src, stride) && mx in Texels(src, stride)
    ensures Within(Texels(src, stride), mn, mx)
  {
    ghost var t := Texels(src, stride);
    mn, mx := src[0], src[0];
    TexelAt(src, stride, 0);
    for i := 1 to 16
      invariant mn in t && mx in t
      invariant forall k :: 0 <= k < i ==> mn <= t[k] <= mx
    {
      TexelAt(src, stride, i);
      if src[i * stride] < mn {
        mn := src[i * stride];
      } else if src[i * stride] > mx {
        mx := src[i * stride];
      }
    }
  }

  /** One turn of the index loop: three more bits, a byte flushed when there is one. */
  method PackIndex(dest: array<byte>, d: nat, mask: nat, bits: nat, ind: nat, ghost inds: seq<nat>)
    returns (d': nat, mask': nat, bits': nat)
    requires dest.Length == 8 && 2 <= d <= 8 && bits < 8 && mask < Pow2(bits) && ind < 8 && |inds| < 16
    requires BytesToBits(dest[2..d]) + ToBits(mask, bits) == FieldBits(inds)
    modifies dest
    ensures 2 <= d' <= 8 && bits' < 8 && mask' < Pow2(bits')
    ensures BytesToBits(dest[2..d']) + ToBits(mask', bits') == FieldBits(inds + [ind])
    ensures dest[..2] == old(dest[..2])
  {
    ghost var out := dest[2..d];
    assert Pow2(3) == 8;
    assert 8 * (d - 2) + bits == 3 * |inds|;
    AddJoins(mask, bits, ind, 3);
    ConcatAssoc(BytesToBits(out), ToBits(mask, bits), ToBits(ind, 3));
    FieldBitsSnoc(inds, ind);
    mask', bits', d' := BitOr(mask, Shl(ind, bits)), bits + 3, d;
    if bits' >= 8 {
      FlushStep(out, mask', bits');
      dest[d'] := mask' % 256;
      assert dest[2..d' + 1] == out + [mask' % 256];
      d', mask', bits' := d' + 1, mask' / 256, bits' - 8;
    }
  }

  function Index(v: byte, mn: byte, mx: byte): nat
    requires mn <= v <= mx
  {
    DxtIndex(LinearIndex(v, mn, mx))
  }

  predicate Within(t: seq<byte>, mn: byte, mx: byte)
  {
    forall i :: 0 <= i < |t| ==> mn <= t[i] <= mx
  }

  function Indices(t: seq<byte>, mn: byte, mx: byte): (inds: seq<nat>)
    requires Within(t, mn, mx)
    ensures |inds| == |t| && forall i :: 0 <= i < |t| ==> inds[i] < 8
  {
    seq(|t|, i requires 0 <= i < |t| => Index(t[i], mn, mx))
  }

  lemma EndpointBytes(block: seq<byte>)
    requires |block| == 8
    ensures LittleEndian(block) % 256 == block[0] && LittleEndian(block) / 256 % 256 == block[1]
  {
    var w := LittleEndian(block[2..]);
    assert block[1..][1..] == block[2..];
    var v := block[1] + 256 * w;
    assert LittleEndian(block[1..]) == v;
    assert LittleEndian(block) == block[0] + 256 * v;
  }

  /** What a decoder makes of a block holding these endpoints and these indices. */
  lemma DecodeBack(block: seq<byte>, inds: seq<nat>, i: nat)
    requires |block| == 8 && |inds| == 16 && i < 16 && inds[i] < 8
    requires BytesToBits(block[2..]) == FieldBits(inds)
    ensures DecodeTexel(block, i) == Palette(block[0], block[1], inds[i])
  {
    IndexBack(block, inds, i);
    EndpointBytes(block);
  }

  /** The palette entry numbered k is that of some linear index. */
  function LinearOf(k: nat): (m: nat)
    requires k < 8
    ensures m < 8 && DxtIndex(m) == k
  {
    if k == 0 then 7 else if k == 1 then 0 else 8 - k
  }

  /** No palette entry is nearer than the one chosen. */
  lemma IndexNearest(v: byte, mn: byte, mx: byte, k: nat)
    requires mn <= v <= mx && mn < mx && k < 8
    ensures Far(v, Palette(mx, mn, Index(v, mn, mx))) <= Far(v, Palette(mx, mn, k))
  {
    var l, m := LinearIndex(v, mn, mx), LinearOf(k);
    LinearIndexBrackets(v, mn, mx);
    PaletteOfLinear(mn, mx, l);
    PaletteOfLinear(mn, mx, m);
    Nearest(mx - mn, v - mn, l, m);
  }

  /** The entry chosen is the value itself when the range is small. */
  lemma IndexExact(v: byte, mn: byte, mx: byte)
    requires mn <= v <= mx && mx - mn <= 7
    ensures Palette(mx, mn, Index(v, mn, mx)) == v
  {
    if mn < mx {
      var l := LinearIndex(v, mn, mx);
      LinearIndexBrackets(v, mn, mx);
      PaletteOfLinear(mn, mx, l);
      Nearest(mx - mn, v - mn, l, l);
    }
  }

  /** Optimal for the decoder, and exact when the range is small. */
  ghost predicate Optimal(block: seq<byte>, t: seq<byte>)
    requires |block| == 8 && |t| == 16
  {
    forall i :: 0 <= i < 16 ==>
      && block[1] <= t[i] <= block[0]
      && (block[1] < block[0] ==> forall k :: 0 <= k < 8 ==>
          Far(t[i], DecodeTexel(block, i)) <= Far(t[i], Palette(block[0], block[1], k)))
      && (block[0] as int - block[1] <= 7 ==> DecodeTexel(block, i) == t[i])
  }

  lemma BlockOptimal(block: seq<byte>, t: seq<byte>, inds: seq<nat>)
    requires |block| == 8 && |t| == 16 && Within(t, block[1], block[0])
    requires inds == Indices(t, block[1], block[0]) && BytesToBits(block[2..]) == FieldBits(inds)
    ensures Optimal(block, t)
  {
    forall i | 0 <= i < 16
      ensures block[1] < block[0] ==> forall k :: 0 <= k < 8 ==>
                Far(t[i], DecodeTexel(block, i)) <= Far(t[i], Palette(block[0], block[1], k))
      ensures block[0] as int - block[1] <= 7 ==> DecodeTexel(block, i) == t[i]
    {
      DecodeBack(block, inds, i);
      if block[1] < block[0] {
        forall k | 0 <= k < 8
          ensures Far(t[i], DecodeTexel(block, i)) <= Far(t[i], Palette(block[0], block[1], k))
        {
          IndexNearest(t[i], block[1], block[0], k);
        }
      }
      if block[0] as int - block[1] <= 7 {
        IndexExact(t[i], block[1], block[0]);
      }
    }
  }

  /** Sixteen indices fill six bytes and leave no bits over. */
  lemma AllPacked(b: seq<byte>, mask: nat, bits: nat, inds: seq<nat>)
    requires BytesToBits(b) + ToBits(mask, bits) == FieldBits(inds) && |inds| == 16 && bits < 8
    ensures |b| == 6 && BytesToBits(b) == FieldBits(inds)
  {
    var x, y := BytesToBits(b), ToBits(mask, bits);
    assert |x| == 8 * |b| && |y| == bits && |x + y| == 48;
    assert x + y == x;
  }

  /** Writes the endpoints and the 16 indices. */
  method PackBlock(dest: array<byte>, src: seq<byte>, stride: nat, mn: byte, mx: byte)
    requires dest.Length == 8 && 15 * stride < |src| && Within(Texels(src, stride), mn, mx)
    modifies dest
    ensures dest[0] == mx && dest[1] == mn
    ensures BytesToBits(dest[..][2..]) == FieldBits(Indices(Texels(src, stride), mn, mx))
  {
    ghost var inds := Indices(Texels(src, stride), mn, mx);
    dest[0], dest[1] := mx, mn;
    var d, mask, bits := PackIndices(dest, src, stride, mn, mx, inds);
    AllPacked(dest[2..d], mask, bits, inds);
    assert dest[2..8] == dest[..][2..];
    assert dest[0] == dest[..2][0] && dest[1] == dest[..2][1];
  }

  method PackIndices(dest: array<byte>, src: seq<byte>, stride: nat, mn: byte, mx: byte, ghost inds: seq<nat>)
    returns (d: nat, mask: nat, bits: nat)
    requires dest.Length == 8 && 15 * stride < |src| && Within(Texels(src, stride), mn, mx)
    requires inds == Indices(Texels(src, stride), mn, mx)
    modifies dest
    ensures 2 <= d <= 8 && bits < 8 && dest[..2] == old(dest[..2])
    ensures BytesToBits(dest[2..d]) + ToBits(mask, bits) == FieldBits(inds)
  {
    d, mask, bits := 2, 0, 0;
    for i := 0 to 16
      invariant 2 <= d <= 8 && 0 <= bits < 8 && 0 <= mask < Pow2(bits) && dest[..2] == old(dest[..2])
      invariant BytesToBits(dest[2..d]) + ToBits(mask, bits) == FieldBits(inds[..i])
    {
      TexelAt(src, stride, i);
      var ind := Index(src[i * stride], mn, mx);
      assert inds[..i] + [ind] == inds[..i + 1];
      d, mask, bits := PackIndex(dest, d, mask, bits, ind, inds[..i]);
    }
    assert inds[..16] == inds;
  }

  /** The indices are optimal for the decoder, and small ranges are reproduced exactly. */
  method CompressAlphaBlock(dest: array<byte>, src: seq<byte>, stride: nat)
    requires dest.Length == 8 && 15 * stride < |src|
    modifies dest
    ensures dest[0] in Texels(src, stride) && dest[1] in Texels(src, stride)
    ensures Optimal(dest[..], Texels(src, stride))
  {
    var mn, mx := MinMax(src, stride);
    PackBlock(dest, src, stride, mn, mx);
    BlockOptimal(dest[..], Texels(src, stride), Indices(Texels(src, stride), mn, mx));
  }
}

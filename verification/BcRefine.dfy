/** The integer half of the BC1 refinement: the uniform-mask test, the packed accumulator and
    the determinant of the least-squares system. */
module BcRefine {
  import opened Bits
  import opened BcColor
  import opened BcAlpha

  // ----- masks and their indices

  function Indices4(mask: nat, n: nat): (idx: seq<nat>)
    ensures |idx| == n && Digits(idx)
  {
    seq(n, i requires 0 <= i < n => GetIdx2(mask, i))
  }

  lemma {:induction false} MaskDigits(mask: nat, n: nat)
    requires mask < Pow2(2 * n)
    ensures MaskOf(Indices4(mask, n)) == mask
  {
    if n > 0 {
      assert Pow2(2 * n) == 4 * Pow2(2 * n - 2);
      MaskDigits(mask / 4, n - 1);
      var idx, rest := Indices4(mask, n), Indices4(mask / 4, n - 1);
      forall i | 0 <= i < n - 1 ensures idx[1..][i] == rest[i] {
        ShrAdd(mask, 2, 2 * i);
        assert Shr(mask, 2) == mask / 4 && 2 + 2 * i == 2 * (i + 1);
      }
      assert idx[1..] == rest;
    }
  }

  lemma XorSmall(x: nat, y: nat)
    requires x < 4 && y < 4
    ensures BitXor(x, y) < 4 && (BitXor(x, y) == 0 <==> x == y)
  {
    XorBit(x / 2, 0, y / 2, 0);
    XorBit(x % 2, x / 2, y % 2, y / 2);
    assert BitXor(0, 0) == 0;
  }

  /** Exclusive or works index by index. */
  lemma XorBits(x: nat, a: nat, y: nat, b: nat)
    requires x < 4 && y < 4
    ensures BitXor(x + 4 * a, y + 4 * b) == BitXor(x, y) + 4 * BitXor(a, b)
  {
    XorHalves(x % 2, x / 2, a, y % 2, y / 2, b);
  }

  lemma XorHalves(x0: nat, x1: nat, a: nat, y0: nat, y1: nat, b: nat)
    requires x0 < 2 && x1 < 2 && y0 < 2 && y1 < 2
    ensures BitXor(x0 + 2 * x1 + 4 * a, y0 + 2 * y1 + 4 * b) == BitXor(x0 + 2 * x1, y0 + 2 * y1) + 4 * BitXor(a, b)
  {
    XorBit(x1, a, y1, b);
    XorBit(x0, x1 + 2 * a, y0, y1 + 2 * b);
    XorBit(x1, 0, y1, 0);
    XorBit(x0, x1, y0, y1);
  }

  lemma XorZero(x: nat, a: nat, y: nat, b: nat)
    requires x < 4 && y < 4
    ensures BitXor(x + 4 * a, y + 4 * b) == 0 <==> x == y && BitXor(a, b) == 0
  {
    XorBits(x, a, y, b);
    XorSmall(x, y);
  }

  /** Shifting a mask by one index drops the last. */
  lemma {:induction false} MaskSnoc(idx: seq<nat>, x: nat)
    ensures MaskOf(idx + [x]) == MaskOf(idx) + Shl(x, 2 * |idx|)
  {
    if |idx| == 0 {
      assert ([x])[1..] == [] && idx + [x] == [x];
    } else {
      assert (idx + [x])[1..] == idx[1..] + [x];
      MaskSnoc(idx[1..], x);
      assert Shl(x, 2 * |idx|) == 4 * Shl(x, 2 * |idx| - 2);
    }
  }

  /** The exclusive or of two masks is zero from index 1 on exactly where they agree. */
  lemma {:induction false} XorAgree(a: seq<nat>, b: seq<nat>)
    requires |a| == |b| && Digits(a) && Digits(b)
    ensures BitXor(MaskOf(a), MaskOf(b)) == 0 <==> a == b
  {
    if |a| > 0 {
      XorAgree(a[1..], b[1..]);
      XorZero(a[0], MaskOf(a[1..]), b[0], MaskOf(b[1..]));
      assert a == [a[0]] + a[1..] && b == [b[0]] + b[1..];
    } else {
      assert a == b;
    }
  }

  predicate Uniform(idx: seq<nat>)
  {
    forall i :: 0 < i < |idx| ==> idx[i] == idx[0]
  }

  lemma {:induction false} UniformShift(idx: seq<nat>)
    requires |idx| > 0
    ensures Uniform(idx) <==> idx[1..] == idx[..|idx| - 1]
  {
    if Uniform(idx) {
      assert idx[1..] == idx[..|idx| - 1];
    }
    if idx[1..] == idx[..|idx| - 1] {
      ShiftSame(idx, |idx| - 1);
    }
  }

  lemma {:induction false} ShiftSame(idx: seq<nat>, n: nat)
    requires n < |idx| && idx[1..] == idx[..|idx| - 1]
    ensures forall i :: 0 < i <= n ==> idx[i] == idx[0]
  {
    if n > 0 {
      ShiftSame(idx, n - 1);
      assert idx[1..][n - 1] == idx[..|idx| - 1][n - 1];
    }
  }

  /** The word test for sixteen equal indices. */
  lemma UniformTest(idx: seq<nat>)
    requires |idx| == 16 && Digits(idx)
    ensures BitXor(MaskOf(idx), MaskOf(idx) * 4 % 0x1_0000_0000) < 4 <==> Uniform(idx)
  {
    var lo := idx[..15];
    ShiftedMask(idx);
    XorBits(idx[0], MaskOf(idx[1..]), 0, MaskOf(lo));
    XorSmall(idx[0], 0);
    XorAgree(idx[1..], lo);
    UniformShift(idx);
  }

  lemma ShiftedMask(idx: seq<nat>)
    requires |idx| == 16 && Digits(idx)
    ensures MaskOf(idx) * 4 % 0x1_0000_0000 == 4 * MaskOf(idx[..15])
  {
    assert idx == idx[..15] + [idx[15]];
    MaskSnoc(idx[..15], idx[15]);
    MaskFits(idx[..15]);
    Pow2Word();
    assert 4 * Pow2(30) == Pow2(32);
    Shl30(idx[15]);
  }

  lemma Shl30(x: nat)
    ensures Shl(x, 30) == x * 0x4000_0000
  {
    assert Shl(x, 6) == 64 * x;
    ShlTwice(x, 6, 8);
    ShlTwice(x, 14, 8);
    ShlTwice(x, 22, 8);
    ShlByte(Shl(x, 6));
    ShlByte(Shl(x, 14));
    ShlByte(Shl(x, 22));
  }

  // ----- the least-squares system

  /** Weights of the two endpoints in a palette colour, in thirds. */
  function W1(k: nat): (w: nat)
    requires k < 4
    ensures w <= 3
  {
    if k == 0 then 3 else if k == 1 then 0 else if k == 2 then 2 else 1
  }

  function W2(k: nat): nat
    requires k < 4
  {
    3 - W1(k)
  }

  /** Precomputed products of the weights, packed in one word. */
  function Prods(k: nat): nat
    requires k < 4
  {
    if k == 0 then 0x090000 else if k == 1 then 0x000900 else if k == 2 then 0x040102 else 0x010402
  }

  /** Sums over the texels of products of the weights. */
  function SumXX(idx: seq<nat>): (s: nat)
    requires Digits(idx)
    ensures s <= 9 * |idx|
  {
    if |idx| == 0 then 0
    else
      var k := idx[|idx| - 1];
      SumXX(idx[..|idx| - 1]) + W1(k) * W1(k)
  }

  function SumYY(idx: seq<nat>): (s: nat)
    requires Digits(idx)
    ensures s <= 9 * |idx|
  {
    if |idx| == 0 then 0
    else
      var k := idx[|idx| - 1];
      SumYY(idx[..|idx| - 1]) + W2(k) * W2(k)
  }

  function SumXY(idx: seq<nat>): (s: nat)
    requires Digits(idx)
    ensures s <= 2 * |idx|
  {
    if |idx| == 0 then 0
    else
      var k := idx[|idx| - 1];
      SumXY(idx[..|idx| - 1]) + W1(k) * W2(k)
  }

  function SumW(idx: seq<nat>): nat
    requires Digits(idx)
  {
    if |idx| == 0 then 0 else SumW(idx[..|idx| - 1]) + W1(idx[|idx| - 1])
  }

  lemma WeightProducts(k: nat)
    requires k < 4
    ensures W2(k) * W2(k) == 9 - 6 * W1(k) + W1(k) * W1(k) && W1(k) * W2(k) == 3 * W1(k) - W1(k) * W1(k)
    ensures Prods(k) == 0x1_0000 * (W1(k) * W1(k)) + 0x100 * (W2(k) * W2(k)) + W1(k) * W2(k)
  {
    match k { case 0 => case 1 => case 2 => case _ => }
  }

  /** The other sums in terms of the first weights alone. */
  lemma {:induction false} SumsReduce(idx: seq<nat>)
    requires Digits(idx)
    ensures SumYY(idx) == 9 * |idx| - 6 * SumW(idx) + SumXX(idx)
    ensures SumXY(idx) == 3 * SumW(idx) - SumXX(idx)
  {
    if |idx| > 0 {
      SumsReduce(idx[..|idx| - 1]);
      WeightProducts(idx[|idx| - 1]);
    }
  }

  /** Squared differences of the weights from w. */
  function Spread(idx: seq<nat>, w: nat): (s: nat)
    requires Digits(idx)
  {
    if |idx| == 0 then 0
    else
      var d := W1(idx[|idx| - 1]) - w;
      Spread(idx[..|idx| - 1], w) + d * d
  }

  lemma {:induction false} SpreadExpands(idx: seq<nat>, w: nat)
    requires Digits(idx)
    ensures Spread(idx, w) == SumXX(idx) - 2 * (w * SumW(idx)) + |idx| * (w * w)
  {
    if |idx| > 0 {
      var n := |idx| - 1;
      var x := W1(idx[n]);
      SpreadExpands(idx[..n], w);
      SpreadAlgebra(n, SumXX(idx[..n]), SumW(idx[..n]), w, x);
    }
  }

  lemma SpreadAlgebra(n: int, q: int, s: int, w: int, x: int)
    ensures q - 2 * (w * s) + n * (w * w) + (x - w) * (x - w) == q + x * x - 2 * (w * (s + x)) + (n + 1) * (w * w)
  {
  }

  lemma {:induction false} SpreadZero(idx: seq<nat>, w: nat)
    requires Digits(idx)
    ensures Spread(idx, w) == 0 <==> forall i :: 0 <= i < |idx| ==> W1(idx[i]) == w
  {
    if |idx| > 0 {
      var n := |idx| - 1;
      var d := W1(idx[n]) - w;
      SpreadZero(idx[..n], w);
      assert d * d >= 0 && (d * d == 0 <==> d == 0);
      assert forall i :: 0 <= i < n ==> idx[..n][i] == idx[i];
    }
  }

  /** n times the variance of the weights. */
  function Variance(idx: seq<nat>): int
    requires Digits(idx)
  {
    |idx| * SumXX(idx) - SumW(idx) * SumW(idx)
  }

  lemma VarianceSnoc(idx: seq<nat>)
    requires |idx| > 0 && Digits(idx)
    ensures Variance(idx) == Variance(idx[..|idx| - 1]) + Spread(idx[..|idx| - 1], W1(idx[|idx| - 1]))
  {
    var n := |idx| - 1;
    var w, s, q := W1(idx[n]), SumW(idx[..n]), SumXX(idx[..n]);
    SpreadExpands(idx[..n], w);
    VarianceAlgebra(n, q, s, w);
  }

  lemma VarianceAlgebra(n: int, q: int, s: int, w: int)
    ensures (n + 1) * (q + w * w) - (s + w) * (s + w) == n * q - s * s + (q - 2 * (w * s) + n * (w * w))
  {
  }

  lemma {:induction false} VariancePositive(idx: seq<nat>)
    requires Digits(idx)
    ensures Variance(idx) >= 0 && (Variance(idx) == 0 <==> Uniform(idx))
  {
    if |idx| > 0 {
      var n := |idx| - 1;
      VariancePositive(idx[..n]);
      VarianceSnoc(idx);
      SpreadZero(idx[..n], W1(idx[n]));
      assert forall i :: 0 <= i < n ==> idx[..n][i] == idx[i];
    }
  }

  /** The determinant is nine times the variance. */
  lemma Determinant(idx: seq<nat>)
    requires Digits(idx)
    ensures SumXX(idx) * SumYY(idx) - SumXY(idx) * SumXY(idx) == 9 * Variance(idx)
  {
    SumsReduce(idx);
    DeterminantAlgebra(|idx|, SumW(idx), SumXX(idx), SumYY(idx), SumXY(idx));
  }

  lemma DeterminantAlgebra(n: int, s: int, q: int, yy: int, xy: int)
    requires yy == 9 * n - 6 * s + q && xy == 3 * s - q
    ensures q * yy - xy * xy == 9 * (n * q - s * s)
  {
  }

  // ----- the accumulating loop

  function Plus(a: Rgb, b: Rgb): Rgb
  {
    Rgb(a.r + b.r, a.g + b.g, a.b + b.b)
  }

  function Times(w: int, a: Rgb): Rgb
  {
    Rgb(w * a.r, w * a.g, w * a.b)
  }

  /** Sums of the first n pixels, plain and weighted by either endpoint's weight. */
  function SumPixels(block: seq<byte>, n: nat): Rgb
    requires |block| == 64 && n <= 16
  {
    if n == 0 then Rgb(0, 0, 0) else Plus(SumPixels(block, n - 1), Pixel(block, n - 1))
  }

  function Sum1(block: seq<byte>, idx: seq<nat>): Rgb
    requires |block| == 64 && |idx| <= 16 && Digits(idx)
    decreases |idx|
  {
    if |idx| == 0 then Rgb(0, 0, 0)
    else Plus(Sum1(block, idx[..|idx| - 1]), Times(W1(idx[|idx| - 1]), Pixel(block, |idx| - 1)))
  }

  function Sum2(block: seq<byte>, idx: seq<nat>): Rgb
    requires |block| == 64 && |idx| <= 16 && Digits(idx)
    decreases |idx|
  {
    if |idx| == 0 then Rgb(0, 0, 0)
    else Plus(Sum2(block, idx[..|idx| - 1]), Times(W2(idx[|idx| - 1]), Pixel(block, |idx| - 1)))
  }

  lemma ThirdsSplit(w: int, p: Rgb)
    ensures Times(3 - w, p) == Plus(Times(3, p), Times(-1, Times(w, p)))
  {
  }

  lemma {:induction false} SumsSplit(block: seq<byte>, idx: seq<nat>)
    requires |block| == 64 && |idx| <= 16 && Digits(idx)
    ensures Sum2(block, idx) == Plus(Times(3, SumPixels(block, |idx|)), Times(-1, Sum1(block, idx)))
    decreases |idx|
  {
    if |idx| > 0 {
      var n := |idx| - 1;
      SumsSplit(block, idx[..n]);
      ThirdsSplit(W1(idx[n]), Pixel(block, n));
    }
  }

  lemma FieldsApart(xx: nat, yy: nat, xy: nat)
    requires yy < 256 && xy < 256
    ensures var akku := 0x1_0000 * xx + 0x100 * yy + xy;
            akku / 0x1_0000 == xx && akku / 0x100 % 256 == yy && akku % 256 == xy
  {
    var hi := 0x100 * xx + yy;
    assert (0x100 * hi + xy) / 0x100 == hi && (0x100 * hi + xy) % 0x100 == xy;
    assert hi / 0x100 == xx && hi % 0x100 == yy;
  }

  /** The three sums packed in one word. */
  function Packed(idx: seq<nat>): nat
    requires Digits(idx)
  {
    0x1_0000 * SumXX(idx) + 0x100 * SumYY(idx) + SumXY(idx)
  }

  lemma AkkuStep(idx: seq<nat>, n: nat, next: nat, k: nat)
    requires Digits(idx) && next == n + 1 <= |idx| && k == idx[n]
    ensures Packed(idx[..next]) == Packed(idx[..n]) + Prods(k)
  {
    assert idx[..next][..n] == idx[..n];
    WeightProducts(k);
  }

  /** One 32-bit accumulator holds the three sums, no field carrying into the next. */
  method Accumulate(mask: nat) returns (xx: nat, yy: nat, xy: nat)
    requires mask < 0x1_0000_0000
    ensures var idx := Indices4(mask, 16);
            xx == SumXX(idx) && yy == SumYY(idx) && xy == SumXY(idx)
  {
    ghost var idx := Indices4(mask, 16);
    var akku, cm := 0, mask;
    for i := 0 to 16
      invariant cm == Shr(mask, 2 * i)
      invariant akku == Packed(idx[..i])
    {
      AkkuStep(idx, i, i + 1, cm % 4);
      ShrAdd(mask, 2 * i, 2);
      assert Shr(cm, 2) == cm / 4;
      akku, cm := akku + Prods(cm % 4), cm / 4;
    }
    assert idx[..16] == idx;
    FieldsApart(SumXX(idx), SumYY(idx), SumXY(idx));
    xx, yy, xy := akku / 0x1_0000, akku / 0x100 % 256, akku % 256;
  }

  /** The weighted sums of the pixels. */
  method SumBlock(block: seq<byte>, mask: nat) returns (at1: Rgb, at2: Rgb)
    requires |block| == 64 && mask < 0x1_0000_0000
    ensures at1 == Sum1(block, Indices4(mask, 16)) && at2 == Sum2(block, Indices4(mask, 16))
  {
    ghost var idx := Indices4(mask, 16);
    var cm := mask;
    at1, at2 := Rgb(0, 0, 0), Rgb(0, 0, 0);
    for i := 0 to 16
      invariant cm == Shr(mask, 2 * i)
      invariant at1 == Sum1(block, idx[..i]) && at2 == SumPixels(block, i)
    {
      assert idx[..i + 1][..i] == idx[..i];
      ShrAdd(mask, 2 * i, 2);
      assert Shr(cm, 2) == cm / 4;
      at1 := Plus(at1, Times(W1(cm % 4), Pixel(block, i)));
      at2 := Plus(at2, Pixel(block, i));
      cm := cm / 4;
    }
    assert idx[..16] == idx;
    SumsSplit(block, idx);
    at2 := Rgb(3 * at2.r - at1.r, 3 * at2.g - at1.g, 3 * at2.b - at1.b);
  }

  lemma {:induction false} SumPixelsFit(block: seq<byte>, n: nat)
    requires |block| == 64 && n <= 16
    ensures var s := SumPixels(block, n); 0 <= s.r <= 255 * n && 0 <= s.g <= 255 * n && 0 <= s.b <= 255 * n
  {
    if n > 0 {
      SumPixelsFit(block, n - 1);
    }
  }

  predicate Rounded(c: int, sum: int)
  {
    0 <= c < 256 && 16 * c <= sum + 8 < 16 * c + 16
  }

  /** The rounded mean colour, each channel a valid table index. */
  method AverageColor(block: seq<byte>) returns (c: Rgb)
    requires |block| == 64
    ensures var s := SumPixels(block, 16); Rounded(c.r, s.r) && Rounded(c.g, s.g) && Rounded(c.b, s.b)
  {
    var s := Rgb(0, 0, 0);
    for i := 0 to 16
      invariant s == SumPixels(block, i)
    {
      s := Plus(s, Pixel(block, i));
    }
    SumPixelsFit(block, 16);
    c := Rgb((8 + s.r) / 16, (8 + s.g) / 16, (8 + s.b) / 16);
  }

  /** The branch that solves the system is taken exactly when the indices differ, and then the
      determinant it divides by is positive. */
  method NormalEquations(block: seq<byte>, mask: nat)
    returns (solvable: bool, xx: nat, yy: nat, xy: nat, at1: Rgb, at2: Rgb)
    requires |block| == 64 && mask < 0x1_0000_0000
    ensures solvable <==> !Uniform(Indices4(mask, 16))
    ensures solvable ==> xx * yy - xy * xy > 0
    ensures solvable ==>
              xx == SumXX(Indices4(mask, 16)) && yy == SumYY(Indices4(mask, 16)) && xy == SumXY(Indices4(mask, 16))
    ensures solvable ==> at1 == Sum1(block, Indices4(mask, 16)) && at2 == Sum2(block, Indices4(mask, 16))
  {
    ghost var idx := Indices4(mask, 16);
    Pow2Word();
    MaskDigits(mask, 16);
    UniformTest(idx);
    solvable := BitXor(mask, mask * 4 % 0x1_0000_0000) >= 4;
    if solvable {
      xx, yy, xy := Accumulate(mask);
      at1, at2 := SumBlock(block, mask);
      VariancePositive(idx);
      Determinant(idx);
    } else {
      xx, yy, xy, at1, at2 := 0, 0, 0, Rgb(0, 0, 0), Rgb(0, 0, 0);
    }
  }
}

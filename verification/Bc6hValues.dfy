/** What BC6H does with endpoint values: sign extension, deltas, unquantization, interpolation, and
    why the results are finite half-precision floats. */
module Bc6hValues {
  import opened Bits

  type U16 = x: int | 0 <= x < 0x1_0000

  function ToU16(x: int): U16
  {
    x % 0x1_0000
  }

  /** A 16-bit pattern as a signed number. */
  function S16(c: U16): (v: int)
    ensures -0x8000 <= v < 0x8000 && ToU16(v) == c
  {
    if c < 0x8000 then c else c - 0x1_0000
  }

  // ----- sign extension

  function SignExtend(val: nat, size: nat): int
    requires size > 0
  {
    BitXor(val, Pow2(size - 1)) - Pow2(size - 1)
  }

  lemma {:induction false} FlipTop(v: nat, k: nat)
    requires v < 2 * Pow2(k)
    ensures BitXor(v, Pow2(k)) == if v < Pow2(k) then v + Pow2(k) else v - Pow2(k)
  {
    if k == 0 {
      assert BitXor(0, 0) == 0;
      assert BitXor(v, 1) == 1 - v;
    } else {
      var p := Pow2(k - 1);
      FlipTop(v / 2, k - 1);
      assert 2 * p / 2 == p && 2 * p % 2 == 0;
      assert BitXor(v, 2 * p) == v % 2 + 2 * BitXor(v / 2, p);
    }
  }

  /** Flipping the top bit and subtracting it extends the sign. */
  lemma SignExtendMeans(val: nat, size: nat)
    requires size > 0 && val < Pow2(size)
    ensures SignExtend(val, size) == if val < Pow2(size - 1) then val else val - Pow2(size)
  {
    FlipTop(val, size - 1);
  }

  /** A signed number of `size` bits. */
  predicate SignedFits(v: int, size: nat)
    requires size > 0
  {
    0 <= v + Pow2(size - 1) < 2 * Pow2(size - 1)
  }

  lemma ExtendFits(val: nat, size: nat)
    requires 0 < size <= 16 && val < Pow2(size)
    ensures SignedFits(S16(ToU16(SignExtend(val, size))), size)
    ensures S16(ToU16(SignExtend(val, size))) == SignExtend(val, size)
  {
    SignExtendMeans(val, size);
    Pow2Mono(size - 1, 15);
    Pow2Half();
    BackToSigned(SignExtend(val, size));
  }

  lemma Pow2Half()
    ensures Pow2(15) == 0x8000
  {
    assert Pow2(16) == 2 * Pow2(15);
    Pow2Word();
  }

  lemma BackToSigned(v: int)
    requires -0x8000 <= v < 0x8000
    ensures S16(ToU16(v)) == v
  {
  }

  // ----- deltas

  function ResolveDelta(base: U16, delta: U16, size: nat, isSigned: bool): U16
    requires 0 < size <= 16
  {
    var s := (base + delta) % Pow2(size);
    if isSigned then ToU16(SignExtend(s, size)) else (Pow2Mono(size, 16); Pow2Word(); s)
  }

  // ----- unquantization

  function UnquantizeUnsigned(c: U16, size: nat): U16
  {
    if size >= 15 || c == 0 then c
    else if c == Pow2(size) - 1 then 0xFFFF
    else ToU16((c * 0x1_0000 + 0x8000) / Pow2(size))
  }

  function UnquantizeSigned(c: U16, size: nat): U16
    requires size > 0
  {
    if size >= 16 || c == 0 then c
    else
      var v := S16(c);
      var a := if v < 0 then S16(ToU16(-v)) else v;
      var r := if a >= Pow2(size - 1) - 1 then 0x7FFF else (a * 0x8000 + 0x4000) / Pow2(size - 1);
      ToU16(if v < 0 then -r else r)
  }

  lemma ScaleFits(a: nat, p: nat)
    requires a < p - 1
    ensures 0 <= (a * 0x8000 + 0x4000) / p <= 0x7FFF
  {
    assert a * 0x8000 + 0x4000 < p * 0x8000;
    DivBelow(a * 0x8000 + 0x4000, p, 0x8000);
  }

  lemma MultMono(p: nat, q: nat, d: nat)
    requires q <= d
    ensures p * q <= p * d
  {
  }

  lemma DivBelow(x: nat, p: nat, q: nat)
    requires p > 0 && x < p * q
    ensures x / p < q
  {
    var d := x / p;
    assert p * d <= x < p * q;
    if d >= q {
      MultMono(p, q, d);
      assert false;
    }
  }

  /** Below 16 bits unquantization never reaches the most negative number. */
  lemma UnquantizeSignedFits(c: U16, size: nat)
    requires 0 < size < 16 && SignedFits(S16(c), size)
    ensures -0x7FFF <= S16(UnquantizeSigned(c, size)) <= 0x7FFF
  {
    if c != 0 {
      var v := S16(c);
      Pow2Mono(size - 1, 14);
      assert Pow2(14) == 0x4000;
      var a := if v < 0 then -v else v;
      assert a <= 0x4000 && S16(ToU16(a)) == a;
      if a < Pow2(size - 1) - 1 {
        ScaleFits(a, Pow2(size - 1));
      }
    }
  }

  // ----- interpolation and the last step

  function Interpolate(a: int, b: int, w: nat): int
    requires w <= 64
  {
    (a * (64 - w) + b * w + 32) / 64
  }

  function FinishUnsigned(t: int): U16
  {
    ToU16(t * 31 / 64)
  }

  /** Sign and magnitude; a negative zero becomes zero. */
  function FinishSigned(t: int): U16
  {
    Normal(if t < 0 then BitOr(-t * 31 / 32, 0x8000) else t * 31 / 32)
  }

  function Normal(r: int): U16
  {
    if r == 0x8000 then 0 else ToU16(r)
  }

  /** A half-precision float that is neither infinite nor a NaN, nor a negative zero. */
  predicate Finite(h: U16)
  {
    h % 0x8000 < 0x7C00 && h != 0x8000
  }

  /** The weighted mean of two numbers lies between their bounds. */
  lemma Between(a: int, b: int, w: nat, lo: int, hi: int)
    requires w <= 64 && lo <= a <= hi && lo <= b <= hi
    ensures lo <= Interpolate(a, b, w) <= hi
  {
    var x := a * (64 - w) + b * w;
    assert (a - lo) * (64 - w) >= 0 && (b - lo) * w >= 0;
    assert (hi - a) * (64 - w) >= 0 && (hi - b) * w >= 0;
    assert 64 * lo <= x <= 64 * hi;
  }

  lemma UnsignedFinite(a: U16, b: U16, w: nat)
    requires w <= 64
    ensures FinishUnsigned(Interpolate(a, b, w)) <= 0x7BFF && Finite(FinishUnsigned(Interpolate(a, b, w)))
  {
    Between(a, b, w, 0, 0xFFFF);
  }

  lemma OrSign(x: nat)
    requires x < 0x8000
    ensures BitOr(x, 0x8000) == x + 0x8000
  {
    Pow2Half();
    Pow2Add(15, 0);
    BitOrDisjoint(x, 15, 1);
  }

  /** The last step without the bit operation. */
  lemma FinishSignedIs(t: int, x: nat)
    requires x == (if t < 0 then -t else t) * 31 / 32 && x < 0x8000
    ensures FinishSigned(t) == Normal(if t < 0 then x + 0x8000 else x)
  {
    OrSign(x);
  }

  lemma FiniteExcept(t: int, x: nat)
    requires -0x8000 <= t <= 0x7FFF && x == (if t < 0 then -t else t) * 31 / 32
    ensures var h := Normal(if t < 0 then x + 0x8000 else x);
            x < 0x8000 && h % 0x8000 == x && (Finite(h) <==> t != -0x8000)
  {
  }

  lemma FinishSignedMeans(t: int)
    requires -0x8000 <= t <= 0x7FFF
    ensures Finite(FinishSigned(t)) <==> t != -0x8000
    ensures FinishSigned(t) % 0x8000 == (if t < 0 then -t else t) * 31 / 32
  {
    var x := (if t < 0 then -t else t) * 31 / 32;
    FiniteExcept(t, x);
    FinishSignedIs(t, x);
  }

  lemma LowestMean(a: int, b: int, w: nat)
    requires w <= 64 && -0x8000 <= a <= 0x7FFF && -0x8000 <= b <= 0x7FFF
    ensures Interpolate(a, b, w) == -0x8000 <==> (a + 0x8000) * (64 - w) + (b + 0x8000) * w < 32
  {
    Shifted(a, b, w);
    FloorLowest(a * (64 - w) + b * w, (a + 0x8000) * (64 - w) + (b + 0x8000) * w);
  }

  lemma Shifted(a: int, b: int, w: int)
    requires 0 <= w <= 64 && a >= -0x8000 && b >= -0x8000
    ensures 0 <= (a + 0x8000) * (64 - w) + (b + 0x8000) * w == a * (64 - w) + b * w + 64 * 0x8000
  {
    assert (a + 0x8000) * (64 - w) >= 0 && (b + 0x8000) * w >= 0;
  }

  lemma FloorLowest(y: int, x: nat)
    requires x == y + 64 * 0x8000
    ensures (y + 32) / 64 == -0x8000 <==> x < 32
  {
  }

  /** The weighted endpoints stay half a step above the most negative number. */
  predicate HighMean(a: int, b: int, w: int)
  {
    (a + 0x8000) * (64 - w) + (b + 0x8000) * w >= 32
  }

  /** Exactly when a signed texel is finite: the endpoints do not average to the most negative
      number, which has no finite image. */
  lemma SignedFinite(a: int, b: int, w: nat)
    requires w <= 64 && -0x8000 <= a <= 0x7FFF && -0x8000 <= b <= 0x7FFF
    ensures Finite(FinishSigned(Interpolate(a, b, w))) <==> HighMean(a, b, w)
  {
    Between(a, b, w, -0x8000, 0x7FFF);
    FinishSignedMeans(Interpolate(a, b, w));
    LowestMean(a, b, w);
  }

  /** With endpoints above the most negative number every texel is finite. */
  lemma SignedFiniteAbove(a: int, b: int, w: nat)
    requires w <= 64 && -0x7FFF <= a <= 0x7FFF && -0x7FFF <= b <= 0x7FFF
    ensures Finite(FinishSigned(Interpolate(a, b, w)))
  {
    Between(a, b, w, -0x7FFF, 0x7FFF);
    FinishSignedMeans(Interpolate(a, b, w));
  }
}

/** The colour block without alpha: the BC1 encoder of stb_dxt.cpp against the decoder of
    bc_decoder.cpp. */
module BcColor {
  import opened Bits
  import opened BcAlpha

  type Word = x: int | 0 <= x < 0x1_0000

  // ----- decoder

  /** A colour while the decoder computes with it; opaque alpha is a negative number. */
  datatype Color = Color(b: int, g: int, r: int, a: int)

  const OPAQUE := -0x100_0000

  function Red(c: Word): nat { c / 2048 }
  function Green(c: Word): nat { c / 32 % 64 }
  function Blue(c: Word): nat { c % 32 }

  function Extract565(c: Word): Color
  {
    Color(BitOr(Blue(c) / 4, 8 * Blue(c)), BitOr(Green(c) / 16, 4 * Green(c)), BitOr(Red(c) / 4, 8 * Red(c)), OPAQUE)
  }

  /** Division that truncates towards zero. */
  function Div(x: int, d: int): int
    requires d > 0
  {
    if x < 0 then -(-x / d) else x / d
  }

  /** (2x + y) / 3. */
  function Third(x: Color, y: Color): Color
  {
    Color(Div(2 * x.b + y.b, 3), Div(2 * x.g + y.g, 3), Div(2 * x.r + y.r, 3), Div(2 * x.a + y.a, 3))
  }

  /** (x + y) >> 1. */
  function Half(x: Color, y: Color): Color
  {
    Color((x.b + y.b) / 2, (x.g + y.g) / 2, (x.r + y.r) / 2, (x.a + y.a) / 2)
  }

  /** The four colours: with separate alpha or descending endpoints two thirds are
      interpolated, otherwise one half, and the last colour is black. */
  function Palette4(c0: Word, c1: Word, k: nat, separate: bool, hasAlpha: bool): Color
    requires k < 4
  {
    var a, b := Extract565(c0), Extract565(c1);
    if k == 0 then a
    else if k == 1 then b
    else if separate || c0 > c1 then if k == 2 then Third(a, b) else Third(b, a)
    else if k == 2 then Half(a, b)
    else Color(0, 0, 0, if hasAlpha then 0 else OPAQUE)
  }

  datatype Rgb = Rgb(r: int, g: int, b: int)

  datatype Texel = Texel(rgb: Rgb, alpha: byte)

  /** The four bytes stored for a colour. */
  function Pack8888(c: Color): Texel
  {
    Texel(Rgb(c.r % 256, c.g % 256, c.b % 256), c.a / 0x100_0000 % 256)
  }

  function GetIdx2(idx: nat, i: nat): (k: nat)
    ensures k < 4
  {
    Shr(idx, 2 * i) % 4
  }

  function Endpoint(block: seq<byte>, i: nat): Word
    requires |block| == 8 && i < 2
  {
    block[2 * i] as int + 256 * block[2 * i + 1] as int
  }

  function DecodeColor(block: seq<byte>, i: nat, separate: bool, hasAlpha: bool): Texel
    requires |block| == 8 && i < 16
  {
    Pack8888(Palette4(Endpoint(block, 0), Endpoint(block, 1), GetIdx2(LittleEndian(block[4..]), i), separate, hasAlpha))
  }

  // ----- the encoder's palette

  /** A 5-6-5 colour widened to bytes by replicating bits. */
  function From16Bit(c: Word): Rgb
  {
    Rgb(Red(c) * 33 / 4, Green(c) * 65 / 16, Blue(c) * 33 / 4)
  }

  function Lerp13(a: int, b: int): int
  {
    Div(2 * a + b, 3)
  }

  function LerpRgb(a: Rgb, b: Rgb): Rgb
  {
    Rgb(Lerp13(a.r, b.r), Lerp13(a.g, b.g), Lerp13(a.b, b.b))
  }

  function Eval4(c0: Word, c1: Word, k: nat): Rgb
    requires k < 4
  {
    var a, b := From16Bit(c0), From16Bit(c1);
    if k == 0 then a else if k == 1 then b else if k == 2 then LerpRgb(a, b) else LerpRgb(b, a)
  }

  function Widened(c: Rgb): Color
  {
    Color(c.b, c.g, c.r, OPAQUE)
  }

  predicate Bytes(c: Rgb)
  {
    0 <= c.r < 256 && 0 <= c.g < 256 && 0 <= c.b < 256
  }

  /** Replicating bits by or and by multiplication is the same. */
  lemma Widen(c: Word)
    ensures Extract565(c) == Widened(From16Bit(c)) && Bytes(From16Bit(c))
  {
    WidenFive(Red(c));
    WidenFive(Blue(c));
    var g := Green(c);
    assert Pow2(2) == 4 && Shl(g, 2) == 4 * g;
    BitOrDisjoint(g / 16, 2, g);
  }

  lemma WidenFive(v: nat)
    requires v < 32
    ensures BitOr(v / 4, 8 * v) == v * 33 / 4 < 256
  {
    assert Pow2(3) == 8 && Shl(v, 3) == 8 * v;
    BitOrDisjoint(v / 4, 3, v);
  }

  function Opaque(c: Rgb): Texel
  {
    Texel(c, 255)
  }

  lemma PackWidened(a: Rgb)
    requires Bytes(a)
    ensures Pack8888(Widened(a)) == Opaque(a)
  {
  }

  /** Thirds of opaque colours are opaque, alpha being a multiple of three. */
  lemma ThirdWidened(a: Rgb, b: Rgb)
    requires Bytes(a) && Bytes(b)
    ensures Third(Widened(a), Widened(b)) == Widened(LerpRgb(a, b)) && Bytes(LerpRgb(a, b))
  {
    assert Div(2 * OPAQUE + OPAQUE, 3) == OPAQUE;
  }

  /** The decoder's four colours are the encoder's. */
  lemma PaletteAgrees(c0: Word, c1: Word, k: nat, separate: bool, hasAlpha: bool)
    requires k < 4 && (separate || c0 > c1)
    ensures Pack8888(Palette4(c0, c1, k, separate, hasAlpha)) == Opaque(Eval4(c0, c1, k))
  {
    Widen(c0);
    Widen(c1);
    var a, b := From16Bit(c0), From16Bit(c1);
    PackWidened(a);
    PackWidened(b);
    ThirdWidened(a, b);
    PackWidened(LerpRgb(a, b));
    ThirdWidened(b, a);
    PackWidened(LerpRgb(b, a));
  }

  lemma Same(a: Rgb)
    requires Bytes(a)
    ensures LerpRgb(a, a) == a && Third(Widened(a), Widened(a)) == Widened(a) == Half(Widened(a), Widened(a))
  {
  }

  /** With equal endpoints every entry but the last of the three-colour mode is that colour. */
  lemma PaletteEqual(c: Word, k: nat, separate: bool, hasAlpha: bool)
    requires k < 3
    ensures Pack8888(Palette4(c, c, k, separate, hasAlpha)) == Opaque(From16Bit(c))
    ensures Eval4(c, c, k) == From16Bit(c)
  {
    Widen(c);
    Same(From16Bit(c));
    PackWidened(From16Bit(c));
  }

  /** v is half way between x and y, rounded down. */
  predicate HalfWay(x: int, y: int, v: int)
  {
    2 * v <= x + y <= 2 * v + 1
  }

  /** v is a third of the way from x to y, rounded down. */
  predicate ThirdOfWay(x: int, y: int, v: int)
  {
    3 * v <= 2 * x + y <= 3 * v + 2
  }

  /** Endpoints that do not descend: one colour half way, then black, transparent where there is
      alpha in the block. */
  lemma PaletteThree(c0: Word, c1: Word, hasAlpha: bool, a: Rgb, b: Rgb)
    requires c0 <= c1 && a == From16Bit(c0) && b == From16Bit(c1)
    ensures var t := Pack8888(Palette4(c0, c1, 2, false, hasAlpha));
            t.alpha == 255 && HalfWay(a.r, b.r, t.rgb.r) && HalfWay(a.g, b.g, t.rgb.g) && HalfWay(a.b, b.b, t.rgb.b)
    ensures Pack8888(Palette4(c0, c1, 3, false, hasAlpha)) == Texel(Rgb(0, 0, 0), if hasAlpha then 0 else 255)
  {
    PaletteHalf(c0, c1, hasAlpha);
    HalfPacked(a, b);
    PackBlack(hasAlpha);
  }

  lemma PaletteHalf(c0: Word, c1: Word, hasAlpha: bool)
    requires c0 <= c1
    ensures Palette4(c0, c1, 2, false, hasAlpha) == Half(Widened(From16Bit(c0)), Widened(From16Bit(c1)))
    ensures Bytes(From16Bit(c0)) && Bytes(From16Bit(c1))
    ensures Palette4(c0, c1, 3, false, hasAlpha) == Color(0, 0, 0, if hasAlpha then 0 else OPAQUE)
  {
    Widen(c0);
    Widen(c1);
  }

  lemma PackBlack(hasAlpha: bool)
    ensures Pack8888(Color(0, 0, 0, if hasAlpha then 0 else OPAQUE)) == Texel(Rgb(0, 0, 0), if hasAlpha then 0 else 255)
  {
  }

  lemma HalfPacked(a: Rgb, b: Rgb)
    requires Bytes(a) && Bytes(b)
    ensures var t := Pack8888(Half(Widened(a), Widened(b)));
            t.alpha == 255 && HalfWay(a.r, b.r, t.rgb.r) && HalfWay(a.g, b.g, t.rgb.g) && HalfWay(a.b, b.b, t.rgb.b)
  {
    var c := Rgb((a.r + b.r) / 2, (a.g + b.g) / 2, (a.b + b.b) / 2);
    assert Half(Widened(a), Widened(b)) == Widened(c);
    PackWidened(c);
  }

  /** Otherwise two colours at a third of the way from either endpoint. */
  lemma PaletteFour(c0: Word, c1: Word, k: nat, separate: bool, hasAlpha: bool)
    requires (separate || c0 > c1) && 2 <= k < 4
    ensures var a, b := if k == 2 then From16Bit(c0) else From16Bit(c1), if k == 2 then From16Bit(c1)
              else From16Bit(c0);
            var t := Pack8888(Palette4(c0, c1, k, separate, hasAlpha));
            && t.alpha == 255 && ThirdOfWay(a.r, b.r, t.rgb.r)
            && ThirdOfWay(a.g, b.g, t.rgb.g) && ThirdOfWay(a.b, b.b, t.rgb.b)
  {
    Widen(c0);
    Widen(c1);
    PaletteAgrees(c0, c1, k, separate, hasAlpha);
  }

  // ----- matching

  /** Projection on the direction dir. */
  function Dot(p: Rgb, dir: Rgb): int
  {
    p.r * dir.r + p.g * dir.g + p.b * dir.b
  }

  function Direction(c0: Word, c1: Word): Rgb
  {
    var a, b := From16Bit(c0), From16Bit(c1);
    Rgb(a.r - b.r, a.g - b.g, a.b - b.b)
  }

  function Stop(c0: Word, c1: Word, k: nat): int
    requires k < 4
  {
    Dot(Eval4(c0, c1, k), Direction(c0, c1))
  }

  /** The choice between the four stops, by the three crossover points. */
  function Choose(dot: int, s0: int, s1: int, s2: int, s3: int): (k: nat)
    ensures k < 4
  {
    if 2 * dot < s3 + s2 then if 2 * dot < s1 + s3 then 1 else 3
    else if 2 * dot < s2 + s0 then 2 else 0
  }

  lemma ChannelOrder(a: int, b: int)
    requires 0 <= a && 0 <= b
    ensures b * (a - b) <= Lerp13(b, a) * (a - b) <= Lerp13(a, b) * (a - b) <= a * (a - b)
  {
    var x, y := Lerp13(a, b), Lerp13(b, a);
    assert a >= b ==> b <= y <= x <= a;
    assert a <= b ==> a <= x <= y <= b;
    Scale(b, y, a - b);
    Scale(y, x, a - b);
    Scale(x, a, a - b);
  }

  lemma Scale(x: int, y: int, d: int)
    requires d >= 0 ==> x <= y
    requires d <= 0 ==> y <= x
    ensures x * d <= y * d
  {
    assert (y - x) * d >= 0;
  }

  /** Along the direction the colours lie in the order 1, 3, 2, 0. */
  lemma StopsOrdered(c0: Word, c1: Word)
    ensures Stop(c0, c1, 1) <= Stop(c0, c1, 3) <= Stop(c0, c1, 2) <= Stop(c0, c1, 0)
  {
    var a, b := From16Bit(c0), From16Bit(c1);
    ChannelOrder(a.r, b.r);
    ChannelOrder(a.g, b.g);
    ChannelOrder(a.b, b.b);
  }

  lemma ChooseNearest(dot: int, s: seq<int>, k: nat)
    requires |s| == 4 && k < 4 && s[1] <= s[3] <= s[2] <= s[0]
    ensures Far(dot, s[Choose(dot, s[0], s[1], s[2], s[3])]) <= Far(dot, s[k])
  {
    match k { case 0 => case 1 => case 2 => case _ => }
  }

  /** Pixel i of a block of 16 pixels of four bytes. */
  function Pixel(block: seq<byte>, i: nat): Rgb
    requires |block| == 64 && i < 16
  {
    Rgb(block[4 * i], block[4 * i + 1], block[4 * i + 2])
  }

  function MatchIndex(block: seq<byte>, c0: Word, c1: Word, i: nat): (k: nat)
    requires |block| == 64 && i < 16
    ensures k < 4
  {
    Choose(Dot(Pixel(block, i), Direction(c0, c1)), Stop(c0, c1, 0), Stop(c0, c1, 1), Stop(c0, c1, 2), Stop(c0, c1, 3))
  }

  /** No palette colour projects nearer to the pixel than the one chosen. */
  lemma MatchNearest(block: seq<byte>, c0: Word, c1: Word, i: nat, k: nat)
    requires |block| == 64 && i < 16 && k < 4
    ensures var dir := Direction(c0, c1);
            var dot := Dot(Pixel(block, i), dir);
            Far(dot, Dot(Eval4(c0, c1, MatchIndex(block, c0, c1, i)), dir)) <= Far(dot, Dot(Eval4(c0, c1, k), dir))
  {
    StopsOrdered(c0, c1);
    var s := [Stop(c0, c1, 0), Stop(c0, c1, 1), Stop(c0, c1, 2), Stop(c0, c1, 3)];
    ChooseNearest(Dot(Pixel(block, i), Direction(c0, c1)), s, k);
  }

  // ----- masks: sixteen two-bit indices in one word

  function MaskOf(idx: seq<nat>): nat
  {
    if |idx| == 0 then 0 else idx[0] + 4 * MaskOf(idx[1..])
  }

  predicate Digits(idx: seq<nat>)
  {
    forall i :: 0 <= i < |idx| ==> idx[i] < 4
  }

  lemma {:induction false} DigitBack(idx: seq<nat>, i: nat)
    requires i < |idx| && Digits(idx)
    ensures GetIdx2(MaskOf(idx), i) == idx[i]
    decreases i
  {
    if i > 0 {
      ShrAdd(MaskOf(idx), 2, 2 * (i - 1));
      assert Shr(MaskOf(idx), 2) == MaskOf(idx[1..]);
      DigitBack(idx[1..], i - 1);
    }
  }

  lemma {:induction false} MaskFits(idx: seq<nat>)
    requires Digits(idx)
    ensures MaskOf(idx) < Pow2(2 * |idx|)
  {
    if |idx| > 0 {
      MaskFits(idx[1..]);
      assert Pow2(2 * |idx|) == 4 * Pow2(2 * |idx| - 2);
    }
  }

  /** The entry with the endpoints exchanged. */
  function Flip(k: nat): (r: nat)
    requires k < 4
    ensures r < 4
  {
    if k == 0 then 1 else if k == 1 then 0 else if k == 2 then 3 else 2
  }

  lemma FlipEval(c0: Word, c1: Word, k: nat)
    requires k < 4
    ensures Eval4(c1, c0, Flip(k)) == Eval4(c0, c1, k)
  {
  }

  function Flipped(idx: seq<nat>): (r: seq<nat>)
    requires Digits(idx)
    ensures |r| == |idx| && Digits(r)
  {
    seq(|idx|, i requires 0 <= i < |idx| => Flip(idx[i]))
  }

  function Ones(n: nat): seq<nat>
  {
    seq(n, _ => 1)
  }

  lemma XorBit(x: nat, a: nat, y: nat, b: nat)
    requires x < 2 && y < 2
    ensures BitXor(x + 2 * a, y + 2 * b) == (if x == y then 0 else 1) + 2 * BitXor(a, b)
  {
    assert (x + 2 * a) / 2 == a && (y + 2 * b) / 2 == b;
  }

  lemma XorDigit(x: nat, a: nat, b: nat)
    requires x < 4
    ensures BitXor(x + 4 * a, 1 + 4 * b) == Flip(x) + 4 * BitXor(a, b)
  {
    var lo, hi := x % 2, x / 2;
    XorBit(hi, a, 0, b);
    XorBit(lo, hi + 2 * a, 1, 0 + 2 * b);
    assert x + 4 * a == lo + 2 * (hi + 2 * a) && 1 + 4 * b == 1 + 2 * (0 + 2 * b);
  }

  lemma {:induction false} XorFlips(idx: seq<nat>)
    requires Digits(idx)
    ensures BitXor(MaskOf(idx), MaskOf(Ones(|idx|))) == MaskOf(Flipped(idx))
  {
    if |idx| > 0 {
      XorFlips(idx[1..]);
      assert Ones(|idx|)[1..] == Ones(|idx| - 1);
      assert Flipped(idx)[1..] == Flipped(idx[1..]);
      XorDigit(idx[0], MaskOf(idx[1..]), MaskOf(Ones(|idx| - 1)));
    }
  }

  lemma {:induction false} OnesValue(n: nat)
    ensures 3 * MaskOf(Ones(n)) + 1 == Pow2(2 * n)
  {
    if n > 0 {
      OnesValue(n - 1);
      assert Ones(n)[1..] == Ones(n - 1);
      assert Pow2(2 * n) == 4 * Pow2(2 * n - 2);
    }
  }
}

/** The BC1 encoder's control flow: single colours, matching, refining, ordering the endpoints
    and writing the eight bytes. The endpoints of the floating-point optimiser are
    arbitrary inputs, and so is the rounding of the floating-point quotients. */
module BcEncode {
  import opened Bits
  import opened BcAlpha
  import opened BcColor
  import opened BcRefine
  import BcSingle
  import BcSolve

  datatype Ends = Ends(max: Word, min: Word)

  /** The sixteen indices chosen for a pair of endpoints. */
  function Matches(block: seq<byte>, e: Ends): (idx: seq<nat>)
    requires |block| == 64
    ensures |idx| == 16 && Digits(idx)
  {
    seq(16, i requires 0 <= i < 16 => MatchIndex(block, e.max, e.min, i))
  }

  lemma MaskSmall(rest: seq<nat>)
    requires |rest| < 16 && Digits(rest)
    ensures MaskOf(rest) * 4 % 0x1_0000_0000 == 4 * MaskOf(rest)
  {
    var n := 2 * |rest|;
    MaskFits(rest);
    assert Pow2(n + 2) == 4 * Pow2(n);
    Pow2Mono(n + 2, 32);
    Pow2Word();
  }

  lemma OrDigit(k: nat, m: nat, w: nat)
    requires k < 4 && w == 4 * m
    ensures BitOr(k, w) == k + w
  {
    assert Pow2(2) == 4 && Shl(m, 2) == 4 * m;
    BitOrDisjoint(k, 2, m);
  }

  /** Shifting the mask and putting an index below keeps the others. */
  lemma PushDigit(k: nat, rest: seq<nat>, w: nat)
    requires k < 4 && |rest| < 16 && Digits(rest) && w == MaskOf(rest) * 4 % 0x1_0000_0000
    ensures w == 4 * MaskOf(rest) && k + w == MaskOf([k] + rest)
  {
    MaskSmall(rest);
    assert ([k] + rest)[1..] == rest;
  }

  function Choices(dots: seq<int>, s: seq<int>): (idx: seq<nat>)
    requires |dots| == 16 && |s| == 4
    ensures |idx| == 16 && Digits(idx)
  {
    seq(16, i requires 0 <= i < 16 => Choose(dots[i], s[0], s[1], s[2], s[3]))
  }

  /** Packs the sixteen choices, last first. */
  method PackChoices(dots: array<int>, s: seq<int>) returns (mask: nat)
    requires dots.Length == 16 && |s| == 4
    ensures mask == MaskOf(Choices(dots[..], s))
  {
    ghost var idx := Choices(dots[..], s);
    mask := 0;
    for i := 16 downto 0
      invariant mask == MaskOf(idx[i..])
    {
      var k := Choose(dots[i], s[0], s[1], s[2], s[3]);
      assert idx[i..] == [k] + idx[i + 1..];
      mask := mask * 4 % 0x1_0000_0000;
      PushDigit(k, idx[i + 1..], mask);
      OrDigit(k, MaskOf(idx[i + 1..]), mask);
      mask := BitOr(k, mask);
    }
    assert idx[0..] == idx;
  }

  function Stops(e: Ends): (s: seq<int>)
    ensures |s| == 4
  {
    [Stop(e.max, e.min, 0), Stop(e.max, e.min, 1), Stop(e.max, e.min, 2), Stop(e.max, e.min, 3)]
  }

  method MatchColorsBlock(block: seq<byte>, e: Ends) returns (mask: nat)
    requires |block| == 64
    ensures mask == MaskOf(Matches(block, e))
  {
    var dir := Direction(e.max, e.min);
    var dots := new int[16];
    for i := 0 to 16
      invariant forall j :: 0 <= j < i ==> dots[j] == Dot(Pixel(block, j), dir)
    {
      dots[i] := Dot(Pixel(block, i), dir);
    }
    mask := PackChoices(dots, Stops(e));
    assert Choices(dots[..], Stops(e)) == Matches(block, e);
  }

  function MaskFor(block: seq<byte>, e: Ends): nat
    requires |block| == 64
  {
    if e.max == e.min then 0 else MaskOf(Matches(block, e))
  }

  /** The smaller endpoint goes first. */
  function Reorder(e: Ends): (r: Ends)
    ensures r.max <= r.min && (r == e || r == Ends(e.min, e.max))
  {
    if e.min < e.max then Ends(e.min, e.max) else e
  }

  // ----- endpoints from channels

  lemma Shift5(x: nat)
    ensures Pow2(5) == 32 && Shl(x, 5) == 32 * x
  {
  }

  lemma Shift11(x: nat)
    ensures Pow2(11) == 2048 && Shl(x, 11) == 2048 * x
  {
    assert Shl(x, 6) == 64 * x && Pow2(6) == 64;
    ShlTwice(x, 6, 5);
    Shift5(64 * x);
    Pow2Add(5, 6);
    Shift5(64);
  }

  lemma FieldsOr(r: nat, g: nat, b: nat, gr: nat)
    requires r < 32 && g < 64 && b < 32 && gr == g + 64 * r
    ensures BitOr(b, BitOr(32 * g, 2048 * r)) == 32 * gr + b
  {
    Shift11(r);
    Shift5(gr);
    BitOrDisjoint(32 * g, 11, r);
    BitOrDisjoint(b, 5, gr);
  }

  lemma FieldsBack(r: nat, g: nat, b: nat, gr: nat, w: nat)
    requires r < 32 && g < 64 && b < 32 && gr == g + 64 * r && w == 32 * gr + b
    ensures w < 0x1_0000 && Red(w) == r && Green(w) == g && Blue(w) == b
  {
    assert w / 32 == gr;
    assert w / 2048 == gr / 64;
  }

  /** Three channels in one word. */
  function Pack565(r: nat, g: nat, b: nat): (w: Word)
    requires r < 32 && g < 64 && b < 32
    ensures Red(w) == r && Green(w) == g && Blue(w) == b
  {
    FieldsOr(r, g, b, g + 64 * r);
    FieldsBack(r, g, b, g + 64 * r, BitOr(b, BitOr(32 * g, 2048 * r)));
    BitOr(b, BitOr(32 * g, 2048 * r))
  }

  /** The endpoints the tables give for a single colour. */
  function SingleEnds(c: Rgb): Ends
    requires Bytes(c)
  {
    var r, g, b := BcSingle.Match5(c.r), BcSingle.Match6(c.g), BcSingle.Match5(c.b);
    Ends(Pack565(r.max, g.max, b.max), Pack565(r.min, g.min, b.min))
  }

  /** What index 2 makes of them. */
  function SingleColor(c: Rgb): Rgb
    requires Bytes(c)
  {
    Rgb(BcSingle.Blend5(BcSingle.Match5(c.r)), BcSingle.Blend6(BcSingle.Match6(c.g)),
        BcSingle.Blend5(BcSingle.Match5(c.b)))
  }

  lemma SingleEval(c: Rgb)
    requires Bytes(c)
    ensures Eval4(SingleEnds(c).max, SingleEnds(c).min, 2) == SingleColor(c)
  {
  }

  /** Every channel of d is within 1 of c, and equal exactly for the values the tables hit. */
  predicate CloseTo(c: Rgb, d: Rgb)
    requires Bytes(c)
  {
    && BcSingle.Off(d.r, c.r) <= 1 && BcSingle.Off(d.g, c.g) <= 1 && BcSingle.Off(d.b, c.b) <= 1
    && (d.r == c.r <==> BcSingle.Exact5(c.r)) && (d.g == c.g <==> BcSingle.Exact6(c.g))
        && (d.b == c.b <==> BcSingle.Exact5(c.b))
  }

  lemma SingleClose(c: Rgb)
    requires Bytes(c)
    ensures CloseTo(c, SingleColor(c))
  {
    BcSingle.Single5(c.r);
    BcSingle.Single6(c.g);
    BcSingle.Single5(c.b);
  }

  // ----- refinement

  /** The rounded mean of the block. */
  function Average(block: seq<byte>): (c: Rgb)
    requires |block| == 64
    ensures Bytes(c)
  {
    var s := SumPixels(block, 16);
    SumPixelsFit(block, 16);
    Rgb((s.r + 8) / 16, (s.g + 8) / 16, (s.b + 8) / 16)
  }

  /** The quotients of the least-squares solution for the two endpoints. */
  datatype Quotients = Quotients(max: BcSolve.Channels, min: BcSolve.Channels)

  function Quantized(c: BcSolve.Channels): Word
  {
    Pack565(BcSolve.Quantize5(c.r), BcSolve.Quantize6(c.g), BcSolve.Quantize5(c.b))
  }

  /** The quotients of all channels from the sums of a block, rounded by fl. */
  function Solve(fl: real -> real, xx: nat, yy: nat, xy: nat, at1: Rgb, at2: Rgb): Quotients
    requires xx * yy - xy * xy > 0 && BcSolve.Rounds(fl)
  {
    var r := BcSolve.Rounded(fl, xx, yy, xy, at1.r, at2.r);
    var g := BcSolve.Rounded(fl, xx, yy, xy, at1.g, at2.g);
    var b := BcSolve.Rounded(fl, xx, yy, xy, at1.b, at2.b);
    Quotients(BcSolve.Channels(r.0, g.0, b.0), BcSolve.Channels(r.1, g.1, b.1))
  }

  lemma Solvable(idx: seq<nat>)
    requires Digits(idx) && !Uniform(idx)
    ensures SumXX(idx) * SumYY(idx) - SumXY(idx) * SumXY(idx) > 0
  {
    VariancePositive(idx);
    Determinant(idx);
  }

  /** The quotients for the indices of a mask. */
  function Solved(block: seq<byte>, idx: seq<nat>, fl: real -> real): Quotients
    requires |block| == 64 && |idx| == 16 && Digits(idx) && !Uniform(idx) && BcSolve.Rounds(fl)
  {
    Solvable(idx);
    Solve(fl, SumXX(idx), SumYY(idx), SumXY(idx), Sum1(block, idx), Sum2(block, idx))
  }

  /** The endpoints a refinement comes to: those of the mean colour when all indices agree,
      otherwise the quantized solution of the system. */
  function Raw(block: seq<byte>, mask: nat, fl: real -> real): Ends
    requires |block| == 64 && BcSolve.Rounds(fl)
  {
    var idx := Indices4(mask, 16);
    if Uniform(idx) then SingleEnds(Average(block))
    else
      var x := Solved(block, idx, fl);
      Ends(Quantized(x.max), Quantized(x.min))
  }

  /** The refinement of a block as a function of the mask. */
  function Refiner(block: seq<byte>, fl: real -> real): nat -> Ends
    requires |block| == 64 && BcSolve.Rounds(fl)
  {
    (mask: nat) => Raw(block, mask, fl)
  }

  /** The endpoints in use after n refinement steps: a step that changes nothing, makes the
      endpoints equal or leaves the indices as they were is the last one. */
  function Settle(block: seq<byte>, e: Ends, n: nat, refine: nat -> Ends): Ends
    requires |block| == 64
    decreases n
  {
    if n == 0 then e
    else
      var raw := refine(MaskFor(block, e));
      var r := Reorder(raw);
      if raw == e || r.max == r.min || MaskFor(block, r) == MaskFor(block, e) then r
      else Settle(block, r, n - 1, refine)
  }

  lemma SettleStep(block: seq<byte>, e: Ends, n: nat, next: nat, refine: nat -> Ends)
    requires |block| == 64 && n == next + 1
    ensures var raw := refine(MaskFor(block, e));
            var r := Reorder(raw);
            Settle(block, e, n, refine) ==
            if raw == e || r.max == r.min || MaskFor(block, r) == MaskFor(block, e) then r
            else Settle(block, r, next, refine)
  {
  }

  /** One refinement: solves for the endpoints, stores them in order and tells whether they
      differ from those before. */
  method RefineBlock(block: seq<byte>, e: Ends, mask: nat, fl: real -> real) returns (r: Ends, changed: bool)
    requires |block| == 64 && mask < 0x1_0000_0000 && BcSolve.Rounds(fl)
    ensures var raw := Raw(block, mask, fl); r == Reorder(raw) && changed == (raw != e)
    ensures Refined(block, mask, r, fl)
  {
    RefineMeets(block, mask, fl);
    var solvable, xx, yy, xy, at1, at2 := NormalEquations(block, mask);
    if solvable {
      var x := Solve(fl, xx, yy, xy, at1, at2);
      r := Ends(Quantized(x.max), Quantized(x.min));
    } else {
      var c := AverageColor(block);
      assert c == Average(block);
      r := SingleEnds(c);
    }
    changed := e.min != r.min || e.max != r.max;
    if r.min < r.max {
      r := Ends(r.min, r.max);
    }
  }

  /** v is no nearer to the quotient x than w, up to the precision of the midpoint table. */
  predicate NoNearer(x: real, w: int, v: int)
  {
    var y := 255.0 * BcSolve.Saturated(x);
    BcSolve.Gap(y, w as real) <= BcSolve.Gap(y, v as real) + 0.0003
  }

  lemma Widens(v: Word)
    ensures From16Bit(v) == Rgb(BcSolve.Level5(Red(v)), BcSolve.Level6(Green(v)), BcSolve.Level5(Blue(v)))
  {
  }

  /** No colour of 5-6-5 bits is nearer to the quotients, channel by channel. */
  predicate Closest(x: BcSolve.Channels, w: Word, v: Word)
  {
    && NoNearer(x.r, From16Bit(w).r, From16Bit(v).r)
    && NoNearer(x.g, From16Bit(w).g, From16Bit(v).g)
    && NoNearer(x.b, From16Bit(w).b, From16Bit(v).b)
  }

  lemma QuantizedClosest(x: BcSolve.Channels, v: Word)
    ensures Closest(x, Quantized(x), v)
  {
    Widens(v);
    Widens(Quantized(x));
    BcSolve.Nearest5(x.r, Red(v));
    BcSolve.Nearest6(x.g, Green(v));
    BcSolve.Nearest5(x.b, Blue(v));
  }

  /** Without rounding, channel c of the solution is that of the least-squares system. */
  lemma SolvedExactly(block: seq<byte>, idx: seq<nat>, c: nat, fl: real -> real)
    requires |block| == 64 && |idx| == 16 && Digits(idx) && c < 3 && !Uniform(idx) && BcSolve.Identity(fl)
    ensures SumXX(idx) * SumYY(idx) - SumXY(idx) * SumXY(idx) > 0
    ensures var x, q := Solved(block, idx, fl), BcSolve.Solution(block, idx, c);
            q == (BcSolve.ChannelOf(x.max, c), BcSolve.ChannelOf(x.min, c))
  {
    Solvable(idx);
    BcSolve.RoundedExactly(fl, SumXX(idx), SumYY(idx), SumXY(idx), Sum1(block, idx).r, Sum2(block, idx).r);
    BcSolve.RoundedExactly(fl, SumXX(idx), SumYY(idx), SumXY(idx), Sum1(block, idx).g, Sum2(block, idx).g);
    BcSolve.RoundedExactly(fl, SumXX(idx), SumYY(idx), SumXY(idx), Sum1(block, idx).b, Sum2(block, idx).b);
  }

  /** Without rounding, a refinement stores for indices that differ the colours closest to the
      endpoints that fit the block best. */
  lemma RefineFits(block: seq<byte>, mask: nat, c: nat, a: real, b: real, v: Word, fl: real -> real)
    requires |block| == 64 && c < 3 && !Uniform(Indices4(mask, 16)) && BcSolve.Identity(fl)
    ensures var x, raw := Solved(block, Indices4(mask, 16), fl), Raw(block, mask, fl);
            && BcSolve.FitsBest(block, Indices4(mask, 16), c,
                (BcSolve.ChannelOf(x.max, c), BcSolve.ChannelOf(x.min, c)), a, b)
            && Closest(x.max, raw.max, v) && Closest(x.min, raw.min, v)
  {
    var idx := Indices4(mask, 16);
    SolvedExactly(block, idx, c, fl);
    BcSolve.SolutionBest(block, idx, c, a, b);
    var x := Solved(block, idx, fl);
    QuantizedClosest(x.max, v);
    QuantizedClosest(x.min, v);
  }

  /** c is the mean colour of the block, rounded to the nearest. */
  predicate MeanColor(block: seq<byte>, c: Rgb)
    requires |block| == 64
  {
    var s := SumPixels(block, 16);
    Rounded(c.r, s.r) && Rounded(c.g, s.g) && Rounded(c.b, s.b)
  }

  /** In every mode entry k of the decoder's palette is this opaque colour. */
  ghost predicate Shows(c0: Word, c1: Word, k: nat, d: Rgb)
    requires k < 4
  {
    forall separate, hasAlpha :: Pack8888(Palette4(c0, c1, k, separate, hasAlpha)) == Opaque(d)
  }

  /** One of the decoder's colours is as close to c as the tables come. */
  ghost predicate ShowsClose(c0: Word, c1: Word, c: Rgb)
    requires Bytes(c)
  {
    exists k, d :: 0 <= k < 4 && Shows(c0, c1, k, d) && CloseTo(c, d)
  }

  /** Stored in order, the endpoints have an entry close to the mean colour of the block. */
  ghost predicate ShowsMean(block: seq<byte>, e: Ends)
    requires |block| == 64
  {
    exists c :: MeanColor(block, c) && ShowsClose(e.min, e.max, c)
  }

  /** Index 2 of endpoints is an entry of the ordered ones, in every mode. */
  lemma SecondShown(raw: Ends, e: Ends)
    requires e == Reorder(raw)
    ensures exists k :: 0 <= k < 4 && Shows(e.min, e.max, k, Eval4(raw.max, raw.min, 2))
  {
    var d := Eval4(raw.max, raw.min, 2);
    var k := if raw.max < raw.min then 3 else 2;
    FlipEval(raw.max, raw.min, 2);
    forall separate, hasAlpha
      ensures Pack8888(Palette4(e.min, e.max, k, separate, hasAlpha)) == Opaque(d)
    {
      if raw.max == raw.min {
        PaletteEqual(raw.max, 2, separate, hasAlpha);
      } else {
        PaletteAgrees(e.min, e.max, k, separate, hasAlpha);
      }
    }
    assert Shows(e.min, e.max, k, d);
  }

  lemma AverageMean(block: seq<byte>)
    requires |block| == 64
    ensures MeanColor(block, Average(block))
  {
    SumPixelsFit(block, 16);
  }

  /** When all indices agree, whatever they are, a refinement stores the mean colour. */
  lemma RefineMean(block: seq<byte>, mask: nat, fl: real -> real)
    requires |block| == 64 && Uniform(Indices4(mask, 16)) && BcSolve.Rounds(fl)
    ensures ShowsMean(block, Reorder(Raw(block, mask, fl)))
  {
    var raw := Raw(block, mask, fl);
    var e := Reorder(raw);
    var c := Average(block);
    AverageMean(block);
    SingleEval(c);
    SingleClose(c);
    SecondShown(raw, e);
    assert ShowsClose(e.min, e.max, c);
  }

  /** The endpoints of a refinement fit the block best: before rounding to 5-6-5 bits no others have
      less error in any channel, and no 5-6-5 colours are nearer to them. */
  ghost predicate FitsIndices(block: seq<byte>, idx: seq<nat>, e: Ends)
    requires |block| == 64 && |idx| == 16 && Digits(idx)
  {
    exists x: Quotients, raw: Ends :: e == Reorder(raw) && BestQuotients(block, idx, x) && StoresClosest(x, raw)
  }

  ghost predicate BestQuotients(block: seq<byte>, idx: seq<nat>, x: Quotients)
    requires |block| == 64 && |idx| == 16 && Digits(idx)
  {
    forall c, a, b :: 0 <= c < 3 ==>
      BcSolve.FitsBest(block, idx, c, (BcSolve.ChannelOf(x.max, c), BcSolve.ChannelOf(x.min, c)), a, b)
  }

  ghost predicate StoresClosest(x: Quotients, raw: Ends)
  {
    forall v: Word :: Closest(x.max, raw.max, v) && Closest(x.min, raw.min, v)
  }

  /** What a refinement for the indices of a mask promises of the endpoints it stores. */
  ghost predicate Refined(block: seq<byte>, mask: nat, e: Ends, fl: real -> real)
    requires |block| == 64
  {
    if Uniform(Indices4(mask, 16)) then ShowsMean(block, e)
    else BcSolve.Identity(fl) ==> FitsIndices(block, Indices4(mask, 16), e)
  }

  lemma RefineMeets(block: seq<byte>, mask: nat, fl: real -> real)
    requires |block| == 64 && BcSolve.Rounds(fl)
    ensures Refined(block, mask, Reorder(Raw(block, mask, fl)), fl)
  {
    if Uniform(Indices4(mask, 16)) {
      RefineMean(block, mask, fl);
    } else if BcSolve.Identity(fl) {
      RefineBest(block, mask, fl);
    }
  }

  lemma RefineBest(block: seq<byte>, mask: nat, fl: real -> real)
    requires |block| == 64 && !Uniform(Indices4(mask, 16)) && BcSolve.Identity(fl)
    ensures FitsIndices(block, Indices4(mask, 16), Reorder(Raw(block, mask, fl)))
  {
    var idx, raw := Indices4(mask, 16), Raw(block, mask, fl);
    var x := Solved(block, idx, fl);
    forall c, a, b | 0 <= c < 3
      ensures BcSolve.FitsBest(block, idx, c, (BcSolve.ChannelOf(x.max, c), BcSolve.ChannelOf(x.min, c)), a, b)
    {
      RefineFits(block, mask, c, a, b, 0, fl);
    }
    forall v: Word
      ensures Closest(x.max, raw.max, v) && Closest(x.min, raw.min, v)
    {
      RefineFits(block, mask, 0, 0.0, 0.0, v, fl);
    }
    assert BestQuotients(block, idx, x) && StoresClosest(x, raw);
  }

  /** The endpoints of a block from those it starts with: refined for the first match, and once
      more if there are two steps, unless that made them equal or kept the indices. */
  ghost predicate Settled(block: seq<byte>, first: Ends, twice: bool, e: Ends, fl: real -> real)
    requires |block| == 64
  {
    exists q :: Refined(block, MaskFor(block, first), q, fl)
                && if !twice || q.max == q.min || MaskFor(block, q) == MaskFor(block, first) then e == q
                   else Refined(block, MaskFor(block, q), e, fl)
  }

  lemma SettleMeets(block: seq<byte>, first: Ends, twice: bool, fl: real -> real)
    requires |block| == 64 && first == Reorder(first) && BcSolve.Rounds(fl)
    ensures Settled(block, first, twice, Settle(block, first, if twice then 2 else 1, Refiner(block, fl)), fl)
  {
    var refine := Refiner(block, fl);
    var q := Reorder(refine(MaskFor(block, first)));
    RefineMeets(block, MaskFor(block, first), fl);
    RefineMeets(block, MaskFor(block, q), fl);
    SettleStep(block, first, if twice then 2 else 1, if twice then 1 else 0, refine);
    SettleStep(block, q, 1, 0, refine);
  }

  lemma MaskWord(block: seq<byte>, e: Ends)
    requires |block| == 64
    ensures MaskFor(block, e) < 0x1_0000_0000
  {
    MaskFits(Matches(block, e));
    Pow2Word();
  }

  /** A refinement and the indices for it; it is the last if it changes nothing, makes the endpoints
      equal or leaves the indices as they were. */
  method RefineStep(block: seq<byte>, e: Ends, mask: nat, fl: real -> real) returns (r: Ends, m: nat, last: bool)
    requires |block| == 64 && BcSolve.Rounds(fl) && e.max <= e.min && mask == MaskFor(block, e)
    ensures var raw := Raw(block, mask, fl);
            r == Reorder(raw) && m == MaskFor(block, r) && (last <==> raw == e || r.max == r.min || m == mask)
  {
    MaskWord(block, e);
    var changed;
    r, changed := RefineBlock(block, e, mask, fl);
    m := mask;
    if changed {
      if r.max != r.min {
        m := MatchColorsBlock(block, r);
      } else {
        m := 0;
        return r, m, true;
      }
    }
    last := m == mask;
  }

  /** First match, then refine; the mask always belongs to the endpoints. */
  method OptimizeBlock(block: seq<byte>, optimum: Ends, n: nat, fl: real -> real) returns (e: Ends, mask: nat)
    requires |block| == 64 && BcSolve.Rounds(fl)
    ensures e == Settle(block, Reorder(optimum), n, Refiner(block, fl)) && mask == MaskFor(block, e) && e.max <= e.min
  {
    e := Reorder(optimum);
    mask := 0;
    if e.max != e.min {
      mask := MatchColorsBlock(block, e);
    }
    var i := 0;
    ghost var refine := Refiner(block, fl);
    ghost var goal, left := Settle(block, e, n, refine), n;
    while i < n
      invariant i + left == n && mask == MaskFor(block, e) && e.max <= e.min && Settle(block, e, left, refine) == goal
    {
      SettleStep(block, e, left, left - 1, refine);
      left := left - 1;
      var last;
      e, mask, last := RefineStep(block, e, mask, fl);
      if last {
        return;
      }
      i := i + 1;
    }
  }

  // ----- the eight bytes

  function Bytes4(v: nat): (b: seq<byte>)
    ensures |b| == 4
  {
    [v % 256, v / 0x100 % 256, v / 0x1_0000 % 256, v / 0x100_0000 % 256]
  }

  lemma Bytes4Back(v: nat)
    requires v < 0x1_0000_0000
    ensures LittleEndian(Bytes4(v)) == v
  {
    var v1, v2, v3 := v / 0x100, v / 0x1_0000, v / 0x100_0000;
    var b := Bytes4(v);
    assert v3 == v3 % 256;
    assert LittleEndian(b[3..]) == v3 by { assert b[3..][1..] == []; }
    assert LittleEndian(b[2..]) == v2 by { assert b[2..][1..] == b[3..] && v2 == v2 % 256 + 256 * v3; }
    assert LittleEndian(b[1..]) == v1 by { assert b[1..][1..] == b[2..] && v1 == v1 % 256 + 256 * v2; }
    assert v == v % 256 + 256 * v1;
  }

  /** The block holding these endpoints and indices. */
  ghost predicate Holds(out: seq<byte>, c0: Word, c1: Word, idx: seq<nat>)
  {
    |out| == 8 && |idx| == 16 && Digits(idx)
    && Endpoint(out, 0) == c0 && Endpoint(out, 1) == c1
    && forall i :: 0 <= i < 16 ==> GetIdx2(LittleEndian(out[4..]), i) == idx[i]
  }

  method WriteBlock(dest: array<byte>, c0: Word, c1: Word, mask: nat, ghost idx: seq<nat>)
    requires dest.Length == 8 && |idx| == 16 && Digits(idx) && mask == MaskOf(idx)
    modifies dest
    ensures Holds(dest[..], c0, c1, idx)
  {
    dest[0], dest[1] := c0 % 256, c0 / 256;
    dest[2], dest[3] := c1 % 256, c1 / 256;
    dest[4], dest[5] := mask % 256, mask / 0x100 % 256;
    dest[6], dest[7] := mask / 0x1_0000 % 256, mask / 0x100_0000 % 256;
    assert dest[..][4..] == Bytes4(mask);
    MaskFits(idx);
    Pow2Word();
    Bytes4Back(mask);
    forall i | 0 <= i < 16 ensures GetIdx2(mask, i) == idx[i] { DigitBack(idx, i); }
  }

  // ----- what a decoder makes of the block

  function Negated(d: Rgb): Rgb
  {
    Rgb(-d.r, -d.g, -d.b)
  }

  lemma DotNegated(p: Rgb, d: Rgb)
    ensures Dot(p, Negated(d)) == -Dot(p, d)
  {
    assert p.r * -d.r == -(p.r * d.r);
    assert p.g * -d.g == -(p.g * d.g);
    assert p.b * -d.b == -(p.b * d.b);
  }

  /** Exchanging the endpoints and flipping the index keeps colour and nearness. */
  lemma FlippedNearest(block: seq<byte>, e: Ends, i: nat, k: nat)
    requires |block| == 64 && i < 16 && k < 4
    ensures var dir := Direction(e.min, e.max);
            var dot := Dot(Pixel(block, i), dir);
            Far(dot, Dot(Eval4(e.min, e.max, Flip(Matches(block, e)[i])), dir))
                <= Far(dot, Dot(Eval4(e.min, e.max, k), dir))
  {
    var j := Matches(block, e)[i];
    MatchNearest(block, e.max, e.min, i, Flip(k));
    FlipEval(e.max, e.min, j);
    FlipEval(e.max, e.min, Flip(k));
    assert Direction(e.max, e.min) == Negated(Direction(e.min, e.max));
    DotNegated(Pixel(block, i), Direction(e.min, e.max));
    DotNegated(Eval4(e.max, e.min, j), Direction(e.min, e.max));
    DotNegated(Eval4(e.max, e.min, Flip(k)), Direction(e.min, e.max));
  }

  /** Texel i decodes, in every mode, to an opaque colour none of the four is nearer than. */
  ghost predicate TexelNearest(block: seq<byte>, out: seq<byte>, i: nat, separate: bool, hasAlpha: bool)
    requires |block| == 64 && |out| == 8 && i < 16
  {
    var c0, c1 := Endpoint(out, 0), Endpoint(out, 1);
    var dir := Direction(c0, c1);
    var dot := Dot(Pixel(block, i), dir);
    var t := DecodeColor(out, i, separate, hasAlpha);
    t.alpha == 255 && forall k :: 0 <= k < 4 ==>
        Far(dot, Dot(t.rgb, dir)) <= Far(dot, Dot(Pack8888(Palette4(c0, c1, k, separate, hasAlpha)).rgb, dir))
  }

  lemma SwappedNearest(block: seq<byte>, e: Ends, out: seq<byte>, i: nat, separate: bool, hasAlpha: bool)
    requires |block| == 64 && i < 16 && e.max < e.min
    requires Holds(out, e.min, e.max, Flipped(Matches(block, e)))
    ensures TexelNearest(block, out, i, separate, hasAlpha)
  {
    var j := Flip(Matches(block, e)[i]);
    PaletteAgrees(e.min, e.max, j, separate, hasAlpha);
    var dir := Direction(e.min, e.max);
    var dot := Dot(Pixel(block, i), dir);
    forall k | 0 <= k < 4
      ensures Far(dot, Dot(Eval4(e.min, e.max, j), dir))
                <= Far(dot, Dot(Pack8888(Palette4(e.min, e.max, k, separate, hasAlpha)).rgb, dir))
    {
      FlippedNearest(block, e, i, k);
      PaletteAgrees(e.min, e.max, k, separate, hasAlpha);
    }
  }

  /** Sixteen times the same index. */
  function Same16(k: nat): (idx: seq<nat>)
    requires k < 4
    ensures |idx| == 16 && Digits(idx)
  {
    seq(16, _ => k)
  }

  lemma {:induction false} RepeatValue(k: nat, n: nat)
    ensures MaskOf(seq(n, _ => k)) == k * MaskOf(Ones(n))
  {
    if n > 0 {
      RepeatValue(k, n - 1);
      assert seq(n, _ => k)[1..] == seq(n - 1, _ => k);
      assert Ones(n)[1..] == Ones(n - 1);
    }
  }

  lemma OnesWord()
    ensures MaskOf(Ones(16)) == 0x5555_5555
  {
    OnesValue(16);
    Pow2Word();
  }

  lemma SameValue(k: nat)
    requires k < 4
    ensures MaskOf(Same16(k)) == k * 0x5555_5555
  {
    RepeatValue(k, 16);
    OnesWord();
    assert Same16(k) == seq(16, _ => k);
  }

  lemma FinalMask(idx: seq<nat>)
    requires |idx| == 16 && Digits(idx)
    ensures BitXor(MaskOf(idx), 0x5555_5555) == MaskOf(Flipped(idx))
  {
    XorFlips(idx);
    OnesWord();
  }

  // ----- the whole block

  predicate Constant(block: seq<byte>)
    requires |block| == 64
  {
    forall i :: 1 <= i < 16 ==> block[4 * i..4 * i + 4] == block[..4]
  }

  method CheckConstant(block: seq<byte>) returns (constant: bool)
    requires |block| == 64
    ensures constant == Constant(block)
  {
    var i := 1;
    while i < 16
      invariant 1 <= i <= 16 && forall j :: 1 <= j < i ==> block[4 * j..4 * j + 4] == block[..4]
    {
      if block[4 * i..4 * i + 4] != block[..4] {
        return false;
      }
      i := i + 1;
    }
    constant := true;
  }

  /** The larger endpoint goes first; the indices follow. */
  method FinalizeColors(e: Ends, mask: nat, ghost idx: seq<nat>) returns (r: Ends, m: nat)
    requires |idx| == 16 && Digits(idx) && mask == MaskOf(idx)
    ensures r == if e.max < e.min then Ends(e.min, e.max) else e
    ensures m == MaskOf(if e.max < e.min then Flipped(idx) else idx)
  {
    r, m := e, mask;
    if r.max < r.min {
      FinalMask(idx);
      r, m := Ends(r.min, r.max), BitXor(mask, 0x5555_5555);
    }
  }

  /** Every texel decodes, in every mode, to this opaque colour. */
  ghost predicate AllDecodeTo(out: seq<byte>, c: Rgb)
    requires |out| == 8
  {
    forall i, separate, hasAlpha :: 0 <= i < 16 ==> DecodeColor(out, i, separate, hasAlpha) == Opaque(c)
  }

  /** Every texel decodes to a palette colour nearest along the line between the endpoints. */
  ghost predicate AllNearest(block: seq<byte>, out: seq<byte>)
    requires |block| == 64 && |out| == 8
  {
    forall i, separate, hasAlpha :: 0 <= i < 16 ==> TexelNearest(block, out, i, separate, hasAlpha)
  }

  lemma HeldTexel(out: seq<byte>, c0: Word, c1: Word, idx: seq<nat>, i: nat, separate: bool, hasAlpha: bool)
    requires Holds(out, c0, c1, idx) && i < 16
    ensures DecodeColor(out, i, separate, hasAlpha) == Pack8888(Palette4(c0, c1, idx[i], separate, hasAlpha))
  {
  }

  lemma ConstantTexel(e: Ends, out: seq<byte>, i: nat, separate: bool, hasAlpha: bool)
    requires if e.max < e.min then Holds(out, e.min, e.max, Flipped(Same16(2))) else Holds(out, e.max, e.min, Same16(2))
    requires i < 16
    ensures DecodeColor(out, i, separate, hasAlpha) == Opaque(Eval4(e.max, e.min, 2))
  {
    if e.max < e.min {
      HeldTexel(out, e.min, e.max, Flipped(Same16(2)), i, separate, hasAlpha);
      FlipEval(e.max, e.min, 2);
      PaletteAgrees(e.min, e.max, 3, separate, hasAlpha);
    } else {
      HeldTexel(out, e.max, e.min, Same16(2), i, separate, hasAlpha);
      if e.max == e.min {
        PaletteEqual(e.max, 2, separate, hasAlpha);
      } else {
        PaletteAgrees(e.max, e.min, 2, separate, hasAlpha);
      }
    }
  }

  lemma ConstantBack(e: Ends, out: seq<byte>)
    requires if e.max < e.min then Holds(out, e.min, e.max, Flipped(Same16(2))) else Holds(out, e.max, e.min, Same16(2))
    ensures AllDecodeTo(out, Eval4(e.max, e.min, 2))
  {
    forall i, separate, hasAlpha | 0 <= i < 16
      ensures DecodeColor(out, i, separate, hasAlpha) == Opaque(Eval4(e.max, e.min, 2))
    {
      ConstantTexel(e, out, i, separate, hasAlpha);
    }
  }

  /** Texel i decodes, in every mode, to the palette colour the match chose for it. */
  ghost predicate AllChosen(block: seq<byte>, out: seq<byte>, e: Ends)
    requires |block| == 64 && |out| == 8
  {
    forall i, separate, hasAlpha :: 0 <= i < 16 ==>
      DecodeColor(out, i, separate, hasAlpha) == Opaque(Eval4(e.max, e.min, MatchIndex(block, e.max, e.min, i)))
  }

  lemma ChosenBack(block: seq<byte>, e: Ends, out: seq<byte>)
    requires |block| == 64 && e.max < e.min && Holds(out, e.min, e.max, Flipped(Matches(block, e)))
    ensures AllChosen(block, out, e)
  {
    forall i, separate, hasAlpha | 0 <= i < 16
      ensures DecodeColor(out, i, separate, hasAlpha) == Opaque(Eval4(e.max, e.min, MatchIndex(block, e.max, e.min, i)))
    {
      var j := MatchIndex(block, e.max, e.min, i);
      assert Matches(block, e)[i] == j;
      HeldTexel(out, e.min, e.max, Flipped(Matches(block, e)), i, separate, hasAlpha);
      FlipEval(e.max, e.min, j);
      PaletteAgrees(e.min, e.max, Flip(j), separate, hasAlpha);
    }
  }

  lemma MatchedBack(block: seq<byte>, e: Ends, out: seq<byte>)
    requires |block| == 64 && e.max <= e.min
    requires e.max < e.min ==> Holds(out, e.min, e.max, Flipped(Matches(block, e)))
    requires e.max == e.min ==> Holds(out, e.max, e.min, Same16(0))
    ensures e.max < e.min ==> AllNearest(block, out) && AllChosen(block, out, e)
    ensures e.max == e.min ==> AllDecodeTo(out, From16Bit(e.max))
  {
    if e.max < e.min {
      ChosenBack(block, e, out);
    }
    forall i, separate, hasAlpha | 0 <= i < 16
      ensures e.max < e.min ==> TexelNearest(block, out, i, separate, hasAlpha)
      ensures e.max == e.min ==> DecodeColor(out, i, separate, hasAlpha) == Opaque(From16Bit(e.max))
    {
      if e.max < e.min {
        SwappedNearest(block, e, out, i, separate, hasAlpha);
      } else {
        PaletteEqual(e.max, 0, separate, hasAlpha);
      }
    }
  }

  /** Finishes with the given endpoints and indices. */
  method Finish(dest: array<byte>, e: Ends, mask: nat, ghost idx: seq<nat>)
    requires dest.Length == 8 && |idx| == 16 && Digits(idx) && mask == MaskOf(idx)
    modifies dest
    ensures if e.max < e.min then Holds(dest[..], e.min, e.max, Flipped(idx)) else Holds(dest[..], e.max, e.min, idx)
  {
    var r, m := FinalizeColors(e, mask, idx);
    WriteBlock(dest, r.max, r.min, m, if e.max < e.min then Flipped(idx) else idx);
  }

  /** A constant block decodes to one colour, every channel within 1 of the block's and equal
      to it exactly for the values the tables hit. Any other block decodes texel by
      texel to the palette colour chosen for the settled endpoints, one of the nearest along the
      line between them. */
  method CompressColorBlock(dest: array<byte>, block: seq<byte>, highQuality: bool, optimum: Ends, fl: real -> real)
    requires dest.Length == 8 && |block| == 64 && BcSolve.Rounds(fl)
    modifies dest
    ensures var c := Pixel(block, 0);
            Constant(block) ==> AllDecodeTo(dest[..], SingleColor(c)) && CloseTo(c, SingleColor(c))
    ensures var e := Settle(block, Reorder(optimum), if highQuality then 2 else 1, Refiner(block, fl));
            !Constant(block) ==>
              && Endpoint(dest[..], 0) == e.min && Endpoint(dest[..], 1) == e.max && e.max <= e.min
              && (e.max < e.min ==> AllNearest(block, dest[..]) && AllChosen(block, dest[..], e))
              && (e.max == e.min ==> AllDecodeTo(dest[..], From16Bit(e.max)))
    ensures !Constant(block) ==>
              Settled(block, Reorder(optimum), highQuality, Ends(Endpoint(dest[..], 1), Endpoint(dest[..], 0)), fl)
  {
    var constant := CheckConstant(block);
    if constant {
      var c := Pixel(block, 0);
      var single := SingleEnds(c);
      SameValue(2);
      Finish(dest, single, 0xAAAA_AAAA, Same16(2));
      ConstantBack(single, dest[..]);
      SingleEval(c);
      SingleClose(c);
    } else {
      var e, mask := OptimizeBlock(block, optimum, if highQuality then 2 else 1, fl);
      SameValue(0);
      Finish(dest, e, mask, if e.max == e.min then Same16(0) else Matches(block, e));
      MatchedBack(block, e, dest[..]);
      SettleMeets(block, Reorder(optimum), highQuality, fl);
    }
  }
}

/** The floating-point half of the BC1 refinement over the reals: the least-squares solution
    and its quantization. */
module BcSolve {
  import opened Bits
  import opened BcAlpha
  import opened BcColor
  import opened BcRefine

  /** One real for each channel. */
  datatype Channels = Channels(r: real, g: real, b: real)

  function ChannelOf(x: Channels, c: nat): real
  {
    if c == 0 then x.r else if c == 1 then x.g else x.b
  }

  // ----- quantization

  /** A quotient brought into the unit interval. */
  function Saturated(x: real): (y: real)
    ensures 0.0 <= y <= 1.0
  {
    if x < 0.0 then 0.0 else if x > 1.0 then 1.0 else x
  }

  /** The sum of two neighbouring widened channels. */
  function Sum5(q: nat): nat
  {
    16 * q + 8 + q / 4 + (q + 1) / 4
  }

  function Sum6(q: nat): nat
  {
    8 * q + 4 + q / 16 + (q + 1) / 16
  }

  // The values halfway between neighbours, as the tables hold them: to six decimals.

  function Midpoint5_0(q: nat): (x: real)
    requires 0 <= q < 16
    ensures q < 31 ==> -0.0003 < 510.0 * x - Sum5(q) as real < 0.0003
  {
    match q
    case 0 => 0.015686 case 1 => 0.047059 case 2 => 0.078431 case 3 => 0.111765
    case 4 => 0.145098 case 5 => 0.176471 case 6 => 0.207843 case 7 => 0.241176
    case 8 => 0.274510 case 9 => 0.305882 case 10 => 0.337255 case 11 => 0.370588
    case 12 => 0.403922 case 13 => 0.435294 case 14 => 0.466667 case _ => 0.5
  }

  function Midpoint5_1(q: nat): (x: real)
    requires 16 <= q < 32
    ensures q < 31 ==> -0.0003 < 510.0 * x - Sum5(q) as real < 0.0003
    ensures q == 31 ==> x == 1.0
  {
    match q
    case 16 => 0.533333 case 17 => 0.564706 case 18 => 0.596078 case 19 => 0.629412
    case 20 => 0.662745 case 21 => 0.694118 case 22 => 0.725490 case 23 => 0.758824
    case 24 => 0.792157 case 25 => 0.823529 case 26 => 0.854902 case 27 => 0.888235
    case 28 => 0.921569 case 29 => 0.952941 case 30 => 0.984314 case _ => 1.0
  }

  function Midpoint5(q: nat): (x: real)
    requires q < 32
    ensures q < 31 ==> -0.0003 < 510.0 * x - Sum5(q) as real < 0.0003
    ensures q == 31 ==> x == 1.0
  {
    if q < 16 then Midpoint5_0(q)
    else Midpoint5_1(q)
  }

  function Midpoint6_0(q: nat): (x: real)
    requires 0 <= q < 16
    ensures q < 63 ==> -0.0003 < 510.0 * x - Sum6(q) as real < 0.0003
  {
    match q
    case 0 => 0.007843 case 1 => 0.023529 case 2 => 0.039216 case 3 => 0.054902
    case 4 => 0.070588 case 5 => 0.086275 case 6 => 0.101961 case 7 => 0.117647
    case 8 => 0.133333 case 9 => 0.149020 case 10 => 0.164706 case 11 => 0.180392
    case 12 => 0.196078 case 13 => 0.211765 case 14 => 0.227451 case _ => 0.245098
  }

  function Midpoint6_1(q: nat): (x: real)
    requires 16 <= q < 32
    ensures q < 63 ==> -0.0003 < 510.0 * x - Sum6(q) as real < 0.0003
  {
    match q
    case 16 => 0.262745 case 17 => 0.278431 case 18 => 0.294118 case 19 => 0.309804
    case 20 => 0.325490 case 21 => 0.341176 case 22 => 0.356863 case 23 => 0.372549
    case 24 => 0.388235 case 25 => 0.403922 case 26 => 0.419608 case 27 => 0.435294
    case 28 => 0.450980 case 29 => 0.466667 case 30 => 0.482353 case _ => 0.500000
  }

  function Midpoint6_2(q: nat): (x: real)
    requires 32 <= q < 48
    ensures q < 63 ==> -0.0003 < 510.0 * x - Sum6(q) as real < 0.0003
  {
    match q
    case 32 => 0.517647 case 33 => 0.533333 case 34 => 0.549020 case 35 => 0.564706
    case 36 => 0.580392 case 37 => 0.596078 case 38 => 0.611765 case 39 => 0.627451
    case 40 => 0.643137 case 41 => 0.658824 case 42 => 0.674510 case 43 => 0.690196
    case 44 => 0.705882 case 45 => 0.721569 case 46 => 0.737255 case _ => 0.754902
  }

  function Midpoint6_3(q: nat): (x: real)
    requires 48 <= q < 64
    ensures q < 63 ==> -0.0003 < 510.0 * x - Sum6(q) as real < 0.0003
    ensures q == 63 ==> x == 1.0
  {
    match q
    case 48 => 0.772549 case 49 => 0.788235 case 50 => 0.803922 case 51 => 0.819608
    case 52 => 0.835294 case 53 => 0.850980 case 54 => 0.866667 case 55 => 0.882353
    case 56 => 0.898039 case 57 => 0.913725 case 58 => 0.929412 case 59 => 0.945098
    case 60 => 0.960784 case 61 => 0.976471 case 62 => 0.992157 case _ => 1.0
  }

  function Midpoint6(q: nat): (x: real)
    requires q < 64
    ensures q < 63 ==> -0.0003 < 510.0 * x - Sum6(q) as real < 0.0003
    ensures q == 63 ==> x == 1.0
  {
    if q < 16 then Midpoint6_0(q)
    else if q < 32 then Midpoint6_1(q)
    else if q < 48 then Midpoint6_2(q)
    else Midpoint6_3(q)
  }

  function Quantize5(x: real): (q: nat)
    ensures q < 32
  {
    var y := Saturated(x);
    var q := (y * 31.0).Floor;
    if y > Midpoint5(q) then q + 1 else q
  }

  function Quantize6(x: real): (q: nat)
    ensures q < 64
  {
    var y := Saturated(x);
    var q := (y * 63.0).Floor;
    if y > Midpoint6(q) then q + 1 else q
  }

  function Gap(x: real, y: real): real
  {
    if x < y then y - x else x - y
  }

  function Level5(q: nat): nat
  {
    8 * q + q / 4
  }

  function Level6(q: nat): nat
  {
    4 * q + q / 16
  }

  /** Level q and the next bound the quotient to within one. */
  lemma Between5(y: real, q: nat)
    requires q <= 31 && q as real <= y * 31.0 < q as real + 1.0
    ensures Level5(q) as real - 1.0 <= 255.0 * y <= Level5(q + 1) as real + 1.0
  {
    assert 31 * Level5(q) - 31 <= 255 * q && 255 * (q + 1) <= 31 * Level5(q + 1) + 31;
  }

  lemma Between6(y: real, q: nat)
    requires q <= 63 && q as real <= y * 63.0 < q as real + 1.0
    ensures Level6(q) as real - 1.0 <= 255.0 * y <= Level6(q + 1) as real + 1.0
  {
    assert 63 * Level6(q) - 63 <= 255 * q && 255 * (q + 1) <= 63 * Level6(q + 1) + 63;
  }

  /** Between two levels, the side of their midpoint decides; the others are further off. */
  lemma Sides(y: real, low: int, high: int, mid: real, k: int)
    requires Apart(low, high, k) && low as real - 1.0 <= y <= high as real + 1.0
    requires -0.0003 < 2.0 * mid - (low + high) as real < 0.0003
    ensures Gap(y, (if y > mid then high else low) as real) <= Gap(y, k as real) + 0.0003
  {
  }

  lemma Above5(x: nat, y: nat)
    requires x < y
    ensures Level5(x) + 8 * (y - x) <= Level5(y)
  {
  }

  lemma Above6(x: nat, y: nat)
    requires x < y
    ensures Level6(x) + 4 * (y - x) <= Level6(y)
  {
  }

  /** The levels around q against any other. */
  predicate Apart(low: int, high: int, k: int)
  {
    low + 4 <= high <= low + 9 && (k == low || k == high || k <= low - 4 || high + 4 <= k)
  }

  lemma Apart5(q: nat, next: nat, k: nat)
    requires next == q + 1
    ensures Apart(Level5(q), Level5(next), Level5(k))
  {
    Above5(q, next);
    if k < q {
      Above5(k, q);
    } else if next < k {
      Above5(next, k);
    }
  }

  lemma Apart6(q: nat, next: nat, k: nat)
    requires next == q + 1
    ensures Apart(Level6(q), Level6(next), Level6(k))
  {
    Above6(q, next);
    if k < q {
      Above6(k, q);
    } else if next < k {
      Above6(next, k);
    }
  }

  /** The table's midpoint of the levels at q and after it decides. */
  lemma Near5(y: real, q: nat, next: nat, k: nat)
    requires next == q + 1 <= 31 && q as real <= y * 31.0 < q as real + 1.0
    ensures var z := 255.0 * y;
            Gap(z, Level5(if y > Midpoint5(q) then next else q) as real) <= Gap(z, Level5(k) as real) + 0.0003
  {
    Between5(y, q);
    Apart5(q, next, k);
    Halfway5(q, next);
    Sides(255.0 * y, Level5(q), Level5(next), 255.0 * Midpoint5(q), Level5(k));
  }

  lemma Halfway5(q: nat, next: nat)
    requires next == q + 1 <= 31
    ensures -0.0003 < 2.0 * (255.0 * Midpoint5(q)) - (Level5(q) + Level5(next)) as real < 0.0003
  {
    assert Sum5(q) == Level5(q) + Level5(next);
  }

  /** The quantized channel is nearest to the quotient, to the precision of the table. */
  lemma Nearest5(x: real, k: nat)
    requires k < 32
    ensures var y := 255.0 * Saturated(x); Gap(y, Level5(Quantize5(x)) as real) <= Gap(y, Level5(k) as real) + 0.0003
  {
    var y := Saturated(x);
    var q := (y * 31.0).Floor;
    if q < 31 {
      Near5(y, q, q + 1, k);
    }
  }

  /** The table's midpoint of the levels at q and after it decides. */
  lemma Near6(y: real, q: nat, next: nat, k: nat)
    requires next == q + 1 <= 63 && q as real <= y * 63.0 < q as real + 1.0
    ensures var z := 255.0 * y;
            Gap(z, Level6(if y > Midpoint6(q) then next else q) as real) <= Gap(z, Level6(k) as real) + 0.0003
  {
    Between6(y, q);
    Apart6(q, next, k);
    Halfway6(q, next);
    Sides(255.0 * y, Level6(q), Level6(next), 255.0 * Midpoint6(q), Level6(k));
  }

  lemma Halfway6(q: nat, next: nat)
    requires next == q + 1 <= 63
    ensures -0.0003 < 2.0 * (255.0 * Midpoint6(q)) - (Level6(q) + Level6(next)) as real < 0.0003
  {
    assert Sum6(q) == Level6(q) + Level6(next);
  }

  lemma Nearest6(x: real, k: nat)
    requires k < 64
    ensures var y := 255.0 * Saturated(x); Gap(y, Level6(Quantize6(x)) as real) <= Gap(y, Level6(k) as real) + 0.0003
  {
    var y := Saturated(x);
    var q := (y * 63.0).Floor;
    if q < 63 {
      Near6(y, q, q + 1, k);
    }
  }

  // ----- inner products

  type Vector = seq<real>

  function Inner(x: Vector, y: Vector): real
    requires |x| == |y|
  {
    var n := |x| - 1;
    if |x| == 0 then 0.0 else Inner(x[..n], y[..n]) + x[n] * y[n]
  }

  function Minus(x: Vector, y: Vector): (z: Vector)
    requires |x| == |y|
    ensures |z| == |x|
  {
    seq(|x|, i requires 0 <= i < |x| => x[i] - y[i])
  }

  function Scaled(h: real, x: Vector): (z: Vector)
    ensures |z| == |x|
  {
    seq(|x|, i requires 0 <= i < |x| => h * x[i])
  }

  lemma {:induction false} InnerSwap(x: Vector, y: Vector)
    requires |x| == |y|
    ensures Inner(x, y) == Inner(y, x)
  {
    if |x| > 0 {
      var n := |x| - 1;
      InnerSwap(x[..n], y[..n]);
    }
  }

  lemma {:induction false} InnerSquare(x: Vector)
    ensures Inner(x, x) >= 0.0
  {
    if |x| > 0 {
      InnerSquare(x[..|x| - 1]);
    }
  }

  lemma {:induction false} InnerMinus(x: Vector, y: Vector, z: Vector)
    requires |x| == |y| == |z|
    ensures Inner(Minus(x, y), z) == Inner(x, z) - Inner(y, z)
  {
    if |x| > 0 {
      var n := |x| - 1;
      InnerMinus(x[..n], y[..n], z[..n]);
      assert Minus(x, y)[..n] == Minus(x[..n], y[..n]);
      assert (x[n] - y[n]) * z[n] == x[n] * z[n] - y[n] * z[n];
    }
  }

  lemma {:induction false} InnerScaled(h: real, x: Vector, y: Vector)
    requires |x| == |y|
    ensures Inner(Scaled(h, x), y) == h * Inner(x, y)
  {
    if |x| > 0 {
      var n := |x| - 1;
      InnerScaled(h, x[..n], y[..n]);
      ScaledFront(h, x, n);
      ScaledStep(h, Inner(x[..n], y[..n]), x[n], y[n]);
    }
  }

  lemma ScaledFront(h: real, x: Vector, n: nat)
    requires n <= |x|
    ensures Scaled(h, x)[..n] == Scaled(h, x[..n])
  {
    forall i | 0 <= i < n ensures Scaled(h, x)[..n][i] == Scaled(h, x[..n])[i] { assert x[..n][i] == x[i]; }
  }

  lemma ScaledStep(h: real, s: real, x: real, y: real)
    ensures h * s + h * x * y == h * (s + x * y)
  {
  }

  // ----- the least-squares solution

  /** What the palette between a and b leaves of the values p: each palette colour is a sum of
      the endpoints weighted in thirds. */
  function Rest(p: Vector, u: Vector, v: Vector, a: real, b: real): (z: Vector)
    requires |p| == |u| == |v|
    ensures |z| == |p|
  {
    Minus(Minus(Scaled(3.0, p), Scaled(a, u)), Scaled(b, v))
  }

  /** Nine times the squared error. */
  function SquaredError(p: Vector, u: Vector, v: Vector, a: real, b: real): real
    requires |p| == |u| == |v|
  {
    Inner(Rest(p, u, v, a, b), Rest(p, u, v, a, b))
  }

  predicate Leaves(e: real, x: real, uz: real, y: real, vz: real, pz: real)
  {
    e == 3.0 * pz - x * uz - y * vz
  }

  lemma RestInner(p: Vector, u: Vector, v: Vector, a: real, b: real, z: Vector)
    requires |p| == |u| == |v| == |z|
    ensures Leaves(Inner(Rest(p, u, v, a, b), z), a, Inner(u, z), b, Inner(v, z), Inner(p, z))
  {
    var q := Scaled(3.0, p);
    InnerMinus(Minus(q, Scaled(a, u)), Scaled(b, v), z);
    InnerMinus(q, Scaled(a, u), z);
    InnerScaled(3.0, p, z);
    InnerScaled(a, u, z);
    InnerScaled(b, v, z);
  }

  /** Of the rest r, the part d removed: the squares differ by the mixed products. */
  lemma SquareMinus(r: Vector, d: Vector)
    requires |r| == |d|
    ensures Inner(Minus(r, d), Minus(r, d)) == Inner(r, r) - 2.0 * Inner(r, d) + Inner(d, d)
  {
    var t := Minus(r, d);
    InnerMinus(r, d, t);
    InnerSwap(r, t);
    InnerSwap(d, t);
    InnerMinus(r, d, r);
    InnerMinus(r, d, d);
    InnerSwap(d, r);
  }

  predicate NoLonger(x: Vector, y: Vector)
  {
    Inner(x, x) <= Inner(y, y)
  }

  /** Removing from r a combination of vectors it is at right angles to does not shorten it. */
  lemma NotShorter(r: Vector, u: Vector, v: Vector, h: real, j: real)
    requires |r| == |u| == |v| && Inner(r, u) == 0.0 && Inner(r, v) == 0.0
    ensures NoLonger(r, Minus(r, Minus(Scaled(h, u), Scaled(j, v))))
  {
    var d := Minus(Scaled(h, u), Scaled(j, v));
    Across(r, u, v, h, j);
    SquareMinus(r, d);
    InnerSquare(d);
  }

  /** No pair of endpoints has a smaller error than one whose rest is at right angles to both
      weights. */
  lemma LeastSquares(p: Vector, u: Vector, v: Vector, r: Vector, x: real, y: real, a: real, b: real)
    requires |p| == |u| == |v| && r == Rest(p, u, v, x, y) && Inner(r, u) == 0.0 && Inner(r, v) == 0.0
    ensures NoLonger(r, Rest(p, u, v, a, b))
  {
    NotShorter(r, u, v, a - x, y - b);
    RestMoves(p, u, v, x, y, a - x, y - b, a, b);
  }

  predicate Equation(x: real, uz: real, y: real, vz: real, pz: real)
  {
    x * uz + y * vz == 3.0 * pz
  }

  /** One of the normal equations makes the rest of x and y at right angles to z. */
  lemma Orthogonal(p: Vector, u: Vector, v: Vector, x: real, y: real, z: Vector)
    requires |p| == |u| == |v| == |z| && Equation(x, Inner(u, z), y, Inner(v, z), Inner(p, z))
    ensures Inner(Rest(p, u, v, x, y), z) == 0.0
  {
    RestInner(p, u, v, x, y, z);
    LeavesNothing(Inner(Rest(p, u, v, x, y), z), x, Inner(u, z), y, Inner(v, z), Inner(p, z));
  }

  lemma LeavesNothing(e: real, x: real, uz: real, y: real, vz: real, pz: real)
    requires Equation(x, uz, y, vz, pz) && Leaves(e, x, uz, y, vz, pz)
    ensures e == 0.0
  {
  }

  /** What is at right angles to two vectors is so to their combinations. */
  lemma Across(r: Vector, u: Vector, v: Vector, h: real, j: real)
    requires |r| == |u| == |v| && Inner(r, u) == 0.0 && Inner(r, v) == 0.0
    ensures Inner(r, Minus(Scaled(h, u), Scaled(j, v))) == 0.0
  {
    InnerSwap(r, Minus(Scaled(h, u), Scaled(j, v)));
    InnerMinus(Scaled(h, u), Scaled(j, v), r);
    InnerScaled(h, u, r);
    InnerScaled(j, v, r);
    InnerSwap(u, r);
    InnerSwap(v, r);
  }

  lemma RestAt(p: Vector, u: Vector, v: Vector, a: real, b: real, i: nat)
    requires |p| == |u| == |v| && i < |p|
    ensures Rest(p, u, v, a, b)[i] == 3.0 * p[i] - a * u[i] - b * v[i]
  {
  }

  lemma RestMoves(p: Vector, u: Vector, v: Vector, a: real, b: real, h: real, j: real, a1: real, b1: real)
    requires |p| == |u| == |v| && a1 == a + h && b1 == b - j
    ensures Rest(p, u, v, a1, b1) == Minus(Rest(p, u, v, a, b), Minus(Scaled(h, u), Scaled(j, v)))
  {
    var d := Minus(Scaled(h, u), Scaled(j, v));
    var x, y := Rest(p, u, v, a1, b1), Minus(Rest(p, u, v, a, b), d);
    forall i | 0 <= i < |p|
      ensures x[i] == y[i]
    {
      RestAt(p, u, v, a1, b1, i);
      RestAt(p, u, v, a, b, i);
      MoveOne(p[i], u[i], v[i], a, b, h, j, a1, b1);
    }
  }

  lemma MoveOne(p: real, u: real, v: real, a: real, b: real, h: real, j: real, a1: real, b1: real)
    requires a1 == a + h && b1 == b - j
    ensures 3.0 * p - a1 * u - b1 * v == 3.0 * p - a * u - b * v - (h * u - j * v)
  {
  }

  // ----- the system of a block

  function Weights1(idx: seq<nat>): (w: Vector)
    requires Digits(idx)
    ensures |w| == |idx|
  {
    seq(|idx|, i requires 0 <= i < |idx| => W1(idx[i]) as real)
  }

  function Weights2(idx: seq<nat>): (w: Vector)
    requires Digits(idx)
    ensures |w| == |idx|
  {
    seq(|idx|, i requires 0 <= i < |idx| => W2(idx[i]) as real)
  }

  /** One channel of the first n pixels: c is 0 for red, 1 for green, 2 for blue. */
  function Channel(block: seq<byte>, c: nat, n: nat): (p: Vector)
    requires |block| == 64 && c < 3 && n <= 16
    ensures |p| == n
  {
    seq(n, i requires 0 <= i < n => Part(Pixel(block, i), c) as real)
  }

  function Part(p: Rgb, c: nat): int
  {
    if c == 0 then p.r else if c == 1 then p.g else p.b
  }

  lemma InnerLast(x: Vector, y: Vector, n: nat, xs: Vector, ys: Vector, a: real, b: real)
    requires |x| == |y| == n + 1 && x[..n] == xs && y[..n] == ys && x[n] == a && y[n] == b
    ensures Inner(x, y) == Inner(xs, ys) + a * b
  {
  }

  /** One product more on both sides. */
  lemma InnerStep(x: Vector, y: Vector, n: nat, xs: Vector, ys: Vector, a: int, b: nat, s: int, t: int)
    requires |x| == |y| == n + 1 && x[..n] == xs && y[..n] == ys && x[n] == a as real && y[n] == b as real
    requires b <= 3 && t == s + b * a && Inner(xs, ys) == s as real
    ensures Inner(x, y) == t as real
  {
    InnerLast(x, y, n, xs, ys, a as real, b as real);
    RealTimes(b, a);
  }

  lemma WeightsFront(idx: seq<nat>, n: nat)
    requires Digits(idx) && |idx| == n + 1
    ensures Weights1(idx)[..n] == Weights1(idx[..n]) && Weights1(idx)[n] == W1(idx[n]) as real
    ensures Weights2(idx)[..n] == Weights2(idx[..n]) && Weights2(idx)[n] == W2(idx[n]) as real
  {
  }

  // The packed sums are the inner products of the weights.

  lemma {:induction false} InnerXX(idx: seq<nat>)
    requires Digits(idx)
    ensures Inner(Weights1(idx), Weights1(idx)) == SumXX(idx) as real
  {
    if |idx| > 0 {
      var n := |idx| - 1;
      var xs, a, b := idx[..n], W1(idx[n]), W1(idx[n]);
      InnerXX(xs);
      WeightsFront(idx, n);
      InnerStep(Weights1(idx), Weights1(idx), n, Weights1(xs), Weights1(xs), a, b, SumXX(xs), SumXX(idx));
    }
  }

  lemma {:induction false} InnerYY(idx: seq<nat>)
    requires Digits(idx)
    ensures Inner(Weights2(idx), Weights2(idx)) == SumYY(idx) as real
  {
    if |idx| > 0 {
      var n := |idx| - 1;
      var xs, a, b := idx[..n], W2(idx[n]), W2(idx[n]);
      InnerYY(xs);
      WeightsFront(idx, n);
      InnerStep(Weights2(idx), Weights2(idx), n, Weights2(xs), Weights2(xs), a, b, SumYY(xs), SumYY(idx));
    }
  }

  lemma {:induction false} InnerXY(idx: seq<nat>)
    requires Digits(idx)
    ensures Inner(Weights1(idx), Weights2(idx)) == SumXY(idx) as real
  {
    if |idx| > 0 {
      var n := |idx| - 1;
      var xs, a, b := idx[..n], W1(idx[n]), W2(idx[n]);
      InnerXY(xs);
      WeightsFront(idx, n);
      InnerStep(Weights1(idx), Weights2(idx), n, Weights1(xs), Weights2(xs), a, b, SumXY(xs), SumXY(idx));
    }
  }

  lemma RealTimes(w: nat, p: int)
    requires w <= 3
    ensures (w * p) as real == p as real * w as real
  {
    match w { case 0 => case 1 => case 2 => case _ => }
  }

  lemma PartSums(block: seq<byte>, idx: seq<nat>, c: nat, n: nat, p: int)
    requires |block| == 64 && |idx| == n + 1 <= 16 && Digits(idx) && c < 3 && p == Part(Pixel(block, n), c)
    ensures Part(Sum1(block, idx), c) == Part(Sum1(block, idx[..n]), c) + W1(idx[n]) * p
    ensures Part(Sum2(block, idx), c) == Part(Sum2(block, idx[..n]), c) + W2(idx[n]) * p
  {
  }

  lemma ChannelFront(block: seq<byte>, c: nat, n: nat, next: nat)
    requires |block| == 64 && c < 3 && next == n + 1 <= 16
    ensures Channel(block, c, next)[..n] == Channel(block, c, n)
    ensures Channel(block, c, next)[n] == Part(Pixel(block, n), c) as real
  {
  }

  lemma {:induction false} InnerP1(block: seq<byte>, idx: seq<nat>, c: nat)
    requires |block| == 64 && |idx| <= 16 && Digits(idx) && c < 3
    ensures Inner(Channel(block, c, |idx|), Weights1(idx)) == Part(Sum1(block, idx), c) as real
    decreases |idx|
  {
    if |idx| > 0 {
      var n := |idx| - 1;
      var xs, w, p := idx[..n], W1(idx[n]), Part(Pixel(block, n), c);
      var ps, qs := Channel(block, c, |idx|), Channel(block, c, n);
      InnerP1(block, xs, c);
      ChannelFront(block, c, n, |idx|);
      WeightsFront(idx, n);
      PartSums(block, idx, c, n, p);
      InnerStep(ps, Weights1(idx), n, qs, Weights1(xs), p, w, Part(Sum1(block, xs), c), Part(Sum1(block, idx), c));
    }
  }

  lemma {:induction false} InnerP2(block: seq<byte>, idx: seq<nat>, c: nat)
    requires |block| == 64 && |idx| <= 16 && Digits(idx) && c < 3
    ensures Inner(Channel(block, c, |idx|), Weights2(idx)) == Part(Sum2(block, idx), c) as real
    decreases |idx|
  {
    if |idx| > 0 {
      var n := |idx| - 1;
      var xs, w, p := idx[..n], W2(idx[n]), Part(Pixel(block, n), c);
      var ps, qs := Channel(block, c, |idx|), Channel(block, c, n);
      InnerP2(block, xs, c);
      ChannelFront(block, c, n, |idx|);
      WeightsFront(idx, n);
      PartSums(block, idx, c, n, p);
      InnerStep(ps, Weights2(idx), n, qs, Weights2(xs), p, w, Part(Sum2(block, xs), c), Part(Sum2(block, idx), c));
    }
  }

  /** The quotients of one channel, as fractions of the largest byte. */
  function Quotient(xx: nat, yy: nat, xy: nat, s1: int, s2: int): (real, real)
    requires xx * yy - xy * xy > 0
  {
    Cramers((xx * yy - xy * xy) as real, (s1 * yy - s2 * xy) as real, (s2 * xx - s1 * xy) as real)
  }

  function Cramers(d: real, m: real, n: real): (real, real)
    requires d >= 1.0
  {
    var f := 3.0 / 255.0 / d;
    (m * f, n * f)
  }

  /** Numbers from 1 on are rounded to numbers from 1 on. */
  ghost predicate Rounds(fl: real -> real)
  {
    forall x :: 1.0 <= x ==> 1.0 <= fl(x)
  }

  /** The same with every floating-point result rounded. */
  function Rounded(fl: real -> real, xx: nat, yy: nat, xy: nat, s1: int, s2: int): (real, real)
    requires xx * yy - xy * xy > 0 && Rounds(fl)
  {
    CramersRounded(fl, (xx * yy - xy * xy) as real, (s1 * yy - s2 * xy) as real, (s2 * xx - s1 * xy) as real)
  }

  function CramersRounded(fl: real -> real, d: real, m: real, n: real): (real, real)
    requires d >= 1.0 && Rounds(fl)
  {
    var f := FactorRounded(fl, 3.0 / 255.0, d);
    (TermRounded(fl, m, f), TermRounded(fl, n, f))
  }

  function FactorRounded(fl: real -> real, c: real, d: real): real
    requires d >= 1.0 && Rounds(fl)
  {
    fl(fl(c) / fl(d))
  }

  function TermRounded(fl: real -> real, m: real, f: real): real
  {
    fl(fl(m) * f)
  }

  /** No rounding at all. */
  ghost predicate Identity(fl: real -> real)
  {
    forall x :: fl(x) == x
  }

  lemma FactorExactly(fl: real -> real, c: real, d: real)
    requires d >= 1.0 && Identity(fl)
    ensures FactorRounded(fl, c, d) == c / d
  {
  }

  lemma SameProduct(a: real, b: real, f: real, g: real)
    requires a == b && f == g
    ensures a * f == b * g
  {
  }

  lemma TermExactly(fl: real -> real, m: real, f: real, g: real, t: real)
    requires Identity(fl) && f == g && t == m * g
    ensures TermRounded(fl, m, f) == t
  {
    SameProduct(fl(m), m, f, g);
    assert fl(t) == t;
  }

  lemma CramersExactly(fl: real -> real, d: real, m: real, n: real)
    requires d >= 1.0 && Identity(fl)
    ensures CramersRounded(fl, d, m, n) == Cramers(d, m, n)
  {
    var c := Cramers(d, m, n);
    FactorExactly(fl, 3.0 / 255.0, d);
    TermExactly(fl, m, FactorRounded(fl, 3.0 / 255.0, d), 3.0 / 255.0 / d, c.0);
    TermExactly(fl, n, FactorRounded(fl, 3.0 / 255.0, d), 3.0 / 255.0 / d, c.1);
  }

  /** Without rounding they are the quotients. */
  lemma RoundedExactly(fl: real -> real, xx: nat, yy: nat, xy: nat, s1: int, s2: int)
    requires xx * yy - xy * xy > 0 && Identity(fl)
    ensures Rounded(fl, xx, yy, xy, s1, s2) == Quotient(xx, yy, xy, s1, s2)
  {
    CramersExactly(fl, (xx * yy - xy * xy) as real, (s1 * yy - s2 * xy) as real, (s2 * xx - s1 * xy) as real);
  }

  lemma {:induction false} RealProduct(i: int, j: nat)
    ensures (i * j) as real == i as real * j as real
  {
    if j > 0 {
      RealProduct(i, j - 1);
      assert i * j == i * (j - 1) + i;
      assert i as real * j as real == i as real * (j - 1) as real + i as real;
    }
  }

  /** Cramer's rule with the common factor: twice the product with the determinant. */
  lemma Cramer(xx: real, yy: real, xy: real, s1: real, s2: real, d: real, f: real, a: real, b: real)
    requires d == xx * yy - xy * xy && d > 0.0 && f * d == 3.0 / 255.0
    requires a == 255.0 * ((s1 * yy - s2 * xy) * f) && b == 255.0 * ((s2 * xx - s1 * xy) * f)
    ensures a * xx + b * xy == 3.0 * s1 && a * xy + b * yy == 3.0 * s2
  {
    var g := 255.0 * f;
    assert g * d == 3.0;
    var m, n := s1 * yy - s2 * xy, s2 * xx - s1 * xy;
    assert a == m * g && b == n * g;
    assert m * xx + n * xy == s1 * d;
    assert m * xy + n * yy == s2 * d;
    assert a * xx + b * xy == (m * xx + n * xy) * g;
    assert a * xy + b * yy == (m * xy + n * yy) * g;
    assert s1 * d * g == s1 * (g * d) && s2 * d * g == s2 * (g * d);
  }

  /** The determinant and the numerators as reals. */
  lemma RealSystem(xx: nat, yy: nat, xy: nat, s1: int, s2: int)
    requires xx * yy - xy * xy > 0
    ensures (xx * yy - xy * xy) as real == xx as real * yy as real - xy as real * xy as real
    ensures (s1 * yy - s2 * xy) as real == s1 as real * yy as real - s2 as real * xy as real
    ensures (s2 * xx - s1 * xy) as real == s2 as real * xx as real - s1 as real * xy as real
  {
    RealProduct(xx, yy);
    RealProduct(xy, xy);
    RealProduct(s1, yy);
    RealProduct(s2, xy);
    RealProduct(s2, xx);
    RealProduct(s1, xy);
  }

  /** The quotients solve the normal equations. */
  lemma QuotientSolves(xx: nat, yy: nat, xy: nat, s1: int, s2: int, x: real, y: real,
                       uu: real, vv: real, uv: real, pu: real, pv: real)
    requires xx * yy - xy * xy > 0 && uu == xx as real && vv == yy as real && uv == xy as real && pu == s1 as real
    requires pv == s2 as real
    requires var q := Quotient(xx, yy, xy, s1, s2); x == 255.0 * q.0 && y == 255.0 * q.1
    ensures Equation(x, uu, y, uv, pu) && Equation(x, uv, y, vv, pv)
  {
    var d := (xx * yy - xy * xy) as real;
    var f := 3.0 / 255.0 / d;
    assert f * d == 3.0 / 255.0;
    RealSystem(xx, yy, xy, s1, s2);
    Cramer(uu, vv, uv, pu, pv, d, f, x, y);
  }

  /** The first normal equation, with the inner products for the sums; the second is the same
      with the weights exchanged. */
  lemma FirstEquation(p: Vector, u: Vector, v: Vector, xx: nat, yy: nat, xy: nat, s1: int, s2: int, x: real, y: real)
    requires |p| == |u| == |v| && xx * yy - xy * xy > 0
    requires Inner(u, u) == xx as real && Inner(v, u) == xy as real && Inner(p, u) == s1 as real
    requires var q := Quotient(xx, yy, xy, s1, s2); x == 255.0 * q.0 && y == 255.0 * q.1
    ensures Equation(x, Inner(u, u), y, Inner(v, u), Inner(p, u))
  {
    QuotientSolves(xx, yy, xy, s1, s2, x, y, Inner(u, u), yy as real, Inner(v, u), Inner(p, u), s2 as real);
  }

  lemma SecondEquation(p: Vector, u: Vector, v: Vector, xx: nat, yy: nat, xy: nat, s1: int, s2: int, x: real, y: real)
    requires |p| == |u| == |v| && xx * yy - xy * xy > 0
    requires Inner(v, v) == yy as real && Inner(u, v) == xy as real && Inner(p, v) == s2 as real
    requires var q := Quotient(xx, yy, xy, s1, s2); x == 255.0 * q.0 && y == 255.0 * q.1
    ensures Equation(x, Inner(u, v), y, Inner(v, v), Inner(p, v))
  {
    QuotientSolves(xx, yy, xy, s1, s2, x, y, xx as real, Inner(v, v), Inner(u, v), s1 as real, Inner(p, v));
  }

  /** The quotients of a channel of a block whose indices differ. */
  function Solution(block: seq<byte>, idx: seq<nat>, c: nat): (real, real)
    requires |block| == 64 && |idx| == 16 && Digits(idx) && c < 3
    requires SumXX(idx) * SumYY(idx) - SumXY(idx) * SumXY(idx) > 0
  {
    Quotient(SumXX(idx), SumYY(idx), SumXY(idx), Part(Sum1(block, idx), c), Part(Sum2(block, idx), c))
  }

  /** Nine times the squared error of a channel when its endpoints are a and b. */
  function ChannelError(block: seq<byte>, idx: seq<nat>, c: nat, a: real, b: real): real
    requires |block| == 64 && |idx| == 16 && Digits(idx) && c < 3
  {
    SquaredError(Channel(block, c, 16), Weights1(idx), Weights2(idx), a, b)
  }

  /** The quotients q fit a channel at least as well as the endpoints a and b. */
  predicate FitsBest(block: seq<byte>, idx: seq<nat>, c: nat, q: (real, real), a: real, b: real)
    requires |block| == 64 && |idx| == 16 && Digits(idx) && c < 3
  {
    ChannelError(block, idx, c, 255.0 * q.0, 255.0 * q.1) <= ChannelError(block, idx, c, a, b)
  }

  /** No endpoints fit a channel of the block better, for the indices given, than the quotients. */
  lemma SolutionBest(block: seq<byte>, idx: seq<nat>, c: nat, a: real, b: real)
    requires |block| == 64 && |idx| == 16 && Digits(idx) && c < 3 && !Uniform(idx)
    ensures SumXX(idx) * SumYY(idx) - SumXY(idx) * SumXY(idx) > 0
    ensures FitsBest(block, idx, c, Solution(block, idx, c), a, b)
  {
    VariancePositive(idx);
    Determinant(idx);
    InnerXX(idx);
    InnerYY(idx);
    InnerXY(idx);
    InnerP1(block, idx, c);
    InnerP2(block, idx, c);
    var p, u, v, q := Channel(block, c, 16), Weights1(idx), Weights2(idx), Solution(block, idx, c);
    var x, y := 255.0 * q.0, 255.0 * q.1;
    var r := Rest(p, u, v, x, y);
    InnerSwap(u, v);
    FirstEquation(p, u, v, SumXX(idx), SumYY(idx), SumXY(idx), Part(Sum1(block, idx), c), Part(Sum2(block, idx), c),
        x, y);
    SecondEquation(p, u, v, SumXX(idx), SumYY(idx), SumXY(idx), Part(Sum1(block, idx), c), Part(Sum2(block, idx), c),
        x, y);
    Orthogonal(p, u, v, x, y, u);
    Orthogonal(p, u, v, x, y, v);
    LeastSquares(p, u, v, r, x, y, a, b);
  }
}

/** The getopt scanner: in-place block rotation of argv, and the resumable scan that moves
    operands behind options across calls. */
module Getopt {
  import opened GetoptGrammar

  type Args = seq<string>

  // ----- exchanging two adjacent blocks

  /** t is s with the blocks of n elements at p and at q swapped. */
  ghost predicate Swapped(s: Args, t: Args, p: nat, q: nat, n: nat)
    requires p + n <= q && q + n <= |s|
  {
    |t| == |s| && t[..p] == s[..p] && t[p..p + n] == s[q..q + n] && t[p + n..q] == s[p + n..q]
    && t[q..q + n] == s[p..p + n] && t[q + n..] == s[q + n..]
  }

  function SwapSeq(s: Args, p: nat, q: nat, n: nat): (t: Args)
    requires p + n <= q && q + n <= |s|
    ensures |t| == |s|
  {
    seq(|s|, k requires 0 <= k < |s| =>
      if p <= k < p + n then s[k - p + q] else if q <= k < q + n then s[k - q + p] else s[k])
  }

  lemma SwapSeqSwaps(s: Args, p: nat, q: nat, n: nat)
    requires p + n <= q && q + n <= |s|
    ensures Swapped(s, SwapSeq(s, p, q, n), p, q, n)
  {
    var t := SwapSeq(s, p, q, n);
    assert t[..p] == s[..p];
    assert t[p..p + n] == s[q..q + n];
    assert t[p + n..q] == s[p + n..q];
    assert t[q..q + n] == s[p..p + n];
    assert t[q + n..] == s[q + n..];
  }

  lemma SwapMore(s: Args, p: nat, q: nat, i: nat)
    requires p + i < q && q + i < |s|
    ensures SwapSeq(s, p, q, i)[p + i] == s[p + i] && SwapSeq(s, p, q, i)[q + i] == s[q + i]
    ensures SwapSeq(s, p, q, i + 1) == SwapSeq(s, p, q, i)[p + i := s[q + i]][q + i := s[p + i]]
  {
  }

  method SwapBlocks(argv: array<string>, p: nat, q: nat, n: nat)
    requires p + n <= q && q + n <= argv.Length
    modifies argv
    ensures argv[..] == SwapSeq(old(argv[..]), p, q, n)
  {
    ghost var a := argv[..];
    for i := 0 to n
      invariant argv[..] == SwapSeq(a, p, q, i)
    {
      SwapMore(a, p, q, i);
      var tem := argv[p + i];
      argv[p + i] := argv[q + i];
      argv[q + i] := tem;
    }
  }

  /** What remains to be rotated, given the three cursors. */
  function Target(s: Args, bottom: nat, middle: nat, top: nat): Args
    requires bottom <= middle <= top <= |s|
  {
    s[..bottom] + s[middle..top] + s[bottom..middle] + s[top..]
  }

  lemma Slices(s: Args, i: nat, j: nat, k: nat)
    requires i <= j <= k <= |s|
    ensures s[i..k] == s[i..j] + s[j..k]
  {
  }

  lemma Regroup(a: Args, b: Args, c: Args, d: Args, e: Args)
    ensures a + (b + c) + d + e == a + b + c + (d + e)
  {
  }

  /** The short left block goes to the far end. */
  lemma LeftShorter(s: Args, t: Args, bottom: nat, middle: nat, top: nat)
    requires bottom <= middle <= top <= |s| && top - middle > middle - bottom
    requires Swapped(s, t, bottom, top - (middle - bottom), middle - bottom)
    ensures Target(t, bottom, middle, top - (middle - bottom)) == Target(s, bottom, middle, top)
  {
    var far := top - (middle - bottom);
    Slices(s, middle, far, top);
    assert t[far..] == t[far..top] + t[top..];
    Regroup(s[..bottom], s[middle..far], s[far..top], s[bottom..middle], s[top..]);
  }

  /** The short right block goes to the front. */
  lemma RightShorter(s: Args, t: Args, bottom: nat, middle: nat, top: nat)
    requires bottom <= middle <= top <= |s| && top - middle <= middle - bottom
    requires Swapped(s, t, bottom, middle, top - middle)
    ensures Target(t, bottom + (top - middle), middle, top) == Target(s, bottom, middle, top)
  {
    var near := bottom + (top - middle);
    Slices(s, bottom, near, middle);
    assert t[..near] == t[..bottom] + t[bottom..near];
    Regroup2(s[..bottom], s[middle..top], s[bottom..near], s[near..middle], s[top..]);
  }

  lemma Regroup2(a: Args, b: Args, c: Args, d: Args, e: Args)
    ensures (a + b) + c + d + e == a + b + (c + d) + e
  {
  }

  /** The turn taken by the exchange loop, on values. */
  ghost predicate Turn(s: Args, bottom: nat, middle: nat, top: nat, after: Args, b: nat, t: nat)
    requires bottom <= middle <= top <= |s|
  {
    var left, right := middle - bottom, top - middle;
    if right > left then b == bottom && t == top - left && after == SwapSeq(s, bottom, top - left, left)
    else b == bottom + right && t == top && after == SwapSeq(s, bottom, middle, right)
  }

  /** Either swap leaves the rotation still to do equal to the rotation asked for. */
  lemma TurnKeepsTarget(s: Args, bottom: nat, middle: nat, top: nat, after: Args, b: nat, t: nat)
    requires bottom <= middle <= top <= |s| && Turn(s, bottom, middle, top, after, b, t)
    ensures b <= middle <= t <= |after| == |s|
    ensures Target(after, b, middle, t) == Target(s, bottom, middle, top)
  {
    if top - middle > middle - bottom {
      TurnLeft(s, bottom, middle, top, t);
    } else {
      TurnRight(s, bottom, middle, top, b);
    }
  }

  lemma TurnLeft(s: Args, bottom: nat, middle: nat, top: nat, t: nat)
    requires bottom <= middle <= top <= |s| && top - middle > middle - bottom && t == top - (middle - bottom)
    ensures Target(SwapSeq(s, bottom, t, middle - bottom), bottom, middle, t) == Target(s, bottom, middle, top)
  {
    SwapSeqSwaps(s, bottom, t, middle - bottom);
    LeftShorter(s, SwapSeq(s, bottom, t, middle - bottom), bottom, middle, top);
  }

  lemma TurnRight(s: Args, bottom: nat, middle: nat, top: nat, b: nat)
    requires bottom <= middle <= top <= |s| && top - middle <= middle - bottom && b == bottom + (top - middle)
    ensures Target(SwapSeq(s, bottom, middle, top - middle), b, middle, top) == Target(s, bottom, middle, top)
  {
    SwapSeqSwaps(s, bottom, middle, top - middle);
    RightShorter(s, SwapSeq(s, bottom, middle, top - middle), bottom, middle, top);
  }

  lemma LeftTurn(s: Args, bottom: nat, middle: nat, top: nat, len: nat, far: nat)
    requires bottom <= middle <= top <= |s| && len == middle - bottom < top - middle && far == top - len
    ensures Turn(s, bottom, middle, top, SwapSeq(s, bottom, far, len), bottom, far)
  {
  }

  lemma RightTurn(s: Args, bottom: nat, middle: nat, top: nat, len: nat, near: nat)
    requires bottom <= middle <= top <= |s| && len == top - middle <= middle - bottom && near == bottom + len
    ensures Turn(s, bottom, middle, top, SwapSeq(s, bottom, middle, len), near, top)
  {
  }

  /** One turn of the exchange loop: the shorter block goes where it belongs. */
  method RotateStep(argv: array<string>, bottom: nat, middle: nat, top: nat) returns (b: nat, t: nat)
    requires bottom < middle < top <= argv.Length
    modifies argv
    ensures b <= middle <= t <= top && t - b < top - bottom
    ensures Turn(old(argv[..]), bottom, middle, top, argv[..], b, t)
  {
    b, t := bottom, top;
    if top - middle > middle - bottom {
      var len := middle - bottom;
      t := top - len;
      LeftTurn(argv[..], bottom, middle, top, len, t);
      SwapBlocks(argv, bottom, t, len);
    } else {
      var len := top - middle;
      b := bottom + len;
      RightTurn(argv[..], bottom, middle, top, len, b);
      SwapBlocks(argv, bottom, middle, len);
    }
  }

  lemma TargetDone(s: Args, bottom: nat, middle: nat, top: nat)
    requires bottom <= middle <= top <= |s| && (top == middle || middle == bottom)
    ensures Target(s, bottom, middle, top) == s
  {
  }

  /** Exchanges argv[bottom..middle] and argv[middle..top] in place. */
  method Rotate(argv: array<string>, bottom0: nat, middle: nat, top0: nat)
    requires bottom0 <= middle <= top0 <= argv.Length
    modifies argv
    ensures argv[..] == Target(old(argv[..]), bottom0, middle, top0)
  {
    var bottom, top := bottom0, top0;
    ghost var s, goal := argv[..], Target(argv[..], bottom0, middle, top0);
    while top > middle && middle > bottom
      invariant 0 <= bottom <= middle <= top <= argv.Length
      invariant argv[..] == s && Target(s, bottom, middle, top) == goal
      decreases top - bottom
    {
      var b, t := RotateStep(argv, bottom, middle, top);
      TurnKeepsTarget(s, bottom, middle, top, argv[..], b, t);
      bottom, top, s := b, t, argv[..];
    }
    TargetDone(s, bottom, middle, top);
  }

  lemma TargetSame(s: Args, bottom: nat, top: nat)
    requires bottom <= top <= |s|
    ensures Target(s, bottom, bottom, top) == s
  {
  }
}

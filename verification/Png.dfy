/** PNG scanline filtering of stb_image_write.h and its inverse from section 6 of RFC 2083,
    composed with the zlib writer into one image round trip. */
module Png {
  import opened Bits
  import Inflate
  import Zlib

  type Row = seq<byte>

  function Sub(a: byte, b: byte): byte
  {
    (a - b) % 256
  }

  function Add(a: byte, b: byte): byte
  {
    (a + b) % 256
  }

  function Abs(x: int): nat
  {
    if x < 0 then -x else x
  }

  /** The one of left, above and above left that is nearest to the plane through them, the earlier
      one on a tie. */
  function Paeth(a: byte, b: byte, c: byte): (r: byte)
    ensures r in [a, b, c] && forall x :: x in [a, b, c] ==> Abs(a + b - c - r) <= Abs(a + b - c - x)
    ensures r != a ==> Abs(a + b - c - r) < Abs(a + b - c - a)
    ensures r != a && r != b ==> Abs(a + b - c - r) < Abs(a + b - c - b)
  {
    var p := a + b - c;
    var pa, pb, pc := Abs(p - a), Abs(p - b), Abs(p - c);
    if pa <= pb && pa <= pc then a else if pb <= pc then b else c
  }

  // ----- section 6 of RFC 2083

  /** Predictor from the bytes to the left, above, and above left. */
  function Predict(ft: nat, a: byte, b: byte, c: byte): (r: byte)
    ensures ft == 3 ==> 2 * r <= a + b <= 2 * r + 1
    ensures ft == 4 ==> r in [a, b, c] && forall x :: x in [a, b, c] ==> Abs(a + b - c - r) <= Abs(a + b - c - x)
  {
    match ft
    case 1 => a
    case 2 => b
    case 3 => (a + b) / 2
    case 4 => Paeth(a, b, c)
    case _ => 0
  }

  /** The byte one pixel to the left, zero outside the row. */
  function Left(r: Row, i: nat, n: nat): byte
    requires i <= |r|
  {
    if 0 < n <= i then r[i - n] else 0
  }

  function FilterRow(ft: nat, row: Row, prior: Row, n: nat): (line: Row)
    requires |prior| == |row|
    ensures |line| == |row|
  {
    seq(|row|, i requires 0 <= i < |row| => Sub(row[i], Predict(ft, Left(row, i, n), prior[i], Left(prior, i, n))))
  }

  /** The first k reconstructed bytes of a filtered row. */
  function Recon(ft: nat, line: Row, prior: Row, n: nat, k: nat): (row: Row)
    requires |prior| == |line| && k <= |line|
    ensures |row| == k
  {
    if k == 0 then []
    else
      var r := Recon(ft, line, prior, n, k - 1);
      r + [Add(line[k - 1], Predict(ft, Left(r, k - 1, n), prior[k - 1], Left(prior, k - 1, n)))]
  }

  function Zeros(len: nat): (z: Row)
    ensures |z| == len
  {
    seq(len, _ => 0)
  }

  function Prior(rows: seq<Row>, j: nat, len: nat): (p: Row)
    requires j <= |rows| && forall k :: 0 <= k < |rows| ==> |rows[k]| == len
    ensures |p| == len
  {
    if j == 0 then Zeros(len) else rows[j - 1]
  }

  /** Reads `count` more scanlines after those already done. */
  function Unfilter(s: seq<byte>, len: nat, n: nat, done: seq<Row>, count: nat): (r: Option<seq<Row>>)
    requires forall k :: 0 <= k < |done| ==> |done[k]| == len
    decreases count
  {
    if count == 0 then if |s| == 0 then Some(done) else None
    else if |s| < 1 + len || s[0] > 4 then None
    else
      var row := Recon(s[0], s[1..1 + len], Prior(done, |done|, len), n, len);
      Unfilter(s[1 + len..], len, n, done + [row], count - 1)
  }

  // ----- what the writer produces

  ghost predicate Rectangular(rows: seq<Row>, len: nat)
  {
    forall k :: 0 <= k < |rows| ==> |rows[k]| == len
  }

  /** Scanlines 0 .. |fts| with the filter chosen for each. */
  function Filtered(rows: seq<Row>, fts: seq<byte>, len: nat, n: nat): seq<byte>
    requires |fts| <= |rows| && forall k :: 0 <= k < |rows| ==> |rows[k]| == len
  {
    if |fts| == 0 then []
    else
      var j := |fts| - 1;
      Filtered(rows, fts[..j], len, n) + ([fts[j]] + FilterRow(fts[j], rows[j], Prior(rows, j, len), n))
  }

  /** Scanlines j .. |fts|. */
  function FilteredFrom(rows: seq<Row>, fts: seq<byte>, len: nat, n: nat, j: nat): seq<byte>
    requires j <= |fts| <= |rows| && forall k :: 0 <= k < |rows| ==> |rows[k]| == len
    decreases |fts| - j
  {
    if j == |fts| then []
    else [fts[j]] + FilterRow(fts[j], rows[j], Prior(rows, j, len), n) + FilteredFrom(rows, fts, len, n, j + 1)
  }

  lemma {:induction false} FilteredSplit(rows: seq<Row>, fts: seq<byte>, len: nat, n: nat, j: nat)
    requires j <= |fts| <= |rows| && Rectangular(rows, len)
    ensures Filtered(rows, fts[..j], len, n) + FilteredFrom(rows, fts, len, n, j) == FilteredFrom(rows, fts, len, n, 0)
  {
    if j != 0 {
      var k := j - 1;
      FilteredSplit(rows, fts, len, n, k);
      assert fts[..j][..k] == fts[..k] && fts[..j][k] == fts[k];
      var line := [fts[k]] + FilterRow(fts[k], rows[k], Prior(rows, k, len), n);
      assert Filtered(rows, fts[..j], len, n) == Filtered(rows, fts[..k], len, n) + line;
      assert FilteredFrom(rows, fts, len, n, k) == line + FilteredFrom(rows, fts, len, n, j);
      ConcatAssoc(Filtered(rows, fts[..k], len, n), line, FilteredFrom(rows, fts, len, n, j));
    }
  }

  lemma AddSub(a: byte, p: byte)
    ensures Add(Sub(a, p), p) == a
  {
  }

  /** One byte more: the predictor sees the bytes reconstructed before. */
  lemma ReconByte(ft: nat, row: Row, prior: Row, n: nat, i: nat, p: byte)
    requires |prior| == |row| && i < |row| && p == Predict(ft, Left(row, i, n), prior[i], Left(prior, i, n))
    requires Recon(ft, FilterRow(ft, row, prior, n), prior, n, i) == row[..i]
    ensures Recon(ft, FilterRow(ft, row, prior, n), prior, n, i + 1) == row[..i] + [Add(Sub(row[i], p), p)]
  {
    assert Left(row[..i], i, n) == Left(row, i, n);
    assert FilterRow(ft, row, prior, n)[i] == Sub(row[i], p);
  }

  /** Reconstruction undoes any of the filters on any row. */
  lemma {:induction false} ReconBack(ft: nat, row: Row, prior: Row, n: nat, k: nat)
    requires |prior| == |row| && k <= |row|
    ensures Recon(ft, FilterRow(ft, row, prior, n), prior, n, k) == row[..k]
  {
    if k != 0 {
      var i := k - 1;
      var p := Predict(ft, Left(row, i, n), prior[i], Left(prior, i, n));
      ReconBack(ft, row, prior, n, i);
      ReconByte(ft, row, prior, n, i, p);
      AddSub(row[i], p);
      assert row[..k] == row[..i] + [row[i]];
    }
  }

  lemma UnfilterStep(ft: byte, line: Row, rest: seq<byte>, len: nat, n: nat, done: seq<Row>, row: Row,
                     done': seq<Row>, count: nat, left: nat)
    requires |line| == len && Rectangular(done, len) && ft <= 4 && count == left + 1
    requires row == Recon(ft, line, Prior(done, |done|, len), n, len) && done' == done + [row]
    ensures Unfilter([ft] + line + rest, len, n, done, count) == Unfilter(rest, len, n, done', left)
  {
    var s := [ft] + line + rest;
    assert s[1..1 + len] == line && s[1 + len..] == rest;
  }

  lemma RowRecon(rows: seq<Row>, ft: byte, len: nat, n: nat, j: nat)
    requires j < |rows| && Rectangular(rows, len)
    ensures Recon(ft, FilterRow(ft, rows[j], Prior(rows, j, len), n), Prior(rows[..j], j, len), n, len) == rows[j]
  {
    assert Prior(rows[..j], j, len) == Prior(rows, j, len);
    ReconBack(ft, rows[j], Prior(rows, j, len), n, len);
    assert rows[j][..len] == rows[j];
  }

  /** A scanline that reconstructs to row j takes the rows done from j to j + 1. */
  lemma UnfilterRow(rows: seq<Row>, ft: byte, line: Row, len: nat, n: nat, j: nat, next: nat, rest: seq<byte>,
                    count: nat, left: nat)
    requires j < |rows| && Rectangular(rows, len) && |line| == len && ft <= 4 && next == j + 1 && count == left + 1
    requires Recon(ft, line, Prior(rows[..j], j, len), n, len) == rows[j]
    ensures Unfilter([ft] + line + rest, len, n, rows[..j], count) == Unfilter(rest, len, n, rows[..next], left)
  {
    assert |rows[..j]| == j;
    assert rows[..next] == rows[..j] + [rows[j]];
    UnfilterStep(ft, line, rest, len, n, rows[..j], rows[j], rows[..next], count, left);
  }

  /** Unfiltering all scanlines rebuilds the rows. */
  lemma {:induction false} UnfilterBack(rows: seq<Row>, fts: seq<byte>, len: nat, n: nat, j: nat, left: nat)
    requires j + left == |fts| == |rows| && Rectangular(rows, len)
    requires forall k :: 0 <= k < |fts| ==> fts[k] <= 4
    ensures Unfilter(FilteredFrom(rows, fts, len, n, j), len, n, rows[..j], left) == Some(rows)
    decreases left
  {
    if left == 0 {
      assert rows[..j] == rows;
    } else {
      var next, less := j + 1, left - 1;
      UnfilterBack(rows, fts, len, n, next, less);
      RowRecon(rows, fts[j], len, n, j);
      UnfilterRow(rows, fts[j], FilterRow(fts[j], rows[j], Prior(rows, j, len), n), len, n, j, next,
          FilteredFrom(rows, fts, len, n, next), left, less);
    }
  }

  // ----- the writer

  /** Start of output row y inside the pixel buffer. */
  function Offset(stride: nat, height: nat, y: nat, flip: bool): (o: nat)
    requires y < height
  {
    stride * (if flip then height - 1 - y else y)
  }

  /** The caller's buffer holds every row. */
  ghost predicate Holds(pixels: seq<byte>, stride: nat, len: nat, height: nat)
  {
    forall y, flip :: 0 <= y < height ==> Offset(stride, height, y, flip) + len <= |pixels|
  }

  /** The rows in the order they are written. */
  function Rows(pixels: seq<byte>, stride: nat, len: nat, height: nat, flip: bool): (rows: seq<Row>)
    requires Holds(pixels, stride, len, height)
    ensures |rows| == height && Rectangular(rows, len)
  {
    seq(height, y requires 0
        <= y < height => pixels[Offset(stride, height, y, flip)..Offset(stride, height, y, flip) + len])
  }

  function SignedStride(stride: nat, flip: bool): int
  {
    if flip then 0 - stride else stride
  }

  lemma OffsetStep(stride: nat, height: nat, y: nat, flip: bool)
    requires 0 < y < height
    ensures Offset(stride, height, y, flip) - SignedStride(stride, flip) == Offset(stride, height, y - 1, flip)
  {
    var k := if flip then height - 1 - y else y;
    assert stride * (k + 1) == stride * k + stride && stride * (k - 1) == stride * k - stride;
  }

  /** The writer's case number: on the first row, filters that look up are replaced. */
  function Kind(ft: nat, first: bool): nat
    requires ft <= 4
  {
    if first then [0, 1, 0, 5, 6][ft] else [0, 1, 2, 3, 4][ft]
  }

  predicate LooksUp(kind: nat)
  {
    kind == 2 || kind == 3 || kind == 4
  }

  /** One byte of the line for the first pixel. */
  function FirstPixel(kind: nat, z: byte, up: byte): byte
  {
    match kind
    case 2 => Sub(z, up)
    case 3 => Sub(z, up / 2)
    case 4 => Sub(z, Paeth(0, up, 0))
    case _ => z
  }

  /** One byte of the line after the first pixel. */
  function LaterPixel(kind: nat, z: byte, left: byte, up: byte, upleft: byte): byte
  {
    match kind
    case 1 => Sub(z, left)
    case 2 => Sub(z, up)
    case 3 => Sub(z, (left + up) / 2)
    case 4 => Sub(z, Paeth(left, up, upleft))
    case 5 => Sub(z, left / 2)
    case 6 => Sub(z, Paeth(left, 0, 0))
    case _ => z
  }

  /** The replaced cases agree with the standard's filters over a zero row. */
  lemma PixelCases(ft: nat, first: bool, z: byte, left: byte, up: byte, upleft: byte)
    requires ft <= 4 && (first ==> up == 0 && upleft == 0)
    ensures first ==> !LooksUp(Kind(ft, first))
    ensures FirstPixel(Kind(ft, first), z, up) == Sub(z, Predict(ft, 0, up, 0))
    ensures LaterPixel(Kind(ft, first), z, left, up, upleft) == Sub(z, Predict(ft, left, up, upleft))
    ensures Kind(ft, first) == 0 ==> z == Sub(z, Predict(ft, left, up, upleft))
  {
  }

  /** Filters one row into line: the standard's filter, the row above the first being zero. */
  method EncodeLine(pixels: seq<byte>, stride: nat, len: nat, height: nat, y: nat, n: nat, filterType: nat,
                    flip: bool, line: array<byte>)
    requires y < height && 0 < n <= len && line.Length == len && filterType <= 4
    requires Holds(pixels, stride, len, height)
    modifies line
    ensures var rows := Rows(pixels, stride, len, height, flip);
            line[..] == FilterRow(filterType, rows[y], Prior(rows, y, len), n)
  {
    var rows := Rows(pixels, stride, len, height, flip);
    var z, prev := Offset(stride, height, y, flip), Offset(stride, height, y, flip) - SignedStride(stride, flip);
    if y != 0 {
      OffsetStep(stride, height, y, flip);
    }
    FillLine(pixels, z, prev, len, n, filterType, y == 0, line, rows[y], Prior(rows, y, len));
  }

  /** Each byte as the loops compute it is the standard's filtered byte. */
  lemma LineByte(ft: nat, first: bool, row: Row, prior: Row, n: nat, i: nat)
    requires ft <= 4 && 0 < n <= |row| == |prior| && i < |row| && (first ==> prior == Zeros(|row|))
    ensures var up := if LooksUp(Kind(ft, first)) then prior[i] else 0;
            var upleft := if LooksUp(Kind(ft, first)) then Left(prior, i, n) else 0;
            FilterRow(ft, row, prior, n)[i] == if i < n then FirstPixel(Kind(ft, first), row[i], up)
                                               else LaterPixel(Kind(ft, first), row[i], row[i - n], up, upleft)
  {
    PixelCases(ft, first, row[i], Left(row, i, n), prior[i], Left(prior, i, n));
  }

  /** Byte i of a line, from the pixel buffer; the first pixel of a line has no left neighbour. */
  function ByteAt(pixels: seq<byte>, z: nat, prev: int, n: nat, kind: nat, i: nat): byte
    requires n > 0 && z + i < |pixels| && (LooksUp(kind) ==> 0 <= prev && prev + i < |pixels|)
  {
    var up := LooksUp(kind);
    if i < n then FirstPixel(kind, pixels[z + i], if up then pixels[prev + i] else 0)
    else LaterPixel(kind, pixels[z + i], pixels[z + i - n], if up then pixels[prev + i]
        else 0, if up then pixels[prev + i - n] else 0)
  }

  lemma ByteAtIs(pixels: seq<byte>, z: nat, prev: int, len: nat, n: nat, ft: nat, first: bool, row: Row, prior: Row,
                 i: nat)
    requires 0 < n <= len && ft <= 4 && z + len <= |pixels| && row == pixels[z..z + len] && i < len
    requires !first ==> 0 <= prev && prev + len <= |pixels|
    requires prior == if first then Zeros(len) else pixels[prev..prev + len]
    ensures LooksUp(Kind(ft, first)) ==> !first
    ensures ByteAt(pixels, z, prev, n, Kind(ft, first), i) == FilterRow(ft, row, prior, n)[i]
  {
    PixelCases(ft, first, 0, 0, 0, 0);
    LineByte(ft, first, row, prior, n, i);
    assert row[i] == pixels[z + i];
  }

  method FillLine(pixels: seq<byte>, z: nat, prev: int, len: nat, n: nat, filterType: nat, first: bool,
                  line: array<byte>,
                  ghost row: Row, ghost prior: Row)
    requires 0 < n <= len && line.Length == len && filterType <= 4 && z + len <= |pixels| && row == pixels[z..z + len]
    requires !first ==> 0 <= prev && prev + len <= |pixels|
    requires prior == if first then Zeros(len) else pixels[prev..prev + len]
    modifies line
    ensures line[..] == FilterRow(filterType, row, prior, n)
  {
    var kind := Kind(filterType, first);
    ghost var spec := FilterRow(filterType, row, prior, n);
    for i := 0 to n
      invariant line[..i] == spec[..i]
    {
      ByteAtIs(pixels, z, prev, len, n, filterType, first, row, prior, i);
      line[i] := ByteAt(pixels, z, prev, n, kind, i);
      Extended(line, spec, i);
    }
    for i := n to len
      invariant line[..i] == spec[..i]
    {
      ByteAtIs(pixels, z, prev, len, n, filterType, first, row, prior, i);
      line[i] := ByteAt(pixels, z, prev, n, kind, i);
      Extended(line, spec, i);
    }
    assert line[..] == line[..len] && spec[..len] == spec;
  }

  lemma Extended(line: array<byte>, spec: Row, i: nat)
    requires i < line.Length == |spec| && line[..i] == spec[..i] && line[i] == spec[i]
    ensures line[..i + 1] == spec[..i + 1]
  {
    assert line[..i + 1] == line[..i] + [line[i]] && spec[..i + 1] == spec[..i] + [spec[i]];
  }

  // ----- choosing a filter and writing the image

  function Signed(b: byte): int
  {
    if b < 128 then b else b - 256
  }

  /** The entropy estimate: the sum of magnitudes of the line's bytes taken as signed. */
  function Estimate(line: Row): nat
  {
    if |line| == 0 then 0 else Estimate(line[..|line| - 1]) + Abs(Signed(line[|line| - 1]))
  }

  method EstimateLine(line: array<byte>) returns (est: nat)
    ensures est == Estimate(line[..])
  {
    est := 0;
    for i := 0 to line.Length
      invariant est == Estimate(line[..i])
    {
      assert line[..i + 1][..i] == line[..i];
      est := est + Abs(Signed(line[i]));
    }
    assert line[..line.Length] == line[..];
  }

  /** The estimate of a row under a filter. */
  ghost function Cost(ft: nat, row: Row, prior: Row, n: nat): nat
    requires |prior| == |row|
  {
    Estimate(FilterRow(ft, row, prior, n))
  }

  /** Filters the row and estimates the line. */
  method TryFilter(pixels: seq<byte>, stride: nat, len: nat, height: nat, y: nat, n: nat, ft: nat, flip: bool,
                   line: array<byte>, ghost row: Row, ghost prior: Row) returns (est: nat)
    requires y < height && 0 < n <= len && line.Length == len && ft <= 4 && Holds(pixels, stride, len, height)
    requires var rows := Rows(pixels, stride, len, height, flip); row == rows[y] && prior == Prior(rows, y, len)
    modifies line
    ensures est == Cost(ft, row, prior, n)
  {
    EncodeLine(pixels, stride, len, height, y, n, ft, flip, line);
    est := EstimateLine(line);
  }

  /** Tries all five filters and keeps the one of least estimate. */
  method BestFilter(pixels: seq<byte>, stride: nat, len: nat, height: nat, y: nat, n: nat, flip: bool,
                    line: array<byte>) returns (best: byte)
    requires y < height && 0 < n <= len && line.Length == len && Holds(pixels, stride, len, height)
    modifies line
    ensures best <= 4
    ensures var rows := Rows(pixels, stride, len, height, flip);
            var prior := Prior(rows, y, len);
            line[..] == FilterRow(best, rows[y], prior, n)
            && forall ft :: 0 <= ft <= 4 ==>
                 Estimate(line[..]) <= Cost(ft, rows[y], prior, n) || 0x7fffffff <= Cost(ft, rows[y], prior, n)
  {
    ghost var rows := Rows(pixels, stride, len, height, flip);
    ghost var row, prior := rows[y], Prior(rows, y, len);
    best := 0;
    var bestVal := 0x7fffffff;
    for ft := 0 to 5
      invariant best <= 4 && bestVal <= 0x7fffffff
      invariant bestVal < 0x7fffffff ==> bestVal == Cost(best, row, prior, n)
      invariant forall k :: 0 <= k < ft ==> bestVal <= Cost(k, row, prior, n) || 0x7fffffff <= Cost(k, row, prior, n)
    {
      var est := TryFilter(pixels, stride, len, height, y, n, ft, flip, line, row, prior);
      if est < bestVal {
        bestVal, best := est, ft;
      }
    }
    EncodeLine(pixels, stride, len, height, y, n, best, flip, line);
  }

  /** One scanline, with the forced filter if there is one. */
  method WriteLine(pixels: seq<byte>, stride: nat, len: nat, height: nat, y: nat, n: nat, flip: bool, force: int,
                   line: array<byte>) returns (ft: byte)
    requires y < height && 0 < n <= len && line.Length == len && Holds(pixels, stride, len, height)
    modifies line
    ensures ft <= 4 && (0 <= force < 5 ==> ft == force)
    ensures var rows := Rows(pixels, stride, len, height, flip);
            line[..] == FilterRow(ft, rows[y], Prior(rows, y, len), n)
  {
    if 0 <= force < 5 {
      ft := force;
      EncodeLine(pixels, stride, len, height, y, n, ft, flip, line);
    } else {
      ft := BestFilter(pixels, stride, len, height, y, n, flip, line);
    }
  }

  lemma FilteredSnoc(rows: seq<Row>, fts: seq<byte>, ft: byte, len: nat, n: nat)
    requires |fts| < |rows| && Rectangular(rows, len)
    ensures Filtered(rows, fts + [ft], len, n)
         == Filtered(rows, fts, len, n) + ([ft] + FilterRow(ft, rows[|fts|], Prior(rows, |fts|, len), n))
  {
    assert (fts + [ft])[..|fts|] == fts;
  }

  /** All scanlines, each with its filter byte; force selects one filter for all when 0 to 4. */
  method FilterImage(pixels: seq<byte>, stride: nat, len: nat, height: nat, n: nat, flip: bool, force: int)
    returns (filt: seq<byte>, ghost fts: seq<byte>)
    requires 0 < n <= len && Holds(pixels, stride, len, height)
    ensures |fts| == height && (forall k :: 0 <= k < height ==> fts[k] <= 4)
    ensures filt == Filtered(Rows(pixels, stride, len, height, flip), fts, len, n)
    ensures Unfilter(filt, len, n, [], height) == Some(Rows(pixels, stride, len, height, flip))
  {
    ghost var rows := Rows(pixels, stride, len, height, flip);
    filt, fts := [], [];
    var line := new byte[len];
    for j := 0 to height
      invariant |fts| == j && (forall k :: 0 <= k < j ==> fts[k] <= 4)
      invariant filt == Filtered(rows, fts, len, n)
    {
      var ft := WriteLine(pixels, stride, len, height, j, n, flip, force, line);
      FilteredSnoc(rows, fts, ft, len, n);
      fts := fts + [ft];
      filt := filt + ([ft] + line[..]);
    }
    FilteredBack(rows, fts, len, n);
  }

  lemma FilteredBack(rows: seq<Row>, fts: seq<byte>, len: nat, n: nat)
    requires |fts| == |rows| && Rectangular(rows, len) && forall k :: 0 <= k < |fts| ==> fts[k] <= 4
    ensures Unfilter(Filtered(rows, fts, len, n), len, n, [], |rows|) == Some(rows)
  {
    FilteredSplit(rows, fts, len, n, |rows|);
    assert fts[..|rows|] == fts && rows[..0] == [];
    assert Filtered(rows, fts, len, n) + [] == Filtered(rows, fts, len, n);
    UnfilterBack(rows, fts, len, n, 0, |rows|);
  }

  /** The image data of a PNG file: decompressing and unfiltering it gives the rows back. */
  method WriteImageData(pixels: seq<byte>, stride: nat, len: nat, height: nat, n: nat, flip: bool, force: int,
                        level: int)
    returns (idat: seq<byte>)
    requires 0 < n <= len && 0 < height && Holds(pixels, stride, len, height)
    ensures var s := Inflate.ZlibDecode(idat);
            s.Some? && Unfilter(s.value, len, n, [], height) == Some(Rows(pixels, stride, len, height, flip))
  {
    var filt;
    ghost var fts;
    filt, fts := FilterImage(pixels, stride, len, height, n, flip, force);
    assert |filt| > 0;
    idat := Zlib.Compress(filt, level);
  }
}

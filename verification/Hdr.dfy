/** The run-length writer of Radiance HDR scanlines against its decoder. */
module Hdr {
  import opened Bits
  import opened Sequences

  // ----- Radiance components: bytes

  /** Reads packets until exactly `width` bytes are known: a byte above 128 repeats the next byte,
      a byte from 1 to 128 copies that many. */
  function ExpandHdr(s: seq<byte>, width: nat): (r: Option<(seq<byte>, seq<byte>)>)
    decreases width
  {
    if width == 0 then Some(([], s))
    else if |s| == 0 || s[0] == 0 then None
    else if s[0] > 128 then
      var n := s[0] - 128;
      if |s| < 2 || n > width then None
      else
        var more := ExpandHdr(s[2..], width - n);
        if more.None? then None else Some((Repeat(s[1], n) + more.value.0, more.value.1))
    else
      var n := s[0];
      if |s| < 1 + n || n > width then None
      else
        var more := ExpandHdr(s[1 + n..], width - n);
        if more.None? then None else Some((s[1..1 + n] + more.value.0, more.value.1))
  }

  /** The bytes s begin with packets for x, followed by rest. */
  predicate HdrReads(s: seq<byte>, x: seq<byte>, rest: seq<byte>)
  {
    ExpandHdr(s, |x|) == Some((x, rest))
  }

  /** The packets `out` stand for x in front of any other packets. */
  ghost predicate HdrDecodes(out: seq<byte>, x: seq<byte>)
  {
    forall tail, more, rest {:trigger HdrReads(tail, more, rest)} :: HdrReads(tail, more, rest) ==>
        HdrReads(out + tail, x + more, rest)
  }

  lemma HdrRunPacket(n: nat, b: byte, tail: seq<byte>, more: seq<byte>, rest: seq<byte>)
    requires 1 <= n <= 127 && HdrReads(tail, more, rest)
    ensures HdrReads([n + 128, b] + tail, Repeat(b, n) + more, rest)
  {
    var s := [n + 128, b] + tail;
    assert s[2..] == tail && s[0] == n + 128 && s[1] == b;
  }

  lemma HdrDumpPacket(d: seq<byte>, tail: seq<byte>, more: seq<byte>, rest: seq<byte>)
    requires 1 <= |d| <= 128 && HdrReads(tail, more, rest)
    ensures HdrReads([|d|] + d + tail, d + more, rest)
  {
    var s := [|d|] + d + tail;
    assert s[0] == |d| && s[1..1 + |d|] == d && s[1 + |d|..] == tail;
  }

  lemma HdrAppend(a: seq<byte>, x: seq<byte>, b: seq<byte>, y: seq<byte>)
    requires HdrDecodes(a, x) && HdrDecodes(b, y)
    ensures HdrDecodes(a + b, x + y)
  {
    forall tail, more, rest {:trigger HdrReads(tail, more, rest)} | HdrReads(tail, more, rest)
      ensures HdrReads(a + b + tail, x + y + more, rest)
    {
      assert HdrReads(b + tail, y + more, rest);
      assert HdrReads(a + (b + tail), x + (y + more), rest);
      ConcatAssoc(a, b, tail);
      ConcatAssoc(x, y, more);
    }
  }

  lemma HdrRunDecodes(n: nat, b: byte)
    requires 1 <= n <= 127
    ensures HdrDecodes([n + 128, b], Repeat(b, n))
  {
    forall tail, more, rest {:trigger HdrReads(tail, more, rest)} | HdrReads(tail, more, rest)
      ensures HdrReads([n + 128, b] + tail, Repeat(b, n) + more, rest)
    {
      HdrRunPacket(n, b, tail, more, rest);
    }
  }

  lemma HdrDumpDecodes(d: seq<byte>)
    requires 1 <= |d| <= 128
    ensures HdrDecodes([|d|] + d, d)
  {
    forall tail, more, rest {:trigger HdrReads(tail, more, rest)} | HdrReads(tail, more, rest)
      ensures HdrReads([|d|] + d + tail, d + more, rest)
    {
      HdrDumpPacket(d, tail, more, rest);
    }
  }

  lemma AddDump(out: seq<byte>, comp: seq<byte>, i: nat, j: nat)
    requires i < j <= |comp| && j - i <= 128 && HdrDecodes(out, comp[..i])
    ensures HdrDecodes(out + ([j - i] + comp[i..j]), comp[..j])
  {
    HdrDumpDecodes(comp[i..j]);
    HdrAppend(out, comp[..i], [j - i] + comp[i..j], comp[i..j]);
    assert comp[..i] + comp[i..j] == comp[..j];
  }

  predicate AllEqual(s: seq<byte>, b: byte)
  {
    forall k :: 0 <= k < |s| ==> s[k] == b
  }

  lemma AddRun(out: seq<byte>, comp: seq<byte>, i: nat, len: nat, j: nat, packet: seq<byte>)
    requires j == i + len <= |comp| && 0 < len <= 127 && packet == [len + 128, comp[i]]
    requires HdrDecodes(out, comp[..i]) && AllEqual(comp[i..j], comp[i])
    ensures HdrDecodes(out + packet, comp[..j])
  {
    HdrRunDecodes(len, comp[i]);
    HdrAppend(out, comp[..i], packet, Repeat(comp[i], len));
    assert comp[i..j] == Repeat(comp[i], len);
    assert comp[..i] + comp[i..j] == comp[..j];
  }

  method WriteDump(out: seq<byte>, comp: seq<byte>, i: nat, j: nat) returns (out': seq<byte>)
    requires i < j <= |comp| && j - i <= 128 && HdrDecodes(out, comp[..i])
    ensures HdrDecodes(out', comp[..j])
  {
    AddDump(out, comp, i, j);
    out' := out + ([j - i] + comp[i..j]);
  }

  /** Writes comp[x..r] as dumps of at most 128 bytes. */
  method WriteDumps(out: seq<byte>, comp: seq<byte>, x: nat, r: nat) returns (out': seq<byte>)
    requires x <= r <= |comp| && HdrDecodes(out, comp[..x])
    ensures HdrDecodes(out', comp[..r])
  {
    out' := out;
    var i := x;
    while i < r
      invariant x <= i <= r && HdrDecodes(out', comp[..i])
    {
      var j := if r - i > 128 then i + 128 else r;
      out' := WriteDump(out', comp, i, j);
      i := j;
    }
    assert i == r;
  }

  /** Writes comp[x..r], all equal to b, as runs of at most 127 bytes. */
  method WriteRuns(out: seq<byte>, comp: seq<byte>, x: nat, r: nat, b: byte) returns (out': seq<byte>)
    requires x <= r <= |comp| && HdrDecodes(out, comp[..x]) && AllEqual(comp[x..r], b)
    ensures HdrDecodes(out', comp[..r])
  {
    out' := out;
    var i := x;
    while i < r
      invariant x <= i <= r && HdrDecodes(out', comp[..i]) && AllEqual(comp[i..r], b)
    {
      var j := if r - i > 127 then i + 127 else r;
      out' := WriteRun(out', comp, i, j, r, b);
      i := j;
    }
    assert i == r;
  }

  method WriteRun(out: seq<byte>, comp: seq<byte>, i: nat, j: nat, ghost r: nat, b: byte) returns (out': seq<byte>)
    requires i < j <= r <= |comp| && j - i <= 127 && HdrDecodes(out, comp[..i]) && AllEqual(comp[i..r], b)
    ensures HdrDecodes(out', comp[..j]) && AllEqual(comp[j..r], b)
  {
    assert comp[i] == comp[i..r][0] == b;
    assert comp[i..j] == comp[i..r][..j - i] && comp[j..r] == comp[i..r][j - i..];
    var packet := [j - i + 128, b];
    AddRun(out, comp, i, j - i, j, packet);
    out' := out + packet;
  }

  /** First position from x on where three equal bytes begin, the width if there is none. */
  method FindRun(comp: seq<byte>, x: nat) returns (r: nat)
    requires x < |comp|
    ensures x <= r <= |comp| && (r + 2 < |comp| ==> comp[r] == comp[r + 1] == comp[r + 2])
    ensures r + 2 >= |comp| ==> r == |comp|
    ensures forall k :: x <= k < r && k + 2 < |comp| ==> !(comp[k] == comp[k + 1] == comp[k + 2])
  {
    r := x;
    while r + 2 < |comp|
      invariant x <= r <= |comp|
      invariant forall k :: x <= k < r && k + 2 < |comp| ==> !(comp[k] == comp[k + 1] == comp[k + 2])
    {
      if comp[r] == comp[r + 1] && comp[r] == comp[r + 2] {
        break;
      }
      r := r + 1;
    }
    if r + 2 >= |comp| {
      r := |comp|;
    }
  }

  method WriteComponent(comp: seq<byte>) returns (out: seq<byte>)
    ensures HdrDecodes(out, comp)
  {
    out := [];
    var x := 0;
    assert comp[..0] == [];
    assert HdrDecodes([], []) by {
      forall tail, more, rest {:trigger HdrReads(tail, more, rest)} | HdrReads(tail, more, rest)
        ensures HdrReads([] + tail, [] + more, rest)
      {
        assert [] + tail == tail && [] + more == more;
      }
    }
    while x < |comp|
      invariant x <= |comp| && HdrDecodes(out, comp[..x])
    {
      var r := FindRun(comp, x);
      out := WriteDumps(out, comp, x, r);
      x := r;
      if r + 2 < |comp| {
        while r < |comp| && comp[r] == comp[x]
          invariant x <= r <= |comp| && forall k :: x <= k < r ==> comp[k] == comp[x]
        {
          r := r + 1;
        }
        out := WriteRuns(out, comp, x, r, comp[x]);
        x := r;
      }
    }
    assert comp[..|comp|] == comp;
  }

  // ----- Radiance scanlines: four bytes a pixel, one component after the other

  type Rgbe = p: seq<byte> | |p| == 4 witness [0, 0, 0, 0]

  function Plane(pixels: seq<Rgbe>, c: nat): (p: seq<byte>)
    requires c < 4
    ensures |p| == |pixels|
  {
    seq(|pixels|, x requires 0 <= x < |pixels| => pixels[x][c])
  }

  function Interleave(a: seq<byte>, b: seq<byte>, c: seq<byte>, d: seq<byte>): (r: seq<Rgbe>)
    requires |a| == |b| == |c| == |d|
  {
    seq(|a|, x requires 0 <= x < |a| => [a[x], b[x], c[x], d[x]])
  }

  /** Pixels stored one after the other. */
  function ReadFlat(s: seq<byte>, width: nat): Option<(seq<Rgbe>, seq<byte>)>
    decreases width
  {
    if width == 0 then Some(([], s))
    else if |s| < 4 then None
    else
      var more := ReadFlat(s[4..], width - 1);
      if more.None? then None else Some(([s[..4]] + more.value.0, more.value.1))
  }

  /** A reader of scanlines: flat ones outside 8..32767, otherwise header and four components. */
  function ReadScanline(s: seq<byte>, width: nat): Option<(seq<Rgbe>, seq<byte>)>
  {
    if width < 8 || width >= 32768 then ReadFlat(s, width)
    else if |s| < 4 || s[0] != 2 || s[1] != 2 || s[2] as int * 256 + s[3] != width then None
    else
      var a := ExpandHdr(s[4..], width);
      if a.None? then None else
      var b := ExpandHdr(a.value.1, width);
      if b.None? then None else
      var c := ExpandHdr(b.value.1, width);
      if c.None? then None else
      var d := ExpandHdr(c.value.1, width);
      if d.None? || !(|a.value.0| == |b.value.0| == |c.value.0| == |d.value.0|) then None
      else Some((Interleave(a.value.0, b.value.0, c.value.0, d.value.0), d.value.1))
  }

  lemma HdrAlone(out: seq<byte>, x: seq<byte>, tail: seq<byte>)
    requires HdrDecodes(out, x)
    ensures ExpandHdr(out + tail, |x|) == Some((x, tail))
  {
    assert HdrReads(tail, [], tail);
    assert x + [] == x;
    assert HdrReads(out + tail, x, tail);
  }

  lemma PlanesBack(pixels: seq<Rgbe>)
    ensures Interleave(Plane(pixels, 0), Plane(pixels, 1), Plane(pixels, 2), Plane(pixels, 3)) == pixels
  {
    var r := Interleave(Plane(pixels, 0), Plane(pixels, 1), Plane(pixels, 2), Plane(pixels, 3));
    forall x | 0 <= x < |pixels|
      ensures r[x] == pixels[x]
    {
      assert pixels[x] == [pixels[x][0], pixels[x][1], pixels[x][2], pixels[x][3]];
    }
  }

  lemma ScanlineBack(pixels: seq<Rgbe>, header: seq<byte>, o0: seq<byte>, o1: seq<byte>, o2: seq<byte>, o3: seq<byte>,
                     rest: seq<byte>)
    requires 8 <= |pixels| < 32768 && header == [2, 2, |pixels| / 256, |pixels| % 256]
    requires HdrDecodes(o0, Plane(pixels, 0)) && HdrDecodes(o1, Plane(pixels, 1)) && HdrDecodes(o2, Plane(pixels, 2))
    requires HdrDecodes(o3, Plane(pixels, 3))
    ensures ReadScanline(header + (o0 + (o1 + (o2 + (o3 + rest)))), |pixels|) == Some((pixels, rest))
  {
    var s := header + (o0 + (o1 + (o2 + (o3 + rest))));
    assert s[4..] == o0 + (o1 + (o2 + (o3 + rest)));
    assert s[0] == 2 && s[1] == 2 && s[2] == |pixels| / 256 && s[3] == |pixels| % 256;
    HdrAlone(o0, Plane(pixels, 0), o1 + (o2 + (o3 + rest)));
    HdrAlone(o1, Plane(pixels, 1), o2 + (o3 + rest));
    HdrAlone(o2, Plane(pixels, 2), o3 + rest);
    HdrAlone(o3, Plane(pixels, 3), rest);
    PlanesBack(pixels);
  }

  lemma {:induction false} FlatBack(pixels: seq<Rgbe>, rest: seq<byte>)
    ensures ReadFlat(Flatten(pixels) + rest, |pixels|) == Some((pixels, rest))
    decreases |pixels|
  {
    if |pixels| == 0 {
      assert Flatten(pixels) + rest == rest;
    } else {
      FlattenHead(pixels);
      FlatBack(pixels[1..], rest);
      var s, tail := Flatten(pixels) + rest, Flatten(pixels[1..]) + rest;
      assert s == pixels[0] + tail;
      assert s[..4] == pixels[0] && s[4..] == tail;
      assert [pixels[0]] + pixels[1..] == pixels;
    }
  }

  method WriteFlat(pixels: seq<Rgbe>) returns (out: seq<byte>)
    ensures out == Flatten(pixels)
  {
    out := [];
    for x := 0 to |pixels|
      invariant out == Flatten(pixels[..x])
    {
      assert pixels[..x + 1][..x] == pixels[..x];
      out := out + pixels[x];
    }
    assert pixels[..|pixels|] == pixels;
  }

  /** One component of every pixel, as copied to the scratch buffer. */
  method FillPlane(pixels: seq<Rgbe>, c: nat) returns (p: seq<byte>)
    requires c < 4
    ensures p == Plane(pixels, c)
  {
    var scratch := new byte[|pixels|];
    for x := 0 to |pixels|
      invariant scratch[..x] == Plane(pixels, c)[..x]
    {
      scratch[x] := pixels[x][c];
    }
    p := scratch[..];
  }

  /** A scanline of any width is read back, whatever follows it. */
  method WriteHdrScanline(pixels: seq<Rgbe>) returns (out: seq<byte>)
    ensures forall rest :: ReadScanline(out + rest, |pixels|) == Some((pixels, rest))
  {
    var width := |pixels|;
    if width < 8 || width >= 32768 {
      out := WriteFlat(pixels);
      forall rest ensures ReadScanline(out + rest, width) == Some((pixels, rest)) { FlatBack(pixels, rest); }
    } else {
      var header: seq<byte> := [2, 2, width / 256, width % 256];
      var p0 := FillPlane(pixels, 0);
      var p1 := FillPlane(pixels, 1);
      var p2 := FillPlane(pixels, 2);
      var p3 := FillPlane(pixels, 3);
      var o0 := WriteComponent(p0);
      var o1 := WriteComponent(p1);
      var o2 := WriteComponent(p2);
      var o3 := WriteComponent(p3);
      out := header + o0 + o1 + o2 + o3;
      forall rest
        ensures ReadScanline(out + rest, width) == Some((pixels, rest))
      {
        ScanlineBack(pixels, header, o0, o1, o2, o3, rest);
        assert out + rest == header + (o0 + (o1 + (o2 + (o3 + rest))));
      }
    }
  }
}

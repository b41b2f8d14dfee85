/** The run-length writer of TGA images against its decoder. */
module Tga {
  import opened Bits
  import opened Sequences

  /** The byte order of a stored pixel: blue, green, red, then alpha. */
  function Reorder(p: seq<byte>): (r: seq<byte>)
    ensures |r| == |p|
  {
    if |p| >= 3 then [p[2], p[1], p[0]] + p[3..] else p
  }

  /** A stored pixel is blue, green, red and whatever follows; of fewer bytes it is kept. */
  function FromStored(s: seq<byte>): (p: seq<byte>)
    ensures |p| == |s|
  {
    if |s| < 3 then s
    else
      var blue, green, red := s[0], s[1], s[2];
      [red, green, blue] + s[3..]
  }

  lemma ReorderBack(p: seq<byte>)
    ensures FromStored(Reorder(p)) == p
  {
  }

  function ReadPixels(s: seq<byte>, n: nat, count: nat): Option<(seq<seq<byte>>, seq<byte>)>
    decreases count
  {
    if count == 0 then Some(([], s))
    else if |s| < n then None
    else
      var more := ReadPixels(s[n..], n, count - 1);
      if more.None? then None else Some(([FromStored(s[..n])] + more.value.0, more.value.1))
  }

  /** Reads packets of n-byte pixels until exactly `width` pixels are known. */
  function ExpandTga(s: seq<byte>, n: nat, width: nat): Option<(seq<seq<byte>>, seq<byte>)>
    decreases width
  {
    if width == 0 then Some(([], s))
    else if |s| == 0 then None
    else
      var count := if s[0] < 128 then s[0] as int + 1 else s[0] - 127;
      if count > width then None
      else
        var px := ReadPixels(s[1..], n, if s[0] < 128 then count else 1);
        if px.None? || |px.value.0| == 0 then None
        else
          var more := ExpandTga(px.value.1, n, width - count);
          if more.None? then None
          else Some(((if s[0] < 128 then px.value.0 else Repeat(px.value.0[0], count)) + more.value.0, more.value.1))
  }

  /** All pixels have n bytes. */
  predicate Sized(row: seq<seq<byte>>, n: nat)
  {
    forall i :: 0 <= i < |row| ==> |row[i]| == n
  }

  function Stored(px: seq<seq<byte>>): (r: seq<seq<byte>>)
    ensures |r| == |px|
  {
    seq(|px|, i requires 0 <= i < |px| => Reorder(px[i]))
  }

  lemma PixelThen(p: seq<byte>, n: nat, s: seq<byte>, px: seq<seq<byte>>, tail: seq<byte>)
    requires |p| == n && ReadPixels(s, n, |px|) == Some((px, tail))
    ensures ReadPixels(Reorder(p) + s, n, |px| + 1) == Some(([p] + px, tail))
  {
    assert (Reorder(p) + s)[..n] == Reorder(p) && (Reorder(p) + s)[n..] == s;
    ReorderBack(p);
  }

  lemma {:induction false} PixelsBack(px: seq<seq<byte>>, n: nat, tail: seq<byte>)
    requires Sized(px, n)
    ensures ReadPixels(Flatten(Stored(px)) + tail, n, |px|) == Some((px, tail))
    decreases |px|
  {
    if |px| == 0 {
      assert Flatten(Stored(px)) + tail == tail;
    } else {
      FlattenHead(Stored(px));
      assert Stored(px)[1..] == Stored(px[1..]);
      PixelsBack(px[1..], n, tail);
      PixelThen(px[0], n, Flatten(Stored(px[1..])) + tail, px[1..], tail);
      ConcatAssoc(Reorder(px[0]), Flatten(Stored(px[1..])), tail);
      assert [px[0]] + px[1..] == px;
    }
  }

  predicate TgaReads(s: seq<byte>, n: nat, x: seq<seq<byte>>, rest: seq<byte>)
  {
    ExpandTga(s, n, |x|) == Some((x, rest))
  }

  /** The packets `out` stand for the pixels x in front of any other packets. */
  ghost predicate TgaDecodes(out: seq<byte>, n: nat, x: seq<seq<byte>>)
  {
    forall tail, more, rest {:trigger TgaReads(tail, n, more, rest)} :: TgaReads(tail, n, more, rest) ==>
        TgaReads(out + tail, n, x + more, rest)
  }

  lemma RawPacket(px: seq<seq<byte>>, n: nat, tail: seq<byte>, more: seq<seq<byte>>, rest: seq<byte>)
    requires 1 <= |px| <= 128 && Sized(px, n) && TgaReads(tail, n, more, rest)
    ensures TgaReads([|px| - 1] + Flatten(Stored(px)) + tail, n, px + more, rest)
  {
    var s := [|px| - 1] + Flatten(Stored(px)) + tail;
    assert s[1..] == Flatten(Stored(px)) + tail;
    PixelsBack(px, n, tail);
  }

  lemma RunPacket(p: seq<byte>, h: byte, len: nat, n: nat, tail: seq<byte>, more: seq<seq<byte>>, rest: seq<byte>)
    requires 1 <= len <= 128 && h == len + 127 && |p| == n && TgaReads(tail, n, more, rest)
    ensures TgaReads([h] + Reorder(p) + tail, n, Repeat(p, len) + more, rest)
  {
    var s := [h] + Reorder(p) + tail;
    assert s[0] == h && s[1..] == Reorder(p) + tail;
    PixelThen(p, n, tail, [], tail);
    assert [p] + [] == [p];
    assert |Repeat(p, len) + more| - len == |more|;
  }

  lemma RawDecodes(px: seq<seq<byte>>, n: nat)
    requires 1 <= |px| <= 128 && Sized(px, n)
    ensures TgaDecodes([|px| - 1] + Flatten(Stored(px)), n, px)
  {
    forall tail, more, rest {:trigger TgaReads(tail, n, more, rest)} | TgaReads(tail, n, more, rest)
      ensures TgaReads([|px| - 1] + Flatten(Stored(px)) + tail, n, px + more, rest)
    {
      RawPacket(px, n, tail, more, rest);
    }
  }

  lemma RunDecodes(p: seq<byte>, len: nat, n: nat)
    requires 1 <= len <= 128 && |p| == n
    ensures TgaDecodes([len + 127] + Reorder(p), n, Repeat(p, len))
  {
    forall tail, more, rest {:trigger TgaReads(tail, n, more, rest)} | TgaReads(tail, n, more, rest)
      ensures TgaReads([len + 127] + Reorder(p) + tail, n, Repeat(p, len) + more, rest)
    {
      RunPacket(p, len + 127, len, n, tail, more, rest);
    }
  }

  lemma TgaAppend(a: seq<byte>, x: seq<seq<byte>>, b: seq<byte>, y: seq<seq<byte>>, n: nat)
    requires TgaDecodes(a, n, x) && TgaDecodes(b, n, y)
    ensures TgaDecodes(a + b, n, x + y)
  {
    forall tail, more, rest {:trigger TgaReads(tail, n, more, rest)} | TgaReads(tail, n, more, rest)
      ensures TgaReads(a + b + tail, n, x + y + more, rest)
    {
      assert TgaReads(b + tail, n, y + more, rest);
      assert TgaReads(a + (b + tail), n, x + (y + more), rest);
      ConcatAssoc(a, b, tail);
      ConcatAssoc(x, y, more);
    }
  }

  lemma NothingDecodes(n: nat)
    ensures TgaDecodes([], n, [])
  {
    forall tail, more, rest {:trigger TgaReads(tail, n, more, rest)} | TgaReads(tail, n, more, rest)
      ensures TgaReads([] + tail, n, [] + more, rest)
    {
      assert [] + tail == tail && [] + more == more;
    }
  }

  // ----- the writer

  /** The next packet: its length, and whether its pixels are stored one by one. */
  method NextPacket(row: seq<seq<byte>>, i: nat) returns (len: nat, diff: bool)
    requires i < |row|
    ensures 1 <= len <= 128 && i + len <= |row|
    ensures !diff ==> len >= 2 && forall k :: i <= k < i + len ==> row[k] == row[i]
    ensures !diff && i + len < |row| && len < 128 ==> row[i + len] != row[i]
    ensures diff && i + 1 < |row| ==> row[i] != row[i + 1]
  {
    len, diff := 1, true;
    if i < |row| - 1 {
      len, diff := 2, row[i] != row[i + 1];
      var k := i + 2;
      if diff {
        var prev := i;
        while k < |row| && len < 128
          invariant i + 2 <= k <= |row| && len == k - i && len <= 128 && prev == k - 2
        {
          if row[prev] != row[k] {
            prev, len := prev + 1, len + 1;
          } else {
            len := len - 1;
            break;
          }
          k := k + 1;
        }
      } else {
        while k < |row| && len < 128
          invariant i + 2 <= k <= |row| && len == k - i && len <= 128
          invariant forall j :: i <= j < k ==> row[j] == row[i]
        {
          if row[i] == row[k] {
            len := len + 1;
          } else {
            break;
          }
          k := k + 1;
        }
      }
    }
  }

  lemma AddRaw(out: seq<byte>, row: seq<seq<byte>>, n: nat, i: nat, j: nat, packet: seq<byte>)
    requires i < j <= |row| && j - i <= 128 && Sized(row, n) && TgaDecodes(out, n, row[..i])
    requires packet == [j - i - 1] + Flatten(Stored(row[i..j]))
    ensures TgaDecodes(out + packet, n, row[..j])
  {
    var px := row[i..j];
    RawDecodes(px, n);
    TgaAppend(out, row[..i], packet, px, n);
    assert row[..i] + px == row[..j];
  }

  lemma AddRun(out: seq<byte>, row: seq<seq<byte>>, n: nat, i: nat, j: nat, packet: seq<byte>)
    requires i < j <= |row| && j - i <= 128 && Sized(row, n) && TgaDecodes(out, n, row[..i])
    requires (forall k :: i <= k < j ==> row[k] == row[i]) && packet == [j - i + 127] + Reorder(row[i])
    ensures TgaDecodes(out + packet, n, row[..j])
  {
    RunDecodes(row[i], j - i, n);
    TgaAppend(out, row[..i], packet, Repeat(row[i], j - i), n);
    assert row[..i] + Repeat(row[i], j - i) == row[..j];
  }

  method WritePixels(row: seq<seq<byte>>, i: nat, j: nat) returns (b: seq<byte>)
    requires i <= j <= |row|
    ensures b == Flatten(Stored(row[i..j]))
  {
    b := [];
    ghost var px := Stored(row[i..j]);
    for k := i to j
      invariant b == Flatten(px[..k - i])
    {
      assert px[..k + 1 - i][..k - i] == px[..k - i];
      b := b + Reorder(row[k]);
    }
    assert px[..j - i] == px;
  }

  method WritePacket(out: seq<byte>, row: seq<seq<byte>>, n: nat, i: nat, j: nat, diff: bool) returns (out': seq<byte>)
    requires i < j <= |row| && j - i <= 128 && Sized(row, n) && TgaDecodes(out, n, row[..i])
    requires !diff ==> forall k :: i <= k < j ==> row[k] == row[i]
    ensures TgaDecodes(out', n, row[..j])
  {
    if diff {
      var b := WritePixels(row, i, j);
      var packet: seq<byte> := [j - i - 1] + b;
      AddRaw(out, row, n, i, j, packet);
      out' := out + packet;
    } else {
      var packet: seq<byte> := [(j - i - 129) % 256] + Reorder(row[i]);
      assert (j - i - 129) % 256 == j - i + 127;
      AddRun(out, row, n, i, j, packet);
      out' := out + packet;
    }
  }

  method WriteRow(row: seq<seq<byte>>, n: nat) returns (out: seq<byte>)
    requires Sized(row, n)
    ensures TgaDecodes(out, n, row)
  {
    out := [];
    NothingDecodes(n);
    assert row[..0] == [];
    var i := 0;
    while i < |row|
      invariant i <= |row| && TgaDecodes(out, n, row[..i])
    {
      var len, diff := NextPacket(row, i);
      var j := i + len;
      out := WritePacket(out, row, n, i, j, diff);
      i := j;
    }
    assert row[..|row|] == row;
  }

  lemma TgaAlone(out: seq<byte>, n: nat, x: seq<seq<byte>>, rest: seq<byte>)
    requires TgaDecodes(out, n, x)
    ensures ExpandTga(out + rest, n, |x|) == Some((x, rest))
  {
    assert TgaReads(rest, n, [], rest);
    assert x + [] == x;
    assert TgaReads(out + rest, n, x, rest);
  }

  /** The rows in the order they are stored: upwards unless flipped. */
  function StoredPixels(rows: seq<seq<seq<byte>>>, flip: bool, count: nat): seq<seq<byte>>
    requires count <= |rows|
    decreases count
  {
    if count == 0 then []
    else StoredPixels(rows, flip, count - 1) + rows[if flip then count - 1 else |rows| - count]
  }

  lemma AddRow(rows: seq<seq<seq<byte>>>, flip: bool, count: nat, next: nat, j: nat, n: nat, out: seq<byte>,
               b: seq<byte>)
    requires count < |rows| && next == count + 1 && j == (if flip then count else |rows| - 1 - count)
    requires TgaDecodes(out, n, StoredPixels(rows, flip, count)) && TgaDecodes(b, n, rows[j])
    ensures TgaDecodes(out + b, n, StoredPixels(rows, flip, next))
  {
    TgaAppend(out, StoredPixels(rows, flip, count), b, rows[j], n);
    assert StoredPixels(rows, flip, next) == StoredPixels(rows, flip, count) + rows[j];
  }

  method WriteRows(rows: seq<seq<seq<byte>>>, n: nat, flip: bool) returns (out: seq<byte>)
    requires forall j :: 0 <= j < |rows| ==> Sized(rows[j], n)
    ensures TgaDecodes(out, n, StoredPixels(rows, flip, |rows|))
  {
    out := [];
    NothingDecodes(n);
    for count := 0 to |rows|
      invariant TgaDecodes(out, n, StoredPixels(rows, flip, count))
    {
      out := WriteNextRow(out, rows, n, flip, count, count + 1);
    }
  }

  method WriteNextRow(out: seq<byte>, rows: seq<seq<seq<byte>>>, n: nat, flip: bool, count: nat, ghost next: nat)
    returns (out': seq<byte>)
    requires count < |rows| && next == count + 1 && TgaDecodes(out, n, StoredPixels(rows, flip, count))
    requires forall j :: 0 <= j < |rows| ==> Sized(rows[j], n)
    ensures TgaDecodes(out', n, StoredPixels(rows, flip, next))
  {
    var j := if flip then count else |rows| - 1 - count;
    var b := WriteRow(rows[j], n);
    AddRow(rows, flip, count, next, j, n, out, b);
    out' := out + b;
  }

  /** The packets of the whole image are read back as its rows, whatever follows them. */
  method WriteImage(rows: seq<seq<seq<byte>>>, n: nat, flip: bool) returns (out: seq<byte>)
    requires forall j :: 0 <= j < |rows| ==> Sized(rows[j], n)
    ensures var px := StoredPixels(rows, flip, |rows|);
            forall rest :: ExpandTga(out + rest, n, |px|) == Some((px, rest))
  {
    out := WriteRows(rows, n, flip);
    ghost var px := StoredPixels(rows, flip, |rows|);
    forall rest ensures ExpandTga(out + rest, n, |px|) == Some((px, rest)) { TgaAlone(out, n, px, rest); }
  }
}

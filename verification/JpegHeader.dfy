/** The marker segments of a JPEG file as sections B.2.2 to B.2.4 of ITU-T T.81 lay them out: the
    frame header, the Huffman table definitions and the scan header, read back from bytes. */
module JpegHeader {
  import opened Bits
  import opened JpegTables

  // ----- the reader

  datatype Segment = Segment(marker: byte, payload: seq<byte>, rest: seq<byte>)

  /** A marker, the length of what follows it, and that. */
  function ReadSegment(s: seq<byte>): (r: Option<Segment>)
    ensures r.Some? ==> |r.value.rest| < |s|
  {
    if |s| < 4 || s[0] != 0xFF then None
    else
      var len := s[2] as int * 256 + s[3];
      if len < 2 || |s| < 2 + len then None else Some(Segment(s[1], s[4..2 + len], s[2 + len..]))
  }

  function SumOf(counts: seq<nat>): nat
  {
    if |counts| == 0 then 0 else SumOf(counts[..|counts| - 1]) + counts[|counts| - 1]
  }

  /** Table definitions, by class in the high and destination in the low four bits. */
  function ReadTables(s: seq<byte>, defs: map<int, Definition>): Option<map<int, Definition>>
    decreases |s|
  {
    if |s| == 0 then Some(defs)
    else if |s| < 17 then None
    else
      var n := SumOf(s[1..17]);
      if |s| < 17 + n then None
      else ReadTables(s[17 + n..], defs[s[0] as int := Definition([0] + s[1..17], s[17..17 + n])])
  }

  /** A component of the frame: identifier and sampling factors. */
  datatype FrameComp = FrameComp(id: byte, h: nat, v: nat)

  datatype Frame = Frame(height: nat, width: nat, comps: seq<FrameComp>)

  function ReadFrame(s: seq<byte>): Option<Frame>
  {
    if |s| < 6 || |s| != 6 + 3 * s[5] as int then None
    else Some(Frame(s[1] as int * 256 + s[2], s[3] as int * 256 + s[4],
                    seq(s[5], i requires 0
                        <= i < s[5] => FrameComp(s[6 + 3 * i], s[7 + 3 * i] / 16, s[7 + 3 * i] % 16))))
  }

  /** A component of the scan: identifier and the destinations of its DC and AC tables. */
  datatype ScanComp = ScanComp(id: byte, dc: nat, ac: nat)

  function ReadScan(s: seq<byte>): Option<seq<ScanComp>>
  {
    if |s| < 1 || |s| != 4 + 2 * s[0] as int then None
    else Some(seq(s[0], i requires 0 <= i < s[0] => ScanComp(s[1 + 2 * i], s[2 + 2 * i] / 16, s[2 + 2 * i] % 16)))
  }

  datatype Header = Header(frame: Frame, defs: map<int, Definition>, scan: seq<ScanComp>)

  /** Segments up to the scan header; other segments are passed over. */
  function ReadHeader(s: seq<byte>, frame: Option<Frame>, defs: map<int, Definition>): Option<(Header, seq<byte>)>
    decreases |s|
  {
    var g := ReadSegment(s);
    if g.None? then None
    else if g.value.marker == 0xC0 then
      var f := ReadFrame(g.value.payload);
      if f.None? then None else ReadHeader(g.value.rest, f, defs)
    else if g.value.marker == 0xC4 then
      var d := ReadTables(g.value.payload, defs);
      if d.None? then None else ReadHeader(g.value.rest, frame, d.value)
    else if g.value.marker == 0xDA then
      var c := ReadScan(g.value.payload);
      if c.None? || frame.None? then None else Some((Header(frame.value, defs, c.value), g.value.rest))
    else ReadHeader(g.value.rest, frame, defs)
  }

  // ----- the writer's bytes

  function Word(n: nat): (w: seq<byte>)
    requires n < 0x1_0000
    ensures |w| == 2
  {
    [n / 256, n % 256]
  }

  function SegmentBytes(marker: byte, payload: seq<byte>): seq<byte>
    requires |payload| + 2 < 0x1_0000
  {
    [0xFF, marker] + Word(|payload| + 2) + payload
  }

  lemma SegmentBack(marker: byte, payload: seq<byte>, rest: seq<byte>)
    requires |payload| + 2 < 0x1_0000
    ensures ReadSegment(SegmentBytes(marker, payload) + rest) == Some(Segment(marker, payload, rest))
  {
    var s, len := SegmentBytes(marker, payload) + rest, |payload| + 2;
    assert s[0] == 0xFF && s[1] == marker && s[2] == len / 256 && s[3] == len % 256;
    assert s[4..2 + len] == payload && s[2 + len..] == rest;
  }

  /** The bytes of a table definition. */
  ghost predicate TableBytes(t: seq<byte>, dest: byte, d: Definition)
  {
    |d.counts| == 17 && d.counts[0] == 0 && SumOf(d.counts[1..]) == |d.values| && t == [dest] + d.counts[1..] + d.values
  }

  lemma TableBack(t: seq<byte>, dest: byte, d: Definition, more: seq<byte>, defs: map<int, Definition>)
    requires TableBytes(t, dest, d)
    ensures ReadTables(t + more, defs) == ReadTables(more, defs[dest as int := d])
  {
    var s, n := t + more, |d.values|;
    assert s[0] == dest && s[1..17] == d.counts[1..] && s[17..17 + n] == d.values && s[17 + n..] == more;
    assert [0] + d.counts[1..] == d.counts;
  }

  /** Numbers that are bytes, as bytes. */
  function ToBytes(s: seq<nat>): (b: seq<byte>)
    requires forall i :: 0 <= i < |s| ==> s[i] < 256
    ensures |b| == |s| && forall i :: 0 <= i < |s| ==> b[i] == s[i]
  {
    seq(|s|, i requires 0 <= i < |s| => s[i])
  }

  /** A definition that can be written: its counts and values are bytes, as many values as counted. */
  ghost predicate Writable(d: Definition)
  {
    && |d.counts| == 17 && d.counts[0] == 0 && SumOf(d.counts[1..]) == |d.values|
    && (forall i :: 0 <= i < |d.counts| ==> d.counts[i] < 256)
    && (forall i :: 0 <= i < |d.values| ==> d.values[i] < 256)
  }

  function DefinitionBytes(dest: byte, d: Definition): (t: seq<byte>)
    requires Writable(d)
    ensures TableBytes(t, dest, d) && |t| == 17 + |d.values|
  {
    var c, v := ToBytes(d.counts[1..]), ToBytes(d.values);
    assert c == d.counts[1..] && v == d.values;
    [dest] + c + v
  }

  lemma {:induction false} CodesCounted(nr: Counts, l: nat, next: nat)
    requires l < |nr| && next == l + 1
    ensures |Codes(nr, l)| == SumOf(nr[1..next])
    decreases l
  {
    if l > 0 {
      CodesCounted(nr, l - 1, l);
      assert nr[1..next][..l - 1] == nr[1..l] && nr[1..next][l - 1] == nr[l];
    } else {
      assert nr[1..next] == [];
    }
  }
}

/** A whole JPEG file: the writer's header bytes and scan, and a reader that takes everything it
    needs from the bytes: sampling factors, tables and which component uses which. */
module JpegFile {
  import opened Bits
  import opened JpegBits
  import opened JpegCode
  import opened JpegScan
  import opened JpegTables
  import opened JpegArrays
  import opened JpegImage
  import opened JpegHeader

  // ----- the reader

  function MaxH(comps: seq<FrameComp>): (m: nat)
    ensures m > 0
  {
    if |comps| == 0 then 1
    else
      var m, h := MaxH(comps[1..]), comps[0].h;
      if h > m then h else m
  }

  function MaxV(comps: seq<FrameComp>): (m: nat)
    ensures m > 0
  {
    if |comps| == 0 then 1
    else
      var m, v := MaxV(comps[1..]), comps[0].v;
      if v > m then v else m
  }

  function Ceil(n: nat, d: nat): nat
    requires d > 0
  {
    (n + d - 1) / d
  }

  /** The component numbers of the data units of one minimum coded unit (section A.2.3): as many
      of each component as its sampling factors say. */
  function UnitOrder(comps: seq<FrameComp>): (r: seq<nat>)
    ensures forall i :: 0 <= i < |r| ==> r[i] < |comps|
  {
    if |comps| == 0 then []
    else
      var k := |comps| - 1;
      UnitOrder(comps[..k]) + seq(comps[k].h * comps[k].v, _ => k)
  }

  function Times(order: seq<nat>, n: nat): (r: seq<nat>)
    ensures forall i :: 0 <= i < |r| ==> r[i] in order
  {
    if n == 0 then [] else Times(order, n - 1) + order
  }

  /** How many minimum coded units an image has. */
  function UnitCount(f: Frame): nat
  {
    Ceil(f.width, 8 * MaxH(f.comps)) * Ceil(f.height, 8 * MaxV(f.comps))
  }

  /** The scan has the components of the frame and every table it names is defined. */
  ghost predicate Complete(h: Header)
  {
    && |h.scan| == |h.frame.comps|
    && forall j :: 0 <= j < |h.scan| ==>
         && h.scan[j].id == h.frame.comps[j].id
         && h.scan[j].dc in h.defs && Described(h.defs[h.scan[j].dc].counts, h.defs[h.scan[j].dc].values)
         && 16 + h.scan[j].ac in h.defs
         && Described(h.defs[16 + h.scan[j].ac].counts, h.defs[16 + h.scan[j].ac].values)
  }

  ghost function DcOfScan(h: Header, j: nat): Table
    requires Complete(h) && j < |h.scan|
  {
    HuffTable(h.defs[h.scan[j].dc].counts, h.defs[h.scan[j].dc].values)
  }

  ghost function AcOfScan(h: Header, j: nat): Table
    requires Complete(h) && j < |h.scan|
  {
    HuffTable(h.defs[16 + h.scan[j].ac].counts, h.defs[16 + h.scan[j].ac].values)
  }

  ghost function DcList(h: Header): (r: seq<Table>)
    requires Complete(h)
    ensures |r| == |h.scan|
  {
    seq(|h.scan|, j requires 0 <= j < |h.scan| => DcOfScan(h, j))
  }

  ghost function AcList(h: Header): (r: seq<Table>)
    requires Complete(h)
    ensures |r| == |h.scan|
  {
    seq(|h.scan|, j requires 0 <= j < |h.scan| => AcOfScan(h, j))
  }

  ghost function ScanOrder(f: Frame): (r: seq<nat>)
    ensures forall i :: 0 <= i < |r| ==> r[i] < |f.comps|
  {
    Times(UnitOrder(f.comps), UnitCount(f))
  }

  ghost function DecodeBody(h: Header, body: seq<byte>): Option<(seq<seq<int>>, seq<bool>)>
    requires Complete(h)
  {
    DecodeScan(DcList(h), AcList(h), ScanOrder(h.frame), MsbBytes(Unstuff(body)), seq(|h.scan|, _ => 0))
  }

  /** All blocks of a file, in the order of the scan. */
  ghost function DecodeFile(s: seq<byte>): Option<seq<seq<int>>>
  {
    if |s| < 2 || s[0] != 0xFF || s[1] != 0xD8 then None
    else
      var r := ReadHeader(s[2..], None, map[]);
      if r.None? || !Complete(r.value.0) then None
      else
        var b := DecodeBody(r.value.0, r.value.1);
        if b.None? then None else Some(b.value.0)
  }

  // ----- the writer's header

  function App0(): (p: seq<byte>)
    ensures |p| == 14
  {
    [0x4A, 0x46, 0x49, 0x46, 0, 1, 1, 0, 0, 1, 0, 1, 0, 0]
  }

  /** The dimensions are kept in sixteen bits each. */
  function FramePayload(width: nat, height: nat, subsample: bool): (p: seq<byte>)
    ensures |p| == 15
  {
    [8, height / 256 % 256, height % 256, width / 256 % 256, width % 256,
     3, 1, if subsample then 0x22 else 0x11, 0, 2, 0x11, 1, 3, 0x11, 1]
  }

  function ScanPayload(): (p: seq<byte>)
    ensures |p| == 10
  {
    [3, 1, 0, 2, 0x11, 3, 0x11, 0, 0x3F, 0]
  }

  lemma TwoBytes(n: nat)
    ensures n / 256 % 256 * 256 + n % 256 == n % 0x1_0000
  {
  }

  /** Sampling factor of the luminance. */
  function Factor(subsample: bool): nat
  {
    if subsample then 2 else 1
  }

  function FrameOf(width: nat, height: nat, f: nat): Frame
  {
    Frame(height % 0x1_0000, width % 0x1_0000, [FrameComp(1, f, f), FrameComp(2, 1, 1), FrameComp(3, 1, 1)])
  }

  lemma FrameBack(width: nat, height: nat, subsample: bool, p: seq<byte>)
    requires p == FramePayload(width, height, subsample)
    ensures ReadFrame(p) == Some(FrameOf(width, height, Factor(subsample)))
  {
    var f := Factor(subsample);
    TwoBytes(width);
    TwoBytes(height);
    var r := ReadFrame(p);
    assert p[5] == 3 && r.Some?;
    assert r.value.comps[0] == FrameComp(1, f, f) && r.value.comps[1] == FrameComp(2, 1, 1);
    assert r.value.comps[2] == FrameComp(3, 1, 1);
    assert r.value.comps == [FrameComp(1, f, f), FrameComp(2, 1, 1), FrameComp(3, 1, 1)];
  }

  lemma ScanSpecBack(p: seq<byte>)
    requires p == ScanPayload()
    ensures ReadScan(p) == Some([ScanComp(1, 0, 0), ScanComp(2, 1, 1), ScanComp(3, 1, 1)])
  {
    var r := ReadScan(p);
    assert p[0] == 3 && r.Some?;
    assert r.value[0] == ScanComp(1, 0, 0) && r.value[1] == ScanComp(2, 1, 1) && r.value[2] == ScanComp(3, 1, 1);
    assert r.value == [ScanComp(1, 0, 0), ScanComp(2, 1, 1), ScanComp(3, 1, 1)];
  }

  lemma HeaderSkip(marker: byte, payload: seq<byte>, rest: seq<byte>, f: Option<Frame>, defs: map<int, Definition>)
    requires |payload| + 2 < 0x1_0000 && marker != 0xC0 && marker != 0xC4 && marker != 0xDA
    ensures ReadHeader(SegmentBytes(marker, payload) + rest, f, defs) == ReadHeader(rest, f, defs)
  {
    SegmentBack(marker, payload, rest);
  }

  lemma HeaderFrame(payload: seq<byte>, rest: seq<byte>, f: Option<Frame>, defs: map<int, Definition>)
    requires |payload| + 2 < 0x1_0000 && ReadFrame(payload).Some?
    ensures ReadHeader(SegmentBytes(0xC0, payload) + rest, f, defs) == ReadHeader(rest, ReadFrame(payload), defs)
  {
    SegmentBack(0xC0, payload, rest);
  }

  lemma HeaderDefs(payload: seq<byte>, rest: seq<byte>, f: Option<Frame>, defs: map<int, Definition>)
    requires |payload| + 2 < 0x1_0000 && ReadTables(payload, defs).Some?
    ensures ReadHeader(SegmentBytes(0xC4, payload) + rest, f, defs)
              == ReadHeader(rest, f, ReadTables(payload, defs).value)
  {
    SegmentBack(0xC4, payload, rest);
  }

  lemma HeaderScan(payload: seq<byte>, rest: seq<byte>, f: Frame, defs: map<int, Definition>)
    requires |payload| + 2 < 0x1_0000 && ReadScan(payload).Some?
    ensures ReadHeader(SegmentBytes(0xDA, payload) + rest, Some(f), defs)
              == Some((Header(f, defs, ReadScan(payload).value), rest))
  {
    SegmentBack(0xDA, payload, rest);
  }

  lemma FourTables(t0: seq<byte>, t1: seq<byte>, t2: seq<byte>, t3: seq<byte>,
                   d0: Definition, d1: Definition, d2: Definition, d3: Definition)
    requires TableBytes(t0, 0x00, d0) && TableBytes(t1, 0x10, d1) && TableBytes(t2, 0x01, d2)
    requires TableBytes(t3, 0x11, d3)
    ensures ReadTables(t0 + (t1 + (t2 + t3)), map[]) == Some(map[0x00 := d0, 0x10 := d1, 0x01 := d2, 0x11 := d3])
  {
    TableBack(t0, 0x00, d0, t1 + (t2 + t3), map[]);
    TableBack(t1, 0x10, d1, t2 + t3, map[0x00 := d0]);
    TableBack(t2, 0x01, d2, t3, map[0x00 := d0, 0x10 := d1]);
    assert t3 + [] == t3;
    TableBack(t3, 0x11, d3, [], map[0x00 := d0, 0x10 := d1, 0x01 := d2]);
  }

  // ----- the definitions as bytes

  lemma CountsAdd(nr: Counts)
    requires |nr| == 17
    ensures SumOf(nr[1..]) == |Codes(nr, 16)|
  {
    CodesCounted(nr, 16, 17);
    assert nr[1..17] == nr[1..];
  }

  lemma CountedWritable(d: Definition)
    requires |d.counts| == 17 && d.counts[0] == 0 && |Codes(d.counts, 16)| == |d.values|
    requires forall i :: 0 <= i < |d.counts| ==> d.counts[i] < 256
    requires forall i :: 0 <= i < |d.values| ==> d.values[i] < 256
    ensures Writable(d)
  {
    CountsAdd(d.counts);
  }

  lemma YdcBytes(d: Definition)
    requires IsYdc(d)
    ensures |d.counts| == 17 && d.counts[0] == 0 && |d.values| == 12
    ensures forall i :: 0 <= i < |d.counts| ==> d.counts[i] < 256
    ensures forall i :: 0 <= i < |d.values| ==> d.values[i] < 256
  {
  }

  lemma YdcWritable(d: Definition)
    requires IsYdc(d)
    ensures Writable(d) && |d.values| == 12
  {
    YdcDescribed(d.counts);
    YdcBytes(d);
    CountedWritable(d);
  }

  lemma UvdcBytes(d: Definition)
    requires IsUvdc(d)
    ensures |d.counts| == 17 && d.counts[0] == 0 && |d.values| == 12
    ensures forall i :: 0 <= i < |d.counts| ==> d.counts[i] < 256
    ensures forall i :: 0 <= i < |d.values| ==> d.values[i] < 256
  {
  }

  lemma UvdcWritable(d: Definition)
    requires IsUvdc(d)
    ensures Writable(d) && |d.values| == 12
  {
    UvdcDescribed(d.counts);
    UvdcBytes(d);
    CountedWritable(d);
  }

  lemma YacBytes(d: Definition)
    requires IsYac(d)
    ensures |d.counts| == 17 && d.counts[0] == 0 && |d.values| == 162
    ensures forall i :: 0 <= i < |d.counts| ==> d.counts[i] < 256
    ensures forall i :: 0 <= i < |d.values| ==> d.values[i] < 256
  {
    forall k | 0 <= k < |d.values| ensures d.values[k] < 256 { YacRightAll(k); }
  }

  lemma YacWritable(d: Definition)
    requires IsYac(d)
    ensures Writable(d) && |d.values| == 162
  {
    YacDescribed(d.counts);
    YacBytes(d);
    CountedWritable(d);
  }

  lemma UvacBytes(d: Definition)
    requires IsUvac(d)
    ensures |d.counts| == 17 && d.counts[0] == 0 && |d.values| == 162
    ensures forall i :: 0 <= i < |d.counts| ==> d.counts[i] < 256
    ensures forall i :: 0 <= i < |d.values| ==> d.values[i] < 256
  {
    forall k | 0 <= k < |d.values| ensures d.values[k] < 256 { UvacRightAll(k); }
  }

  lemma UvacWritable(d: Definition)
    requires IsUvac(d)
    ensures Writable(d) && |d.values| == 162
  {
    UvacDescribed(d.counts);
    UvacBytes(d);
    CountedWritable(d);
  }

  // ----- the header as a whole

  /** The four definitions, one after the other. */
  function DefinitionsPayload(d0: Definition, d1: Definition, d2: Definition, d3: Definition): seq<byte>
    requires Writable(d0) && Writable(d1) && Writable(d2) && Writable(d3)
  {
    DefinitionBytes(0x00, d0) + (DefinitionBytes(0x10, d1) + (DefinitionBytes(0x01, d2) + DefinitionBytes(0x11, d3)))
  }

  /** The segments in front of the scan. */
  function Segments(quant: seq<byte>, frame: seq<byte>, defs: seq<byte>, scan: seq<byte>): seq<byte>
    requires |quant| < 1000 && |frame| < 1000 && |defs| < 1000 && |scan| < 1000
  {
    SegmentBytes(0xE0, App0()) + (SegmentBytes(0xDB, quant) + (SegmentBytes(0xC0, frame) + (SegmentBytes(0xC4, defs) +
    SegmentBytes(0xDA, scan))))
  }

  lemma Five(a: seq<byte>, b: seq<byte>, c: seq<byte>, d: seq<byte>, e: seq<byte>, rest: seq<byte>)
    ensures a + (b + (c + (d + e))) + rest == a + (b + (c + (d + (e + rest))))
  {
  }

  /** Reading the segments back, whatever the quantization tables. */
  lemma SegmentsBack(quant: seq<byte>, frame: seq<byte>, defs: seq<byte>, scan: seq<byte>, body: seq<byte>,
                     f: Frame, m: map<int, Definition>, cs: seq<ScanComp>)
    requires |quant| < 1000 && |frame| < 1000 && |defs| < 1000 && |scan| < 1000
    requires ReadFrame(frame) == Some(f) && ReadTables(defs, map[]) == Some(m) && ReadScan(scan) == Some(cs)
    ensures ReadHeader(Segments(quant, frame, defs, scan) + body, None, map[]) == Some((Header(f, m, cs), body))
  {
    var a, b, c, d, e := SegmentBytes(0xE0, App0()), SegmentBytes(0xDB, quant), SegmentBytes(0xC0, frame),
                         SegmentBytes(0xC4, defs), SegmentBytes(0xDA, scan);
    Five(a, b, c, d, e, body);
    HeaderSkip(0xE0, App0(), b + (c + (d + (e + body))), None, map[]);
    HeaderSkip(0xDB, quant, c + (d + (e + body)), None, map[]);
    HeaderFrame(frame, d + (e + body), None, map[]);
    HeaderDefs(defs, e + body, Some(f), map[]);
    HeaderScan(scan, body, f, m);
  }

  // ----- data units

  /** A minimum coded unit: blocks of luminance, and one of each chrominance. */
  datatype Mcu = Mcu(ys: seq<seq<int>>, u: seq<int>, v: seq<int>)

  function YUnits(ys: seq<seq<int>>): (r: seq<Unit>)
    ensures |r| == |ys|
  {
    seq(|ys|, i requires 0 <= i < |ys| => Unit(Y, ys[i]))
  }

  /** Its data units in the order they are sent. */
  function UnitsOf(m: Mcu): seq<Unit>
  {
    YUnits(m.ys) + [Unit(U, m.u), Unit(V, m.v)]
  }

  function AllUnits(ms: seq<Mcu>): seq<Unit>
  {
    if |ms| == 0 then [] else AllUnits(ms[..|ms| - 1]) + UnitsOf(ms[|ms| - 1])
  }

  /** The component numbers of a coded unit with n blocks of luminance. */
  function Order(n: nat): (r: seq<nat>)
    ensures |r| == n + 2
  {
    seq(n, _ => 0) + [1, 2]
  }

  /** The order the sampling factors of the frame header stand for. */
  lemma OrderOfFrame(f: nat, comps: seq<FrameComp>)
    requires comps == [FrameComp(1, f, f), FrameComp(2, 1, 1), FrameComp(3, 1, 1)]
    ensures UnitOrder(comps) == Order(f * f)
  {
    assert comps[..2][..1][..0] == [];
    assert comps[..2][..1] == comps[..1] && comps[..1] == [FrameComp(1, f, f)];
    assert UnitOrder(comps[..1]) == seq(f * f, _ => 0);
    assert UnitOrder(comps[..2]) == UnitOrder(comps[..1]) + [1] by { assert seq(1, _ => 1) == [1]; }
    assert UnitOrder(comps) == UnitOrder(comps[..2]) + [2] by { assert seq(1, _ => 2) == [2]; }
  }

  lemma OrderOfUnit(m: Mcu, n: nat)
    requires |m.ys| == n
    ensures Comps(UnitsOf(m)) == Order(n)
  {
  }

  lemma CompsConcat(a: seq<Unit>, b: seq<Unit>)
    ensures Comps(a + b) == Comps(a) + Comps(b)
  {
  }

  /** Every coded unit has n blocks of luminance. */
  ghost predicate Sampled(ms: seq<Mcu>, n: nat)
  {
    forall i :: 0 <= i < |ms| ==> |ms[i].ys| == n
  }

  lemma {:induction false} OrderOfAll(ms: seq<Mcu>, n: nat)
    requires Sampled(ms, n)
    ensures Comps(AllUnits(ms)) == Times(Order(n), |ms|)
    decreases |ms|
  {
    if |ms| > 0 {
      var k := |ms| - 1;
      OrderOfAll(ms[..k], n);
      OrderOfUnit(ms[k], n);
      CompsConcat(AllUnits(ms[..k]), UnitsOf(ms[k]));
    }
  }

  // ----- the units of an image

  function Row(at: (nat, nat) -> Mcu, y: nat, step: nat, n: nat): (r: seq<Mcu>)
    ensures |r| == n
  {
    seq(n, j requires 0 <= j < n => at(y, j * step))
  }

  /** Coded units row by row; `at` gives the one whose upper left pixel is in row y and column x. */
  function Grid(at: (nat, nat) -> Mcu, step: nat, rows: nat, cols: nat): (r: seq<Mcu>)
    ensures |r| == cols * rows
  {
    if rows == 0 then [] else Grid(at, step, rows - 1, cols) + Row(at, (rows - 1) * step, step, cols)
  }

  function McuCount(width: nat, height: nat, f: nat): nat
    requires f > 0
  {
    Ceil(width, 8 * f) * Ceil(height, 8 * f)
  }

  function ImageUnits(at: (nat, nat) -> Mcu, width: nat, height: nat, f: nat): (r: seq<Mcu>)
    requires f > 0
    ensures |r| == McuCount(width, height, f)
  {
    Grid(at, 8 * f, Ceil(height, 8 * f), Ceil(width, 8 * f))
  }

  lemma CeilNext(n: nat, d: nat, k: nat)
    requires d > 0
    ensures k * d < n <==> k < Ceil(n, d)
  {
    QuotientNext(n, d, k, Ceil(n, d), (n + d - 1) % d);
  }

  lemma QuotientNext(n: nat, d: nat, k: nat, q: nat, r: nat)
    requires q * d + r == n + d - 1 && r < d
    ensures k * d < n <==> k < q
  {
    if k < q {
      assert k * d <= (q - 1) * d;
    } else {
      assert k * d >= q * d;
    }
  }

  /** The loops over rows and columns visit them. */
  method Collect(at: (nat, nat) -> Mcu, width: nat, height: nat, f: nat) returns (r: seq<Mcu>)
    requires f > 0
    ensures r == ImageUnits(at, width, height, f)
  {
    r := [];
    var y := 0;
    ghost var i, step := 0, 8 * f;
    CeilNext(height, 8 * f, i);
    while y < height
      invariant y == i * step && i <= Ceil(height, step) && r == Grid(at, step, i, Ceil(width, step))
      invariant y < height <==> i < Ceil(height, step)
    {
      var row := CollectRow(at, width, y, f);
      CeilNext(height, step, i + 1);
      r := r + row;
      y := y + 8 * f;
      i := i + 1;
    }
  }

  method CollectRow(at: (nat, nat) -> Mcu, width: nat, y: nat, f: nat) returns (r: seq<Mcu>)
    requires f > 0
    ensures r == Row(at, y, 8 * f, Ceil(width, 8 * f))
  {
    r := [];
    var x := 0;
    ghost var j, step := 0, 8 * f;
    CeilNext(width, step, j);
    while x < width
      invariant x == j * step && j <= Ceil(width, step) && r == Row(at, y, step, j)
      invariant x < width <==> j < Ceil(width, step)
    {
      CeilNext(width, step, j + 1);
      r := r + [at(y, x)];
      x := x + 8 * f;
      j := j + 1;
    }
  }

  // ----- the header as the writer sends it

  method WriteTables(d0: Definition, d1: Definition, d2: Definition, d3: Definition) returns (out: seq<byte>)
    requires Writable(d0) && Writable(d1) && Writable(d2) && Writable(d3)
    ensures [0] + out == DefinitionsPayload(d0, d1, d2, d3)
  {
    out := ToBytes(d0.counts[1..]) + ToBytes(d0.values);
    out := out + [0x10] + ToBytes(d1.counts[1..]) + ToBytes(d1.values);
    out := out + [1] + ToBytes(d2.counts[1..]) + ToBytes(d2.values);
    out := out + [0x11] + ToBytes(d3.counts[1..]) + ToBytes(d3.values);
    DefinitionsConcat(ToBytes(d0.counts[1..]), ToBytes(d0.values), ToBytes(d1.counts[1..]), ToBytes(d1.values),
                      ToBytes(d2.counts[1..]), ToBytes(d2.values), ToBytes(d3.counts[1..]), ToBytes(d3.values));
  }

  lemma DefinitionsConcat(c0: seq<byte>, v0: seq<byte>, c1: seq<byte>, v1: seq<byte>,
                          c2: seq<byte>, v2: seq<byte>, c3: seq<byte>, v3: seq<byte>)
    ensures [0] + (c0 + v0 + [0x10] + c1 + v1 + [1] + c2 + v2 + [0x11] + c3 + v3)
              == [0] + c0 + v0 + ([0x10] + c1 + v1 + ([1] + c2 + v2 + ([0x11] + c3 + v3)))
  {
  }

  /** Everything in front of the scan. */
  method WriteHeader(width: nat, height: nat, subsample: bool, yTable: seq<byte>, uvTable: seq<byte>,
                     d0: Definition, d1: Definition, d2: Definition, d3: Definition) returns (out: seq<byte>)
    requires |yTable| == |uvTable| == 64 && Writable(d0) && Writable(d1) && Writable(d2) && Writable(d3)
    requires |d0.values| == |d2.values| == 12 && |d1.values| == |d3.values| == 162
    ensures out == [0xFF, 0xD8] + Segments([0] + yTable + [1] + uvTable, FramePayload(width, height, subsample),
                                           DefinitionsPayload(d0, d1, d2, d3), ScanPayload())
  {
    out := Head0();
    FirstSegments(yTable, uvTable, [0] + yTable + [1] + uvTable);
    out := out + yTable + [1] + uvTable;
    ghost var start := out;
    out := out + Head1(width, height, subsample);
    var tables := WriteTables(d0, d1, d2, d3);
    out := out + tables + Head2();
    LastSegments(tables, DefinitionsPayload(d0, d1, d2, d3), width, height, subsample);
    HeaderConcat([0xFF, 0xD8], SegmentBytes(0xE0, App0()), SegmentBytes(0xDB, [0] + yTable + [1] + uvTable),
                 SegmentBytes(0xC0, FramePayload(width, height, subsample)),
                 SegmentBytes(0xC4, DefinitionsPayload(d0, d1, d2, d3)), SegmentBytes(0xDA, ScanPayload()));
    Regroup(start, Head1(width, height, subsample), tables, Head2());
  }

  lemma Regroup(a: seq<byte>, b: seq<byte>, c: seq<byte>, d: seq<byte>)
    ensures a + b + c + d == a + (b + c + d)
  {
  }

  lemma HeaderConcat(soi: seq<byte>, a: seq<byte>, b: seq<byte>, c: seq<byte>, d: seq<byte>, e: seq<byte>)
    ensures (soi + a + b) + (c + d + e) == soi + (a + (b + (c + (d + e))))
  {
  }

  /** The first header array: up to the first quantization table. */
  function Head0(): seq<byte>
  {
    [0xFF, 0xD8, 0xFF, 0xE0, 0, 0x10, 0x4A, 0x46, 0x49, 0x46, 0, 1, 1, 0, 0, 1, 0, 1, 0, 0, 0xFF, 0xDB, 0, 0x84, 0]
  }

  lemma Head0Parts()
    ensures Head0() == [0xFF, 0xD8] + SegmentBytes(0xE0, App0()) + ([0xFF, 0xDB] + Word(132) + [0])
  {
    assert Word(132) == [0, 0x84] && Word(16) == [0, 0x10];
    assert SegmentBytes(0xE0, App0()) == [0xFF, 0xE0, 0, 0x10] + App0();
  }

  lemma SpliceTables(a: seq<byte>, m: seq<byte>, z: seq<byte>, y: seq<byte>, one: seq<byte>, uv: seq<byte>)
    ensures a + (m + z) + y + one + uv == a + (m + (z + y + one + uv))
  {
  }

  lemma FirstSegments(yTable: seq<byte>, uvTable: seq<byte>, quant: seq<byte>)
    requires |yTable| == |uvTable| == 64 && quant == [0] + yTable + [1] + uvTable
    ensures Head0() + yTable + [1] + uvTable == [0xFF, 0xD8] + SegmentBytes(0xE0, App0()) + SegmentBytes(0xDB, quant)
  {
    Head0Parts();
    SpliceTables([0xFF, 0xD8] + SegmentBytes(0xE0, App0()), [0xFF, 0xDB] + Word(132), [0], yTable, [1], uvTable);
  }

  /** The second header array: the frame segment and the start of the definitions. */
  function Head1(width: nat, height: nat, subsample: bool): seq<byte>
  {
    [0xFF, 0xC0, 0, 0x11, 8, height / 256 % 256, height % 256, width / 256 % 256, width % 256,
     3, 1, if subsample then 0x22 else 0x11, 0, 2, 0x11, 1, 3, 0x11, 1, 0xFF, 0xC4, 0x01, 0xA2, 0]
  }

  /** The third: the scan header. */
  function Head2(): seq<byte>
  {
    [0xFF, 0xDA, 0, 0xC, 3, 1, 0, 2, 0x11, 3, 0x11, 0, 0x3F, 0]
  }

  lemma Head1Parts(width: nat, height: nat, subsample: bool)
    ensures Head1(width, height, subsample)
              == SegmentBytes(0xC0, FramePayload(width, height, subsample)) + ([0xFF, 0xC4] + Word(418) + [0])
  {
    assert Word(418) == [0x01, 0xA2] && Word(17) == [0, 0x11];
  }

  lemma Head2Parts()
    ensures Head2() == SegmentBytes(0xDA, ScanPayload())
  {
    assert Word(12) == [0, 0xC];
  }

  lemma Splice(a: seq<byte>, m: seq<byte>, z: seq<byte>, t: seq<byte>, e: seq<byte>)
    ensures a + (m + z) + t + e == a + (m + (z + t)) + e
  {
  }

  lemma LastSegments(tables: seq<byte>, defs: seq<byte>, width: nat, height: nat, subsample: bool)
    requires |defs| == 416 && defs == [0] + tables
    ensures Head1(width, height, subsample) + tables + Head2()
              == SegmentBytes(0xC0, FramePayload(width, height, subsample)) + SegmentBytes(0xC4, defs)
                 + SegmentBytes(0xDA, ScanPayload())
  {
    Head1Parts(width, height, subsample);
    Head2Parts();
    Splice(SegmentBytes(0xC0, FramePayload(width, height, subsample)), [0xFF, 0xC4] + Word(418), [0], tables, Head2());
  }

  // ----- what a reader takes from the header

  function HeaderOf(width: nat, height: nat, f: nat, d0: Definition, d1: Definition, d2: Definition,
                    d3: Definition): Header
  {
    Header(FrameOf(width, height, f), map[0x00 := d0, 0x10 := d1, 0x01 := d2, 0x11 := d3],
           [ScanComp(1, 0, 0), ScanComp(2, 1, 1), ScanComp(3, 1, 1)])
  }

  /** The selectors of the scan header name, for each component, the array the writer uses. */
  lemma ListsOfHeader(h: Header, d0: Definition, d1: Definition, d2: Definition, d3: Definition, t: Tables)
    requires h.defs == map[0x00 := d0, 0x10 := d1, 0x01 := d2, 0x11 := d3] && |h.frame.comps| == 3
    requires h.frame.comps[0].id == 1 && h.frame.comps[1].id == 2 && h.frame.comps[2].id == 3
    requires h.scan == [ScanComp(1, 0, 0), ScanComp(2, 1, 1), ScanComp(3, 1, 1)]
    requires Defines(d0, t.ydc) && Defines(d1, t.yac) && Defines(d2, t.uvdc) && Defines(d3, t.uvac)
    ensures Complete(h) && DcList(h) == DcTables(t) && AcList(h) == AcTables(t)
  {
    assert Complete(h);
    assert DcOfScan(h, 0) == t.ydc && DcOfScan(h, 1) == t.uvdc && DcOfScan(h, 2) == t.uvdc;
    assert AcOfScan(h, 0) == t.yac && AcOfScan(h, 1) == t.uvac && AcOfScan(h, 2) == t.uvac;
  }

  lemma MaxOf(f: nat, comps: seq<FrameComp>)
    requires comps == [FrameComp(1, f, f), FrameComp(2, 1, 1), FrameComp(3, 1, 1)] && f > 0
    ensures MaxH(comps) == f && MaxV(comps) == f
  {
    var two, one := [FrameComp(2, 1, 1), FrameComp(3, 1, 1)], [FrameComp(3, 1, 1)];
    assert one[1..] == [] && MaxH(one) == 1 && MaxV(one) == 1;
    assert two[1..] == one && MaxH(two) == 1 && MaxV(two) == 1;
    assert comps[1..] == two;
  }

  lemma OrderOfScan(fr: Frame, width: nat, height: nat, f: nat)
    requires fr == FrameOf(width, height, f) && f > 0
    ensures ScanOrder(fr) == Times(Order(f * f), McuCount(width % 0x1_0000, height % 0x1_0000, f))
  {
    MaxOf(f, fr.comps);
    OrderOfFrame(f, fr.comps);
  }

  lemma {:induction false} DecodedLength(dcs: seq<Table>, acs: seq<Table>, comps: seq<nat>, bits: seq<bool>,
                                         preds: seq<int>)
    requires |dcs| == |acs| == |preds| && forall i :: 0 <= i < |comps| ==> comps[i] < |preds|
    ensures var r := DecodeScan(dcs, acs, comps, bits, preds); r.Some? ==> |r.value.0| == |comps|
    decreases |comps|
  {
    if |comps| > 0 {
      var k := comps[0];
      var b := DecodeBlock(dcs[k], acs[k], bits, preds[k]);
      if b.Some? && |b.value.0| > 0 {
        DecodedLength(dcs, acs, comps[1..], b.value.1, preds[k := b.value.0[0]]);
      }
    }
  }

  lemma {:induction false} TimesLength(order: seq<nat>, n: nat)
    ensures |Times(order, n)| == n * |order|
  {
    if n > 0 {
      TimesLength(order, n - 1);
    }
  }

  lemma CeilGrows(n: nat, m: nat, d: nat)
    requires d > 0 && n <= m
    ensures Ceil(n, d) <= Ceil(m, d) && (n + d <= m ==> Ceil(n, d) < Ceil(m, d))
  {
    CeilNext(n, d, Ceil(n, d));
    CeilNext(m, d, Ceil(n, d));
    if Ceil(n, d) > 0 {
      CeilNext(n, d, Ceil(n, d) - 1);
      CeilNext(m, d, Ceil(n, d) - 1);
      assert Ceil(n, d) * d == (Ceil(n, d) - 1) * d + d;
    }
  }

  /** Sixteen bits count the coded units of an image exactly if its dimensions fit them. */
  lemma CountIff(width: nat, height: nat, f: nat)
    requires (f == 1 || f == 2) && width > 0 && height > 0
    ensures (McuCount(width % 0x1_0000, height % 0x1_0000, f) == McuCount(width, height, f))
              == (width < 0x1_0000 && height < 0x1_0000)
  {
    CeilGrows(width % 0x1_0000, width, 8 * f);
    CeilGrows(height % 0x1_0000, height, 8 * f);
    CeilNext(width, 8 * f, 0);
    CeilNext(height, 8 * f, 0);
    ProductLess(Ceil(width % 0x1_0000, 8 * f), Ceil(width, 8 * f), Ceil(height % 0x1_0000, 8 * f), Ceil(height, 8 * f));
  }

  lemma ProductLess(a: nat, b: nat, c: nat, d: nat)
    requires a <= b && c <= d && b > 0 && d > 0
    ensures a * c == b * d <==> a == b && c == d
  {
    if a < b {
      assert a * c <= a * d < b * d;
    } else if c < d {
      assert a * c < a * d;
    }
  }

  // ----- the file

  /** The body decodes to the blocks of the coded units, with the writer's choices. */
  ghost predicate BodyReads(t: Tables, ms: seq<Mcu>, body: seq<byte>)
  {
    var r := Reading(t, AllUnits(ms), MsbBytes(Unstuff(body)), Preds(0, 0, 0));
    r.Some? && r.value.0 == Blocks(AllUnits(ms))
  }

  ghost function BlocksOf(h: Header, body: seq<byte>): Option<seq<seq<int>>>
    requires Complete(h)
  {
    var b := DecodeBody(h, body);
    if b.None? then None else Some(b.value.0)
  }

  /** The blocks a reader of the body gets, with the order the frame header stands for. */
  lemma {:induction false} BodyBack(h: Header, t: Tables, order: seq<nat>, n: nat, ms: seq<Mcu>, body: seq<byte>)
    requires Complete(h) && |h.scan| == |h.frame.comps| == 3 && DcList(h) == DcTables(t) && AcList(h) == AcTables(t)
    requires |order| > 0 && ScanOrder(h.frame) == Times(order, n) && Comps(AllUnits(ms)) == Times(order, |ms|)
    requires BodyReads(t, ms, body)
    ensures n == |ms| <==> BlocksOf(h, body) == Some(Blocks(AllUnits(ms)))
  {
    assert seq(|h.scan|, _ => 0) == Predictions(Preds(0, 0, 0));
    if n != |ms| {
      DecodedLength(DcList(h), AcList(h), ScanOrder(h.frame), MsbBytes(Unstuff(body)), seq(|h.scan|, _ => 0));
      TimesLength(order, n);
      TimesLength(order, |ms|);
      DifferentProduct(n, |ms|, |order|);
    }
  }

  lemma DifferentProduct(a: nat, b: nat, k: nat)
    requires a != b && k > 0
    ensures a * k != b * k
  {
  }

  /** Reading the header and the body of a file. */
  lemma {:induction false} FileBack(s: seq<byte>, head: seq<byte>, body: seq<byte>, h: Header)
    requires s == [0xFF, 0xD8] + head + body && ReadHeader(head + body, None, map[]) == Some((h, body)) && Complete(h)
    ensures DecodeFile(s) == BlocksOf(h, body)
  {
    assert s[2..] == head + body;
  }

  lemma {:induction false} HeaderBack(quant: seq<byte>, width: nat, height: nat, subsample: bool,
                   d0: Definition, d1: Definition, d2: Definition, d3: Definition, defs: seq<byte>, body: seq<byte>)
    requires Writable(d0) && Writable(d1) && Writable(d2) && Writable(d3)
    requires defs == DefinitionsPayload(d0, d1, d2, d3) && |defs| < 1000 && |quant| < 1000
    ensures ReadHeader(Segments(quant, FramePayload(width, height, subsample), defs, ScanPayload()) + body, None, map[])
              == Some((HeaderOf(width, height, Factor(subsample), d0, d1, d2, d3), body))
  {
    var h := HeaderOf(width, height, Factor(subsample), d0, d1, d2, d3);
    FrameBack(width, height, subsample, FramePayload(width, height, subsample));
    ScanSpecBack(ScanPayload());
    FourTables(DefinitionBytes(0x00, d0), DefinitionBytes(0x10, d1), DefinitionBytes(0x01, d2),
               DefinitionBytes(0x11, d3), d0, d1, d2, d3);
    SegmentsBack(quant, FramePayload(width, height, subsample), defs, ScanPayload(), body, h.frame, h.defs, h.scan);
  }

  /** Exactly the images of both dimensions in sixteen bits have as many units as the header says. */
  lemma {:induction false} ImageBack(h: Header, width: nat, height: nat, f: nat, ms: seq<Mcu>, t: Tables,
                                     body: seq<byte>)
    requires Complete(h) && |h.scan| == 3 && DcList(h) == DcTables(t) && AcList(h) == AcTables(t)
    requires h.frame == FrameOf(width, height, f) && (f == 1 || f == 2) && width > 0 && height > 0
    requires Sampled(ms, f * f) && |ms| == McuCount(width, height, f) && BodyReads(t, ms, body)
    ensures BlocksOf(h, body) == Some(Blocks(AllUnits(ms))) <==> width < 0x1_0000 && height < 0x1_0000
  {
    OrderOfScan(h.frame, width, height, f);
    OrderOfAll(ms, f * f);
    CountIff(width, height, f);
    BodyBack(h, t, Order(f * f), McuCount(width % 0x1_0000, height % 0x1_0000, f), ms, body);
  }

  lemma GridSampled(at: (nat, nat) -> Mcu, step: nat, rows: nat, cols: nat, n: nat)
    requires forall y, x :: |at(y, x).ys| == n
    ensures Sampled(Grid(at, step, rows, cols), n)
  {
  }

  /** The file of an image whose coded units are given by `at`: a reader that takes sampling, tables
      and their use from the file gets every block back exactly if both dimensions fit sixteen bits. */
  method WriteImage(width: nat, height: nat, subsample: bool, yTable: seq<byte>, uvTable: seq<byte>,
                    at: (nat, nat) -> Mcu) returns (out: seq<byte>)
    requires |yTable| == |uvTable| == 64 && forall y, x :: |at(y, x).ys| == Factor(subsample) * Factor(subsample)
    requires AllInRange(AllUnits(ImageUnits(at, width, height, Factor(subsample))), Preds(0, 0, 0))
    ensures width == 0 || height == 0 ==> out == []
    ensures width > 0 && height > 0 ==>
              (DecodeFile(out) == Some(Blocks(AllUnits(ImageUnits(at, width, height, Factor(subsample))))))
                == (width < 0x1_0000 && height < 0x1_0000)
  {
    if width == 0 || height == 0 {
      return [];
    }
    var f := Factor(subsample);
    var d0, d1 := Definition(YdcCounts(), YdcValues()), Definition(YacCounts(), YacValues());
    var d2, d3 := Definition(UvdcCounts(), UvdcValues()), Definition(UvacCounts(), UvacValues());
    var ms := Collect(at, width, height, f);
    GridSampled(at, 8 * f, Ceil(height, 8 * f), Ceil(width, 8 * f), f * f);
    out := WriteWith(width, height, subsample, yTable, uvTable, ms, d0, d1, d2, d3, WriterTables());
  }

  method WriteWith(width: nat, height: nat, subsample: bool, yTable: seq<byte>, uvTable: seq<byte>, ms: seq<Mcu>,
                   d0: Definition, d1: Definition, d2: Definition, d3: Definition, t: Tables) returns (out: seq<byte>)
    requires |yTable| == |uvTable| == 64 && width > 0 && height > 0
    requires AreDefinitions(d0, d1, d2, d3) && t == WriterTables() && AllInRange(AllUnits(ms), Preds(0, 0, 0))
    requires Sampled(ms, Factor(subsample) * Factor(subsample)) && |ms| == McuCount(width, height, Factor(subsample))
    ensures DecodeFile(out) == Some(Blocks(AllUnits(ms))) <==> width < 0x1_0000 && height < 0x1_0000
  {
    ArraysReady(d0, d1, d2, d3, t);
    ScanFitsIff(t, AllUnits(ms), Preds(0, 0, 0));
    out := WriteFile(width, height, subsample, yTable, uvTable, ms, d0, d1, d2, d3, t);
  }

  lemma ArraysReady(d0: Definition, d1: Definition, d2: Definition, d3: Definition, t: Tables)
    requires AreDefinitions(d0, d1, d2, d3) && t == WriterTables()
    ensures Writable(d0) && Writable(d1) && Writable(d2) && Writable(d3) && Usable(t)
    ensures |d0.values| == |d2.values| == 12 && |d1.values| == |d3.values| == 162
    ensures Defines(d0, t.ydc) && Defines(d1, t.yac) && Defines(d2, t.uvdc) && Defines(d3, t.uvac)
  {
    YdcWritable(d0);
    YacWritable(d1);
    UvdcWritable(d2);
    UvacWritable(d3);
    TablesAgree(d0, d1, d2, d3, t);
  }

  method WriteFile(width: nat, height: nat, subsample: bool, yTable: seq<byte>, uvTable: seq<byte>, ms: seq<Mcu>,
                   d0: Definition, d1: Definition, d2: Definition, d3: Definition, t: Tables) returns (out: seq<byte>)
    requires |yTable| == |uvTable| == 64 && width > 0 && height > 0 && Usable(t)
    requires Writable(d0) && Writable(d1) && Writable(d2) && Writable(d3)
    requires |d0.values| == |d2.values| == 12 && |d1.values| == |d3.values| == 162
    requires Defines(d0, t.ydc) && Defines(d1, t.yac) && Defines(d2, t.uvdc) && Defines(d3, t.uvac)
    requires Sampled(ms, Factor(subsample) * Factor(subsample)) && |ms| == McuCount(width, height, Factor(subsample))
    requires ScanFits(t, AllUnits(ms), Preds(0, 0, 0))
    ensures DecodeFile(out) == Some(Blocks(AllUnits(ms))) <==> width < 0x1_0000 && height < 0x1_0000
  {
    var head := WriteHeader(width, height, subsample, yTable, uvTable, d0, d1, d2, d3);
    var body := WriteScan(t, AllUnits(ms));
    out := head + body;
    ghost var h := HeaderOf(width, height, Factor(subsample), d0, d1, d2, d3);
    ListsOfHeader(h, d0, d1, d2, d3, t);
    ImageBack(h, width, height, Factor(subsample), ms, t, body);
    HeaderBack([0] + yTable + [1] + uvTable, width, height, subsample, d0, d1, d2, d3,
               DefinitionsPayload(d0, d1, d2, d3), body);
    FileBack(out, head[2..], body, h);
  }
}

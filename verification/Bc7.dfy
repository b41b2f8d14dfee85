/** BC7 blocks: where each field lies, that fields never overlap, and that the index streams end
    exactly at the last bit in every mode and partition. */
module Bc7 {
  import opened Bits
  import opened BcTables
  import opened Bc6hRegister

  datatype Bitfield = Bitfield(offset: nat, count: nat)

  function End(f: Bitfield): nat
  {
    f.offset + f.count
  }

  function Then(f: Bitfield, bits: nat): Bitfield
  {
    Bitfield(End(f), bits)
  }

  /** Number of subsets, and widths of partition, rotation, index selection, colour, alpha, p-bits
      and indices. */
  datatype Mode = Mode(idx: nat, ns: nat, pb: nat, rb: nat, isb: nat, cb: nat, ab: nat, epb: nat, spb: nat, ib: nat,
      ibc: nat, ib2: nat)

  function ModeOf(k: nat): Mode
    requires k < 8
  {
    match k
    case 0 => Mode(0, 3, 4, 0, 0, 4, 0, 1, 0, 3, 45, 0)
    case 1 => Mode(1, 2, 6, 0, 0, 6, 0, 0, 1, 3, 46, 0)
    case 2 => Mode(2, 3, 6, 0, 0, 5, 0, 0, 0, 2, 29, 0)
    case 3 => Mode(3, 2, 6, 0, 0, 7, 0, 1, 0, 2, 30, 0)
    case 4 => Mode(4, 1, 0, 2, 1, 5, 6, 0, 0, 2, 31, 3)
    case 5 => Mode(5, 1, 0, 2, 0, 7, 8, 0, 0, 2, 31, 2)
    case 6 => Mode(6, 1, 0, 0, 0, 7, 7, 1, 0, 4, 63, 0)
    case _ => Mode(7, 2, 6, 0, 0, 5, 5, 1, 0, 2, 30, 0)
  }

  function Colors(m: Mode): nat { 2 * m.ns }

  function Partition(m: Mode): Bitfield { Bitfield(m.idx + 1, m.pb) }

  function Rotation(m: Mode): Bitfield { Then(Partition(m), m.rb) }

  function IndexSelection(m: Mode): Bitfield { Then(Rotation(m), m.isb) }

  function Red(m: Mode, i: nat): Bitfield { Then(Then(IndexSelection(m), m.cb * i), m.cb) }

  function Green(m: Mode, i: nat): Bitfield
    requires m.ns > 0
  {
    Then(Then(Red(m, Colors(m) - 1), m.cb * i), m.cb)
  }

  function Blue(m: Mode, i: nat): Bitfield
    requires m.ns > 0
  {
    Then(Then(Green(m, Colors(m) - 1), m.cb * i), m.cb)
  }

  function Alpha(m: Mode, i: nat): Bitfield
    requires m.ns > 0
  {
    Then(Then(Blue(m, Colors(m) - 1), m.ab * i), m.ab)
  }

  function EndpointPBit(m: Mode, i: nat): Bitfield
    requires m.ns > 0
  {
    Then(Then(Alpha(m, Colors(m) - 1), m.epb * i), m.epb)
  }

  function SharedPBit0(m: Mode): Bitfield
    requires m.ns > 0
  {
    Then(EndpointPBit(m, Colors(m) - 1), m.spb)
  }

  function SharedPBit1(m: Mode): Bitfield
    requires m.ns > 0
  {
    Then(SharedPBit0(m), m.spb)
  }

  function PrimaryIndex(m: Mode, offset: nat, count: nat): Bitfield
    requires m.ns > 0
  {
    Then(Then(SharedPBit1(m), offset), count)
  }

  function SecondaryIndex(m: Mode, offset: nat, count: nat): Bitfield
    requires m.ns > 0
  {
    Then(Then(SharedPBit1(m), m.ibc + offset), count)
  }

  /** The layout of a mode by absolute positions: subsets, widths of the two kinds of index, and the
      first bits of partition, red, green, blue, alpha, p-bits and the two index streams. */
  datatype Layout = Layout(subsets: nat, index: nat, second: nat, partition: nat, red: nat, green: nat, blue: nat,
      alpha: nat, pbits: nat, primary: nat, secondary: nat)

  /** The eight layouts as the format lists them. */
  function StandardLayout(k: nat): Layout
    requires k < 8
  {
    match k
    case 0 => Layout(3, 3, 0, 1, 5, 29, 53, 77, 77, 83, 128)
    case 1 => Layout(2, 3, 0, 2, 8, 32, 56, 80, 80, 82, 128)
    case 2 => Layout(3, 2, 0, 3, 9, 39, 69, 99, 99, 99, 128)
    case 3 => Layout(2, 2, 0, 4, 10, 38, 66, 94, 94, 98, 128)
    case 4 => Layout(1, 2, 3, 5, 8, 18, 28, 38, 50, 50, 81)
    case 5 => Layout(1, 2, 2, 6, 8, 22, 36, 50, 66, 66, 97)
    case 6 => Layout(1, 4, 0, 7, 7, 21, 35, 49, 63, 65, 128)
    case _ => Layout(2, 2, 0, 8, 14, 34, 54, 74, 94, 98, 128)
  }

  predicate LaidOut(m: Mode, l: Layout)
  {
    && m.ns == l.subsets > 0 && m.ib == l.index && m.ib2 == l.second && Partition(m).offset == l.partition
    && Red(m, 0).offset == l.red && Green(m, 0).offset == l.green && Blue(m, 0).offset == l.blue
    && Alpha(m, 0).offset == l.alpha && EndpointPBit(m, 0).offset == l.pbits
    && PrimaryIndex(m, 0, 0).offset == l.primary && SecondaryIndex(m, 0, 0).offset == l.secondary
  }

  /** Where the fields of a mode start. */
  lemma Starts(m: Mode, n: nat)
    requires m.ns > 0 && n == Colors(m)
    ensures Red(m, 0).offset == m.idx + 1 + m.pb + m.rb + m.isb
    ensures Green(m, 0).offset == Red(m, 0).offset + m.cb * n
    ensures Blue(m, 0).offset == Green(m, 0).offset + m.cb * n
    ensures Alpha(m, 0).offset == Blue(m, 0).offset + m.cb * n
    ensures EndpointPBit(m, 0).offset == Alpha(m, 0).offset + m.ab * n
    ensures PrimaryIndex(m, 0, 0).offset == EndpointPBit(m, 0).offset + m.epb * n + 2 * m.spb
    ensures SecondaryIndex(m, 0, 0).offset == PrimaryIndex(m, 0, 0).offset + m.ibc
  {
    assert m.cb * (n - 1) + m.cb == m.cb * n;
    assert m.ab * (n - 1) + m.ab == m.ab * n;
    assert m.epb * (n - 1) + m.epb == m.epb * n;
  }

  /** The widths add up to the positions. */
  predicate AddsUp(m: Mode, l: Layout, n: nat)
  {
    && m.ns == l.subsets > 0 && m.ib == l.index && m.ib2 == l.second && l.partition == m.idx + 1 && n == 2 * m.ns
    && l.red == l.partition + m.pb + m.rb + m.isb && l.green == l.red + m.cb * n && l.blue == l.green + m.cb * n
    && l.alpha == l.blue + m.cb * n && l.pbits == l.alpha + m.ab * n
    && l.primary == l.pbits + m.epb * n + 2 * m.spb && l.secondary == l.primary + m.ibc
  }

  lemma AddedUp(m: Mode, l: Layout, n: nat)
    requires AddsUp(m, l, n)
    ensures LaidOut(m, l)
  {
    Starts(m, n);
  }

  /** The widths of the mode table put every field and each index stream where it belongs. */
  lemma ModesLaidOut(k: nat)
    requires k < 8
    ensures LaidOut(ModeOf(k), StandardLayout(k))
  {
    var n := 2 * StandardLayout(k).subsets;
    assert AddsUp(ModeOf(k), StandardLayout(k), n);
    AddedUp(ModeOf(k), StandardLayout(k), n);
  }

  // ----- reading a field

  /** Bits of the block from two 64-bit words. */
  function Get(low: nat, high: nat, f: Bitfield): nat
  {
    if End(f) <= 64 then LowBits(Shr(low, f.offset), f.count)
    else if f.offset >= 64 then LowBits(Shr(high, f.offset - 64), f.count)
    else LowBits(BitOr(Shr(low, f.offset), LowBits(Shl(high, 64 - f.offset), 64)), f.count)
  }

  lemma ShlLow(v: nat, n: nat, w: nat, i: nat)
    ensures BitAt(LowBits(Shl(v, n), w), i) == (i < w && i >= n && BitAt(v, i - n))
  {
    BitAtLow(Shl(v, n), w, i);
    BitAtShl(v, n, i);
  }

  /** One bit of the word a straddling field is cut from. */
  lemma StraddleBit(low: nat, high: nat, off: nat, i: nat)
    requires low < Pow2(64) && 0 < off < 64 && i < 64
    ensures BitAt(BitOr(Shr(low, off), LowBits(Shl(high, 64 - off), 64)), i) == if off + i < 64 then
              BitAt(low, off + i) else BitAt(high, off + i - 64)
  {
    BitAtOr(Shr(low, off), LowBits(Shl(high, 64 - off), 64), i);
    BitAtShr(low, off, i);
    ShlLow(high, 64 - off, 64, i);
    if off + i >= 64 {
      BitAtHigh(low, 64, off + i);
    }
  }

  lemma SliceIs(v: nat, n: nat, s: seq<bool>)
    requires |s| == n && forall i :: 0 <= i < n ==> BitAt(v, i) == s[i]
    ensures LowBits(v, n) == FromBits(s)
  {
    LowBitsValue(v, n);
    assert ToBits(v, n) == s;
  }

  lemma GetLow(low: nat, high: nat, f: Bitfield, s: seq<bool>)
    requires End(f) <= 64 && s == Word128(low, high)[f.offset..End(f)]
    ensures LowBits(Shr(low, f.offset), f.count) == FromBits(s)
  {
    forall i | 0 <= i < f.count ensures BitAt(Shr(low, f.offset), i) == s[i] { BitAtShr(low, f.offset, i); }
    SliceIs(Shr(low, f.offset), f.count, s);
  }

  lemma GetHigh(low: nat, high: nat, f: Bitfield, s: seq<bool>)
    requires 64 <= f.offset <= End(f) <= 128 && s == Word128(low, high)[f.offset..End(f)]
    ensures LowBits(Shr(high, f.offset - 64), f.count) == FromBits(s)
  {
    forall i | 0 <= i < f.count ensures BitAt(Shr(high, f.offset - 64), i) == s[i] { BitAtShr(high, f.offset - 64, i); }
    SliceIs(Shr(high, f.offset - 64), f.count, s);
  }

  lemma GetStraddling(low: nat, high: nat, f: Bitfield, s: seq<bool>)
    requires low < Pow2(64) && f.offset < 64 < End(f) <= 128 && f.count <= 64
    requires s == Word128(low, high)[f.offset..End(f)]
    ensures LowBits(BitOr(Shr(low, f.offset), LowBits(Shl(high, 64 - f.offset), 64)), f.count) == FromBits(s)
  {
    var v := BitOr(Shr(low, f.offset), LowBits(Shl(high, 64 - f.offset), 64));
    forall i | 0 <= i < f.count ensures BitAt(v, i) == s[i] { StraddleBit(low, high, f.offset, i); }
    SliceIs(v, f.count, s);
  }

  /** Reading a field gives its bits of the 128, wherever it lies. */
  lemma GetMeans(low: nat, high: nat, f: Bitfield)
    requires low < Pow2(64) && high < Pow2(64) && End(f) <= 128 && f.count <= 64
    ensures Get(low, high, f) == FromBits(Word128(low, high)[f.offset..End(f)])
  {
    var s := Word128(low, high)[f.offset..End(f)];
    if End(f) <= 64 {
      GetLow(low, high, f, s);
    } else if f.offset >= 64 {
      GetHigh(low, high, f, s);
    } else {
      GetStraddling(low, high, f, s);
    }
  }

  // ----- header fields

  /** The fields a decoder reads before the indices. */
  datatype FieldId =
    | PartitionField | RotationField | SelectionField
    | RedField(i: nat) | GreenField(i: nat) | BlueField(i: nat) | AlphaField(i: nat)
    | PBitField(i: nat) | Shared0 | Shared1

  function FieldOf(m: Mode, id: FieldId): Bitfield
    requires m.ns > 0
  {
    match id
    case PartitionField => Partition(m)
    case RotationField => Rotation(m)
    case SelectionField => IndexSelection(m)
    case RedField(i) => Red(m, i)
    case GreenField(i) => Green(m, i)
    case BlueField(i) => Blue(m, i)
    case AlphaField(i) => Alpha(m, i)
    case PBitField(i) => EndpointPBit(m, i)
    case Shared0 => SharedPBit0(m)
    case Shared1 => SharedPBit1(m)
  }

  function Group(id: FieldId): (g: nat)
    ensures g < 10
  {
    match id
    case PartitionField => 0 case RotationField => 1 case SelectionField => 2
    case RedField(_) => 3 case GreenField(_) => 4 case BlueField(_) => 5 case AlphaField(_) => 6
    case PBitField(_) => 7 case Shared0 => 8 case Shared1 => 9
  }

  /** Number of a field in its group, the group's field width and number of fields. */
  function Number(id: FieldId): nat
  {
    if id.RedField? || id.GreenField? || id.BlueField? || id.AlphaField? || id.PBitField? then id.i else 0
  }

  function UnitWidth(m: Mode, g: nat): nat
  {
    if g == 0 then m.pb else if g == 1 then m.rb else if g == 2 then m.isb
    else if g <= 5 then m.cb else if g == 6 then m.ab else if g == 7 then m.epb else m.spb
  }

  function Units(m: Mode, g: nat): nat
  {
    if 3 <= g <= 7 then Colors(m) else 1
  }

  function GroupStart(m: Mode, g: nat): nat
    decreases m, g
  {
    if g == 0 then m.idx + 1 else GroupStart(m, g - 1) + UnitWidth(m, g - 1) * Units(m, g - 1)
  }

  lemma NextGroup(m: Mode, g: nat)
    ensures GroupStart(m, g + 1) == GroupStart(m, g) + UnitWidth(m, g) * Units(m, g)
  {
  }

  /** The last of n fields of width w after f ends n widths after it. */
  lemma LastEnd(f: Bitfield, w: nat, n: nat)
    requires n > 0
    ensures End(Then(Then(f, w * (n - 1)), w)) == End(f) + w * n
  {
    assert w * (n - 1) + w == w * n;
  }

  lemma RedEnds(m: Mode)
    requires m.ns > 0
    ensures End(IndexSelection(m)) == GroupStart(m, 3) && End(Red(m, Colors(m) - 1)) == GroupStart(m, 4)
  {
    assert GroupStart(m, 1) == End(Partition(m)) && GroupStart(m, 2) == End(Rotation(m));
    NextGroup(m, 2);
    LastEnd(IndexSelection(m), m.cb, Colors(m));
    NextGroup(m, 3);
  }

  lemma ColorEnds(m: Mode)
    requires m.ns > 0
    ensures End(IndexSelection(m)) == GroupStart(m, 3) && End(Red(m, Colors(m) - 1)) == GroupStart(m, 4)
    ensures End(Green(m, Colors(m) - 1)) == GroupStart(m, 5) && End(Blue(m, Colors(m) - 1)) == GroupStart(m, 6)
  {
    RedEnds(m);
    LastEnd(Red(m, Colors(m) - 1), m.cb, Colors(m));
    NextGroup(m, 4);
    LastEnd(Green(m, Colors(m) - 1), m.cb, Colors(m));
    NextGroup(m, 5);
  }

  lemma AfterBlue(m: Mode, blue: Bitfield, n: nat)
    requires n == Colors(m) > 0 && End(blue) == GroupStart(m, 6)
    ensures var alpha := Then(Then(blue, m.ab * (n - 1)), m.ab);
            var pbit := Then(Then(alpha, m.epb * (n - 1)), m.epb);
            var shared := Then(pbit, m.spb);
            && End(alpha) == GroupStart(m, 7) && End(pbit) == GroupStart(m, 8)
            && End(shared) == GroupStart(m, 9) && End(Then(shared, m.spb)) == GroupStart(m, 10)
  {
    var alpha := Then(Then(blue, m.ab * (n - 1)), m.ab);
    LastEnd(blue, m.ab, n);
    NextGroup(m, 6);
    LastEnd(alpha, m.epb, n);
    NextGroup(m, 7);
    NextGroup(m, 8);
    NextGroup(m, 9);
  }

  /** The last field of each group ends where the next group starts. */
  lemma GroupEnds(m: Mode)
    requires m.ns > 0
    ensures End(IndexSelection(m)) == GroupStart(m, 3) && End(Red(m, Colors(m) - 1)) == GroupStart(m, 4)
    ensures End(Green(m, Colors(m) - 1)) == GroupStart(m, 5) && End(Blue(m, Colors(m) - 1)) == GroupStart(m, 6)
    ensures End(Alpha(m, Colors(m) - 1)) == GroupStart(m, 7) && End(EndpointPBit(m, Colors(m) - 1)) == GroupStart(m, 8)
    ensures End(SharedPBit0(m)) == GroupStart(m, 9) && End(SharedPBit1(m)) == GroupStart(m, 10)
  {
    ColorEnds(m);
    AfterBlue(m, Blue(m, Colors(m) - 1), Colors(m));
  }

  predicate Placed(m: Mode, id: FieldId)
    requires m.ns > 0
  {
    && FieldOf(m, id).offset == GroupStart(m, Group(id)) + UnitWidth(m, Group(id)) * Number(id)
    && FieldOf(m, id).count == UnitWidth(m, Group(id))
  }

  lemma FrontPlace(m: Mode)
    requires m.ns > 0
    ensures Placed(m, PartitionField) && Placed(m, RotationField) && Placed(m, SelectionField)
  {
    NextGroup(m, 0);
    NextGroup(m, 1);
  }

  lemma SharedPlace(m: Mode)
    requires m.ns > 0
    ensures Placed(m, Shared0) && Placed(m, Shared1)
  {
    GroupEnds(m);
  }

  lemma ColorPlace(m: Mode, i: nat)
    requires m.ns > 0
    ensures Placed(m, RedField(i)) && Placed(m, GreenField(i)) && Placed(m, BlueField(i))
  {
    GroupEnds(m);
  }

  lemma AlphaPlace(m: Mode, i: nat)
    requires m.ns > 0
    ensures Placed(m, AlphaField(i)) && Placed(m, PBitField(i))
  {
    GroupEnds(m);
  }

  /** Each field lies at its number inside its group. */
  lemma FieldPlace(m: Mode, id: FieldId)
    requires m.ns > 0
    ensures Placed(m, id)
  {
    match id
    case RedField(i) => ColorPlace(m, i);
    case GreenField(i) => ColorPlace(m, i);
    case BlueField(i) => ColorPlace(m, i);
    case AlphaField(i) => AlphaPlace(m, i);
    case PBitField(i) => AlphaPlace(m, i);
    case Shared0 => SharedPlace(m);
    case Shared1 => SharedPlace(m);
    case _ => FrontPlace(m);
  }

  lemma {:induction false} GroupsAscend(m: Mode, g: nat, h: nat)
    requires g < h
    ensures GroupStart(m, g) + UnitWidth(m, g) * Units(m, g) <= GroupStart(m, h)
    decreases h
  {
    NextGroup(m, h - 1);
    if g < h - 1 {
      GroupsAscend(m, g, h - 1);
      assert UnitWidth(m, h - 1) * Units(m, h - 1) >= 0;
    }
  }

  lemma UnitsAscend(w: nat, i: nat, j: nat)
    requires i < j
    ensures w * i + w <= w * j
  {
    var d := j - i - 1;
    assert w * d >= 0;
    assert w * (i + 1 + d) == w * i + w + w * d;
  }

  /** No two header fields share a bit, and all lie between the mode number and the indices. */
  lemma FieldsApart(m: Mode, a: FieldId, b: FieldId)
    requires m.ns > 0 && a != b && Number(a) < Units(m, Group(a)) && Number(b) < Units(m, Group(b))
    ensures End(FieldOf(m, a)) <= FieldOf(m, b).offset || End(FieldOf(m, b)) <= FieldOf(m, a).offset
    ensures m.idx < FieldOf(m, a).offset && End(FieldOf(m, a)) <= GroupStart(m, 10)
  {
    FieldInGroup(m, a);
    FieldInGroup(m, b);
    var g, h := Group(a), Group(b);
    if g < h {
      GroupsAscend(m, g, h);
    } else if h < g {
      GroupsAscend(m, h, g);
    } else {
      SameGroup(m, a, b);
    }
  }

  lemma FieldInGroup(m: Mode, a: FieldId)
    requires m.ns > 0 && Number(a) < Units(m, Group(a))
    ensures GroupStart(m, Group(a)) <= FieldOf(m, a).offset
    ensures End(FieldOf(m, a)) <= GroupStart(m, Group(a)) + UnitWidth(m, Group(a)) * Units(m, Group(a))
    ensures m.idx < FieldOf(m, a).offset && End(FieldOf(m, a)) <= GroupStart(m, 10)
  {
    var g := Group(a);
    FieldPlace(m, a);
    UnitsAscend(UnitWidth(m, g), Number(a), Units(m, g));
    GroupsAscend(m, g, 10);
    if g > 0 {
      GroupsAscend(m, 0, g);
    }
  }

  lemma SameGroup(m: Mode, a: FieldId, b: FieldId)
    requires m.ns > 0 && a != b && Group(a) == Group(b) && Number(a) < Units(m, Group(a))
    requires Number(b) < Units(m, Group(b))
    ensures End(FieldOf(m, a)) <= FieldOf(m, b).offset || End(FieldOf(m, b)) <= FieldOf(m, a).offset
  {
    var w := UnitWidth(m, Group(a));
    FieldPlace(m, a);
    FieldPlace(m, b);
    assert Number(a) != Number(b);
    if Number(a) < Number(b) {
      UnitsAscend(w, Number(a), Number(b));
    } else {
      UnitsAscend(w, Number(b), Number(a));
    }
  }

  // ----- anchors

  function SubsetIndex(m: Mode, p: nat, t: nat): (s: nat)
    requires p < 64 && t < 16
    ensures s < 3
  {
    if m.ns == 2 then Partition2(p)[t] else if m.ns == 3 then Partition3(p)[t] else 0
  }

  function AnchorIndex(m: Mode, p: nat, s: nat): nat
  {
    if s == 1 then if m.ns == 2 then Anchor2(p) else Anchor3a(p)
    else if s == 2 then Anchor3b(p)
    else 0
  }

  predicate IsAnchor(m: Mode, p: nat, t: nat)
    requires p < 64 && t < 16
  {
    AnchorIndex(m, p, SubsetIndex(m, p, t)) == t
  }

  /** The anchors of subsets 1 and 2, 16 for a subset there is not. */
  function Second(m: Mode, p: nat): (a: nat)
    ensures 0 < a <= 16
  {
    if m.ns == 2 then Anchor2(p) else if m.ns == 3 then Anchor3a(p) else 16
  }

  function Third(m: Mode, p: nat): (a: nat)
    ensures 0 < a <= 16
  {
    if m.ns == 3 then Anchor3b(p) else 16
  }

  /** Each subset has exactly one anchor. */
  lemma AnchorIff(m: Mode, p: nat, t: nat)
    requires 1 <= m.ns <= 3 && p < 64 && t < 16
    ensures IsAnchor(m, p, t) <==> t == 0 || t == Second(m, p) || t == Third(m, p)
    ensures m.ns == 3 ==> Second(m, p) != Third(m, p)
  {
  }

  // ----- index streams

  /** Offset of texel t in a stream of n-bit indices, one bit less for each anchor before it. */
  function StreamPos(n: nat, a: nat, b: nat, t: nat): nat
    requires n >= 2 && a > 0 && b > 0
  {
    n * t - (if t > 0 then 1 else 0) - (if a < t then 1 else 0) - if b < t then 1 else 0
  }

  lemma StreamStep(n: nat, a: nat, b: nat, t: nat)
    requires n >= 2 && a > 0 && b > 0 && (a != b || a > 15) && t < 16
    ensures StreamPos(n, a, b, t + 1) == StreamPos(n, a, b, t) + n - if t == 0 || t == a || t == b then 1 else 0
  {
    assert n * (t + 1) == n * t + n;
  }

  lemma {:induction false} StreamPosMono(n: nat, a: nat, b: nat, t: nat, u: nat)
    requires n >= 2 && a > 0 && b > 0 && (a != b || a > 15) && t <= u <= 16
    ensures StreamPos(n, a, b, t) <= StreamPos(n, a, b, u)
    decreases u
  {
    if t < u {
      StreamPosMono(n, a, b, t, u - 1);
      StreamStep(n, a, b, u - 1);
    }
  }

  function StreamBits(m: Mode, secondary: bool): nat
  {
    if secondary then m.ib2 else m.ib
  }

  function StreamField(m: Mode, secondary: bool, offset: nat, count: nat): Bitfield
    requires m.ns > 0
  {
    if secondary then SecondaryIndex(m, offset, count) else PrimaryIndex(m, offset, count)
  }

  /** Where texel t's index is read. */
  function TexelField(m: Mode, secondary: bool, a: nat, b: nat, t: nat): Bitfield
    requires m.ns > 0 && a > 0 && b > 0 && StreamBits(m, secondary) >= 2
  {
    var n := StreamBits(m, secondary);
    StreamField(m, secondary, StreamPos(n, a, b, t), n - if t == 0 || t == a || t == b then 1 else 0)
  }

  /** Header and streams: the primary indices begin where the header ends, the secondary ones where
      they end, and the last stream ends with the block. */
  predicate Filled(m: Mode)
  {
    && 1 <= m.ns <= 3 && 2 <= m.ib <= 4 && (m.ib2 == 0 || 2 <= m.ib2 <= 4) && (m.isb > 0 ==> m.ib2 > 0) && m.pb <= 6
    && m.ibc == 16 * m.ib - m.ns
    && GroupStart(m, 10) + m.ibc + (if m.ib2 > 0 then 16 * m.ib2 - m.ns else 0) == 128
  }

  /** Every mode fills the 128 bits. */
  lemma ModesFilled(k: nat)
    requires k < 8
    ensures Filled(ModeOf(k))
  {
    HeaderEnd(ModeOf(k));
  }

  lemma HeaderEnd(m: Mode)
    ensures GroupStart(m, 10) == m.idx + 1 + m.pb + m.rb + m.isb + 3 * (m.cb * Colors(m)) + m.ab * Colors(m)
              + m.epb * Colors(m) + 2 * m.spb
  {
    NextGroup(m, 0);
    NextGroup(m, 1);
    NextGroup(m, 2);
    NextGroup(m, 3);
    NextGroup(m, 4);
    NextGroup(m, 5);
    NextGroup(m, 6);
    NextGroup(m, 7);
    NextGroup(m, 8);
    NextGroup(m, 9);
  }

  function StreamStart(m: Mode, secondary: bool): nat
  {
    GroupStart(m, 10) + if secondary then m.ibc else 0
  }

  function StreamEnd(m: Mode, secondary: bool): nat
  {
    if secondary then 128 else GroupStart(m, 10) + m.ibc
  }

  /** The anchors of a partition: as many as there are subsets. */
  predicate Anchors(m: Mode, a: nat, b: nat)
  {
    0 < a <= 16 && 0 < b <= 16 && (m.ns >= 2 <==> a < 16) && (m.ns == 3 <==> b < 16) && (m.ns == 3 ==> a != b)
  }

  lemma AnchorsOf(m: Mode, p: nat)
    requires 1 <= m.ns <= 3 && p < 64
    ensures Anchors(m, Second(m, p), Third(m, p))
  {
    AnchorIff(m, p, 0);
  }

  /** Texels' fields follow each other without a gap, from the stream's start to its end. */
  lemma StreamTiles(m: Mode, secondary: bool, a: nat, b: nat, t: nat)
    requires Filled(m) && Anchors(m, a, b) && t < 16 && (secondary ==> m.ib2 > 0)
    ensures TexelField(m, secondary, a, b, t).offset == StreamStart(m, secondary)
              + StreamPos(StreamBits(m, secondary), a, b, t)
    ensures End(TexelField(m, secondary, a, b, t)) == StreamStart(m, secondary)
              + StreamPos(StreamBits(m, secondary), a, b, t + 1)
    ensures StreamStart(m, secondary) + StreamPos(StreamBits(m, secondary), a, b, 16) == StreamEnd(m, secondary) <= 128
  {
    GroupEnds(m);
    StreamStep(StreamBits(m, secondary), a, b, t);
  }

  lemma InsideStream(m: Mode, secondary: bool, a: nat, b: nat, t: nat)
    requires Filled(m) && Anchors(m, a, b) && t < 16 && (secondary ==> m.ib2 > 0)
    ensures End(TexelField(m, secondary, a, b, t)) <= StreamEnd(m, secondary) <= 128
    ensures TexelField(m, secondary, a, b, t).count <= 4
  {
    StreamTiles(m, secondary, a, b, t);
    StreamPosMono(StreamBits(m, secondary), a, b, t + 1, 16);
  }

  // ----- decoding the indices

  /** The mode is the number of zeros before the first one; eight zeros are reserved. */
  function BlockMode(low: nat, k: nat): (r: Option<nat>)
    requires k <= 8
    ensures r.Some? ==> k <= r.value < 8 && BitAt(low, r.value) && forall j :: k <= j < r.value ==> !BitAt(low, j)
    ensures r.None? ==> forall j :: k <= j < 8 ==> !BitAt(low, j)
    decreases 8 - k
  {
    if k == 8 then None else if BitAt(low, k) then Some(k) else BlockMode(low, k + 1)
  }

  function Selected(low: nat, high: nat, m: Mode): bool
  {
    Get(low, high, IndexSelection(m)) == 1
  }

  lemma GetFits(low: nat, high: nat, f: Bitfield)
    ensures Get(low, high, f) < Pow2(f.count)
  {
  }

  /** Only a mode with an index selection bit can select the secondary indices for colour. */
  lemma SelectedHasSecond(low: nat, high: nat, m: Mode)
    requires Filled(m) && Selected(low, high, m)
    ensures m.ib2 > 0
  {
    GetFits(low, high, IndexSelection(m));
    assert Pow2(0) == 1;
  }

  /** The bits of a field. */
  function FieldBits(low: nat, high: nat, f: Bitfield): nat
    requires End(f) <= 128
  {
    FromBits(Word128(low, high)[f.offset..End(f)])
  }

  lemma NextField(m: Mode, secondary: bool, a: nat, b: nat, t: nat, offset: nat, readBits: nat, f: Bitfield)
    requires Filled(m) && Anchors(m, a, b) && t < 16 && (secondary ==> m.ib2 > 0)
    requires offset == StreamPos(StreamBits(m, secondary), a, b, t)
    requires readBits == StreamBits(m, secondary) - (if t == 0 || t == a || t == b then 1 else 0)
    requires f == StreamField(m, secondary, offset, readBits)
    ensures f == TexelField(m, secondary, a, b, t) && End(f) <= 128 && f.count <= 4
    ensures offset + readBits == StreamPos(StreamBits(m, secondary), a, b, t + 1)
  {
    InsideStream(m, secondary, a, b, t);
    StreamStep(StreamBits(m, secondary), a, b, t);
  }

  /** Reading the next index of a stream. */
  method NextIndex(low: nat, high: nat, m: Mode, secondary: bool, isAnchor: bool, offset: nat, ghost a: nat,
                   ghost b: nat, ghost t: nat) returns (index: nat, next: nat)
    requires low < Pow2(64) && high < Pow2(64) && Filled(m) && Anchors(m, a, b) && t < 16 && (secondary ==> m.ib2 > 0)
    requires isAnchor == (t == 0 || t == a || t == b) && offset == StreamPos(StreamBits(m, secondary), a, b, t)
    ensures next == StreamPos(StreamBits(m, secondary), a, b, t + 1)
    ensures IndexRead(low, high, m, secondary, a, b, t, index)
  {
    var numBits := if secondary then m.ib2 else m.ib;
    var readBits := if isAnchor then numBits - 1 else numBits;
    var f := if secondary then SecondaryIndex(m, offset, readBits) else PrimaryIndex(m, offset, readBits);
    NextField(m, secondary, a, b, t, offset, readBits, f);
    GetMeans(low, high, f);
    index := Get(low, high, f);
    next := offset + readBits;
  }

  /** All sixteen indices of texels in these streams. */
  ghost predicate IndicesRead(low: nat, high: nat, m: Mode, secondary: bool, a: nat, b: nat, idx: seq<nat>)
    requires Filled(m) && Anchors(m, a, b) && (secondary ==> m.ib2 > 0) && |idx| <= 16
  {
    forall t :: 0 <= t < |idx| ==> IndexRead(low, high, m, secondary, a, b, t, idx[t])
  }

  /** x is the index of texel t. */
  ghost predicate IndexRead(low: nat, high: nat, m: Mode, secondary: bool, a: nat, b: nat, t: nat, x: nat)
    requires Filled(m) && Anchors(m, a, b) && (secondary ==> m.ib2 > 0) && t < 16
  {
    End(TexelField(m, secondary, a, b, t)) <= 128 && x == FieldBits(low, high, TexelField(m, secondary, a, b, t))
  }

  lemma ReadMore(low: nat, high: nat, m: Mode, secondary: bool, a: nat, b: nat, idx: seq<nat>, x: nat)
    requires Filled(m) && Anchors(m, a, b) && (secondary ==> m.ib2 > 0) && |idx| < 16
    requires IndicesRead(low, high, m, secondary, a, b, idx)
    requires IndexRead(low, high, m, secondary, a, b, |idx|, x)
    ensures IndicesRead(low, high, m, secondary, a, b, idx + [x])
  {
  }

  /** Appends the next index of a stream. */
  method ReadNext(low: nat, high: nat, m: Mode, secondary: bool, isAnchor: bool, offset: nat, idx: seq<nat>,
                  ghost a: nat, ghost b: nat) returns (more: seq<nat>, next: nat)
    requires low < Pow2(64) && high < Pow2(64) && Filled(m) && Anchors(m, a, b) && (secondary ==> m.ib2 > 0)
    requires |idx| < 16 && IndicesRead(low, high, m, secondary, a, b, idx)
    requires isAnchor == (|idx| == 0 || |idx| == a || |idx| == b)
    requires offset == StreamPos(StreamBits(m, secondary), a, b, |idx|)
    ensures |more| == |idx| + 1 && IndicesRead(low, high, m, secondary, a, b, more)
    ensures next == StreamPos(StreamBits(m, secondary), a, b, |more|)
  {
    var x;
    x, next := NextIndex(low, high, m, secondary, isAnchor, offset, a, b, |idx|);
    ReadMore(low, high, m, secondary, a, b, idx, x);
    more := idx + [x];
  }

  method CheckAnchor(m: Mode, p: nat, t: nat) returns (isAnchor: bool)
    requires 1 <= m.ns <= 3 && p < 64 && t < 16
    ensures isAnchor == (t == 0 || t == Second(m, p) || t == Third(m, p))
  {
    AnchorIff(m, p, t);
    isAnchor := IsAnchor(m, p, t);
  }

  /** Colour indices come from the secondary stream if the selection bit is set, alpha indices from
      the secondary stream, if there is one, otherwise. */
  method ReadIndices(low: nat, high: nat, m: Mode, p: nat) returns (color: seq<nat>, alpha: seq<nat>)
    requires low < Pow2(64) && high < Pow2(64) && Filled(m) && p < 64
    ensures |color| == 16 && |alpha| == 16 && Anchors(m, Second(m, p), Third(m, p))
    ensures var c, a := Selected(low, high, m), m.ib2 > 0 && !Selected(low, high, m);
            && (c ==> m.ib2 > 0)
            && IndicesRead(low, high, m, c, Second(m, p), Third(m, p), color)
            && IndicesRead(low, high, m, a, Second(m, p), Third(m, p), alpha)
  {
    var selected := Selected(low, high, m);
    var c, a := selected, m.ib2 > 0 && !selected;
    if c {
      SelectedHasSecond(low, high, m);
    }
    AnchorsOf(m, p);
    color, alpha := [], [];
    var colorOffset, alphaOffset := 0, 0;
    for t := 0 to 16
      invariant |color| == t && |alpha| == t
      invariant colorOffset == StreamPos(StreamBits(m, c), Second(m, p), Third(m, p), t)
      invariant alphaOffset == StreamPos(StreamBits(m, a), Second(m, p), Third(m, p), t)
      invariant IndicesRead(low, high, m, c, Second(m, p), Third(m, p), color)
      invariant IndicesRead(low, high, m, a, Second(m, p), Third(m, p), alpha)
    {
      var isAnchor := CheckAnchor(m, p, t);
      color, colorOffset := ReadNext(low, high, m, c, isAnchor, colorOffset, color, Second(m, p), Third(m, p));
      alpha, alphaOffset := ReadNext(low, high, m, a, isAnchor, alphaOffset, alpha, Second(m, p), Third(m, p));
    }
  }
}

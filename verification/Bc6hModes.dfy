/** The fourteen legal BC6H modes: which endpoint bits each header field holds, and the proof that
    every endpoint bit is held exactly once and a block is exactly 128 bits long. */
module Bc6hModes {
  import opened Bits
  import opened Bc6hRegister

  datatype Channel = R | G | B

  datatype ModeDesc = ModeDesc(number: nat, hasDelta: bool, partitions: nat, endpointBits: nat, deltaR: nat,
      deltaG: nat, deltaB: nat)

  /** A bit field of the header: part of an endpoint's channel. The partition number is kept like
      a channel of a fifth endpoint. */
  datatype Field = Part(ep: nat, ch: Channel, msb: nat, lsb: nat)

  const PARTITION := 4

  /** The legal modes by table index. */
  function ModeOf(m: nat): ModeDesc
  {
    match m
    case 0 => ModeDesc(0, true, 2, 10, 5, 5, 5)
    case 1 => ModeDesc(1, true, 2, 7, 6, 6, 6)
    case 2 => ModeDesc(2, true, 2, 11, 5, 4, 4)
    case 3 => ModeDesc(3, false, 1, 10, 0, 0, 0)
    case 4 => ModeDesc(6, true, 2, 11, 4, 5, 4)
    case 5 => ModeDesc(7, true, 1, 11, 9, 9, 9)
    case 6 => ModeDesc(10, true, 2, 11, 4, 4, 5)
    case 7 => ModeDesc(11, true, 1, 12, 8, 8, 8)
    case 8 => ModeDesc(14, true, 2, 9, 5, 5, 5)
    case 9 => ModeDesc(15, true, 1, 16, 4, 4, 4)
    case 10 => ModeDesc(18, true, 2, 8, 6, 5, 5)
    case 11 => ModeDesc(22, true, 2, 8, 5, 6, 5)
    case 12 => ModeDesc(26, true, 2, 8, 5, 5, 6)
    case _ => ModeDesc(30, false, 2, 6, 0, 0, 0)
  }

  /** From mode number to table index; the other numbers are reserved. */
  function ModeToIndex(mode: nat): (r: Option<nat>)
    ensures r.Some? ==> r.value < 14 && ModeOf(r.value).number == mode
    ensures r.None? && mode < 32 ==> mode in [4, 5, 8, 9, 12, 13, 16, 17, 19, 20, 21, 23, 24, 25, 27, 28, 29, 31]
  {
    if mode <= 3 then Some(mode)
    else if mode / 2 % 2 == 1 then
      if mode <= 18 then Some(mode / 2 + 1 + mode % 2)
      else if mode == 22 || mode == 26 || mode == 30 then Some(mode / 4 + 6)
      else None
    else None
  }

  // ----- the header fields after the mode number, in stream order

  function Mode0(): (fs: seq<Field>)
    ensures |fs| <= 24
  {
    [Part(2, G, 4, 4), Part(2, B, 4, 4), Part(3, B, 4, 4), Part(0, R, 9, 0), Part(0, G, 9, 0), Part(0, B, 9, 0),
     Part(1, R, 4, 0), Part(3, G, 4, 4), Part(2, G, 3, 0), Part(1, G, 4, 0), Part(3, B, 0, 0), Part(3, G, 3, 0),
     Part(1, B, 4, 0), Part(3, B, 1, 1), Part(2, B, 3, 0), Part(2, R, 4, 0), Part(3, B, 2, 2), Part(3, R, 4, 0),
     Part(3, B, 3, 3), Part(PARTITION, R, 4, 0)]
  }

  function Mode1(): (fs: seq<Field>)
    ensures |fs| <= 24
  {
    [Part(2, G, 5, 5), Part(3, G, 5, 4), Part(0, R, 6, 0), Part(3, B, 1, 0), Part(2, B, 4, 4), Part(0, G, 6, 0),
     Part(2, B, 5, 5), Part(3, B, 2, 2), Part(2, G, 4, 4), Part(0, B, 6, 0), Part(3, B, 3, 3), Part(3, B, 5, 5),
     Part(3, B, 4, 4), Part(1, R, 5, 0), Part(2, G, 3, 0), Part(1, G, 5, 0), Part(3, G, 3, 0), Part(1, B, 5, 0),
     Part(2, B, 3, 0), Part(2, R, 5, 0), Part(3, R, 5, 0), Part(PARTITION, R, 4, 0)]
  }

  function Mode2(): (fs: seq<Field>)
    ensures |fs| <= 24
  {
    [Part(0, R, 9, 0), Part(0, G, 9, 0), Part(0, B, 9, 0), Part(1, R, 4, 0), Part(0, R, 10, 10), Part(2, G, 3, 0),
     Part(1, G, 3, 0), Part(0, G, 10, 10), Part(3, B, 0, 0), Part(3, G, 3, 0), Part(1, B, 3, 0), Part(0, B, 10, 10),
     Part(3, B, 1, 1), Part(2, B, 3, 0), Part(2, R, 4, 0), Part(3, B, 2, 2), Part(3, R, 4, 0), Part(3, B, 3, 3),
     Part(PARTITION, R, 4, 0)]
  }

  function Mode3(): (fs: seq<Field>)
    ensures |fs| <= 24
  {
    [Part(0, R, 9, 0), Part(0, G, 9, 0), Part(0, B, 9, 0), Part(1, R, 9, 0), Part(1, G, 9, 0), Part(1, B, 9, 0)]
  }

  function Mode4(): (fs: seq<Field>)
    ensures |fs| <= 24
  {
    [Part(0, R, 9, 0), Part(0, G, 9, 0), Part(0, B, 9, 0), Part(1, R, 3, 0), Part(0, R, 10, 10), Part(3, G, 4, 4),
     Part(2, G, 3, 0), Part(1, G, 4, 0), Part(0, G, 10, 10), Part(3, G, 3, 0), Part(1, B, 3, 0), Part(0, B, 10, 10),
     Part(3, B, 1, 1), Part(2, B, 3, 0), Part(2, R, 3, 0), Part(3, B, 0, 0), Part(3, B, 2, 2), Part(3, R, 3, 0),
     Part(2, G, 4, 4), Part(3, B, 3, 3), Part(PARTITION, R, 4, 0)]
  }

  function Mode5(): (fs: seq<Field>)
    ensures |fs| <= 24
  {
    [Part(0, R, 9, 0), Part(0, G, 9, 0), Part(0, B, 9, 0), Part(1, R, 8, 0), Part(0, R, 10, 10), Part(1, G, 8, 0),
     Part(0, G, 10, 10), Part(1, B, 8, 0), Part(0, B, 10, 10)]
  }

  function Mode6(): (fs: seq<Field>)
    ensures |fs| <= 24
  {
    [Part(0, R, 9, 0), Part(0, G, 9, 0), Part(0, B, 9, 0), Part(1, R, 3, 0), Part(0, R, 10, 10), Part(2, B, 4, 4),
     Part(2, G, 3, 0), Part(1, G, 3, 0), Part(0, G, 10, 10), Part(3, B, 0, 0), Part(3, G, 3, 0), Part(1, B, 4, 0),
     Part(0, B, 10, 10), Part(2, B, 3, 0), Part(2, R, 3, 0), Part(3, B, 1, 1), Part(3, B, 2, 2), Part(3, R, 3, 0),
     Part(3, B, 4, 4), Part(3, B, 3, 3), Part(PARTITION, R, 4, 0)]
  }

  function Mode7(): (fs: seq<Field>)
    ensures |fs| <= 24
  {
    [Part(0, R, 9, 0), Part(0, G, 9, 0), Part(0, B, 9, 0), Part(1, R, 7, 0), Part(0, R, 10, 11), Part(1, G, 7, 0),
     Part(0, G, 10, 11), Part(1, B, 7, 0), Part(0, B, 10, 11)]
  }

  function Mode8(): (fs: seq<Field>)
    ensures |fs| <= 24
  {
    [Part(0, R, 8, 0), Part(2, B, 4, 4), Part(0, G, 8, 0), Part(2, G, 4, 4), Part(0, B, 8, 0), Part(3, B, 4, 4),
     Part(1, R, 4, 0), Part(3, G, 4, 4), Part(2, G, 3, 0), Part(1, G, 4, 0), Part(3, B, 0, 0), Part(3, G, 3, 0),
     Part(1, B, 4, 0), Part(3, B, 1, 1), Part(2, B, 3, 0), Part(2, R, 4, 0), Part(3, B, 2, 2), Part(3, R, 4, 0),
     Part(3, B, 3, 3), Part(PARTITION, R, 4, 0)]
  }

  function Mode9(): (fs: seq<Field>)
    ensures |fs| <= 24
  {
    [Part(0, R, 9, 0), Part(0, G, 9, 0), Part(0, B, 9, 0), Part(1, R, 3, 0), Part(0, R, 10, 15), Part(1, G, 3, 0),
     Part(0, G, 10, 15), Part(1, B, 3, 0), Part(0, B, 10, 15)]
  }

  function Mode10(): (fs: seq<Field>)
    ensures |fs| <= 24
  {
    [Part(0, R, 7, 0), Part(3, G, 4, 4), Part(2, B, 4, 4), Part(0, G, 7, 0), Part(3, B, 2, 2), Part(2, G, 4, 4),
     Part(0, B, 7, 0), Part(3, B, 3, 3), Part(3, B, 4, 4), Part(1, R, 5, 0), Part(2, G, 3, 0), Part(1, G, 4, 0),
     Part(3, B, 0, 0), Part(3, G, 3, 0), Part(1, B, 4, 0), Part(3, B, 1, 1), Part(2, B, 3, 0), Part(2, R, 5, 0),
     Part(3, R, 5, 0), Part(PARTITION, R, 4, 0)]
  }

  function Mode11(): (fs: seq<Field>)
    ensures |fs| <= 24
  {
    [Part(0, R, 7, 0), Part(3, B, 0, 0), Part(2, B, 4, 4), Part(0, G, 7, 0), Part(2, G, 5, 5), Part(2, G, 4, 4),
     Part(0, B, 7, 0), Part(3, G, 5, 5), Part(3, B, 4, 4), Part(1, R, 4, 0), Part(3, G, 4, 4), Part(2, G, 3, 0),
     Part(1, G, 5, 0), Part(3, G, 3, 0), Part(1, B, 4, 0), Part(3, B, 1, 1), Part(2, B, 3, 0), Part(2, R, 4, 0),
     Part(3, B, 2, 2), Part(3, R, 4, 0), Part(3, B, 3, 3), Part(PARTITION, R, 4, 0)]
  }

  function Mode12(): (fs: seq<Field>)
    ensures |fs| <= 24
  {
    [Part(0, R, 7, 0), Part(3, B, 1, 1), Part(2, B, 4, 4), Part(0, G, 7, 0), Part(2, B, 5, 5), Part(2, G, 4, 4),
     Part(0, B, 7, 0), Part(3, B, 5, 5), Part(3, B, 4, 4), Part(1, R, 4, 0), Part(3, G, 4, 4), Part(2, G, 3, 0),
     Part(1, G, 4, 0), Part(3, B, 0, 0), Part(3, G, 3, 0), Part(1, B, 5, 0), Part(2, B, 3, 0), Part(2, R, 4, 0),
     Part(3, B, 2, 2), Part(3, R, 4, 0), Part(3, B, 3, 3), Part(PARTITION, R, 4, 0)]
  }

  function Mode13(): (fs: seq<Field>)
    ensures |fs| <= 24
  {
    [Part(0, R, 5, 0), Part(3, G, 4, 4), Part(3, B, 0, 0), Part(3, B, 1, 1), Part(2, B, 4, 4), Part(0, G, 5, 0),
     Part(2, G, 5, 5), Part(2, B, 5, 5), Part(3, B, 2, 2), Part(2, G, 4, 4), Part(0, B, 5, 0), Part(3, G, 5, 5),
     Part(3, B, 3, 3), Part(3, B, 5, 5), Part(3, B, 4, 4), Part(1, R, 5, 0), Part(2, G, 3, 0), Part(1, G, 5, 0),
     Part(3, G, 3, 0), Part(1, B, 5, 0), Part(2, B, 3, 0), Part(2, R, 5, 0), Part(3, R, 5, 0), Part(PARTITION, R, 4, 0)]
  }

  function FieldsOf(m: nat): (fs: seq<Field>)
    ensures |fs| <= 24
  {
    match m
    case 0 => Mode0()
    case 1 => Mode1()
    case 2 => Mode2()
    case 3 => Mode3()
    case 4 => Mode4()
    case 5 => Mode5()
    case 6 => Mode6()
    case 7 => Mode7()
    case 8 => Mode8()
    case 9 => Mode9()
    case 10 => Mode10()
    case 11 => Mode11()
    case 12 => Mode12()
    case _ => Mode13()
  }

  /** Stored bits of an endpoint's channel, base endpoints full and deltas short, and of the
      partition number. */
  function StoredBits(m: nat, ep: nat, ch: Channel): nat
  {
    var d := ModeOf(m);
    if ep == PARTITION then if ch == R && d.partitions == 2 then 5 else 0
    else if ep >= 2 * d.partitions then 0
    else if ep > 0 && d.hasDelta then if ch == R then d.deltaR else if ch == G then d.deltaG else d.deltaB
    else d.endpointBits
  }

  function Highest(msb: nat, lsb: nat): nat
  {
    if msb < lsb then lsb else msb
  }

  predicate Covers(f: Field, ep: nat, ch: Channel, b: nat)
  {
    f.ep == ep && f.ch == ch && Lowest(f.msb, f.lsb) <= b <= Highest(f.msb, f.lsb)
  }

  function FieldWidth(fs: seq<Field>, i: nat): nat
  {
    if i < |fs| then Width(fs[i].msb, fs[i].lsb) else 0
  }

  /** Where field n begins. */
  function Offset(fs: seq<Field>, n: nat): nat
    decreases fs, n
  {
    if n == 0 then 0 else Offset(fs, n - 1) + FieldWidth(fs, n - 1)
  }

  function One(fs: seq<Field>, i: nat, ep: nat, ch: Channel, b: nat): nat
  {
    if i < |fs| && Covers(fs[i], ep, ch, b) then 1 else 0
  }

  /** How many of the first n fields hold a bit. */
  function Count(fs: seq<Field>, n: nat, ep: nat, ch: Channel, b: nat): nat
    decreases fs, n
  {
    if n == 0 then 0 else Count(fs, n - 1, ep, ch, b) + One(fs, n - 1, ep, ch, b)
  }

  // ----- no header has more than 24 fields: six at a time

  function Six(fs: seq<Field>, i: nat, ep: nat, ch: Channel, b: nat): nat
  {
    One(fs, i, ep, ch, b) + One(fs, i + 1, ep, ch, b) + One(fs, i + 2, ep, ch, b)
    + One(fs, i + 3, ep, ch, b) + One(fs, i + 4, ep, ch, b) + One(fs, i + 5, ep, ch, b)
  }

  lemma CountSix(fs: seq<Field>, i: nat, ep: nat, ch: Channel, b: nat)
    ensures Count(fs, i + 6, ep, ch, b) == Count(fs, i, ep, ch, b) + Six(fs, i, ep, ch, b)
  {
    assert Count(fs, i + 2, ep, ch, b) == Count(fs, i, ep, ch, b) + One(fs, i, ep, ch, b) + One(fs, i + 1, ep, ch, b);
    assert Count(fs, i + 4, ep, ch, b) == Count(fs, i + 2, ep, ch, b) + One(fs, i + 2, ep, ch, b)
        + One(fs, i + 3, ep, ch, b);
  }

  function Held(fs: seq<Field>, ep: nat, ch: Channel, b: nat): nat
  {
    Six(fs, 0, ep, ch, b) + Six(fs, 6, ep, ch, b) + Six(fs, 12, ep, ch, b) + Six(fs, 18, ep, ch, b)
  }

  lemma CountAll(fs: seq<Field>, ep: nat, ch: Channel, b: nat)
    ensures Count(fs, 24, ep, ch, b) == Held(fs, ep, ch, b)
  {
    CountSix(fs, 0, ep, ch, b);
    CountSix(fs, 6, ep, ch, b);
    CountSix(fs, 12, ep, ch, b);
    CountSix(fs, 18, ep, ch, b);
  }

  function SixWidth(fs: seq<Field>, i: nat): nat
  {
    FieldWidth(fs, i) + FieldWidth(fs, i + 1) + FieldWidth(fs, i + 2) + FieldWidth(fs, i + 3) + FieldWidth(fs, i + 4)
        + FieldWidth(fs, i + 5)
  }

  lemma OffsetSix(fs: seq<Field>, i: nat)
    ensures Offset(fs, i + 6) == Offset(fs, i) + SixWidth(fs, i)
  {
    assert Offset(fs, i + 2) == Offset(fs, i) + FieldWidth(fs, i) + FieldWidth(fs, i + 1);
    assert Offset(fs, i + 4) == Offset(fs, i + 2) + FieldWidth(fs, i + 2) + FieldWidth(fs, i + 3);
  }

  function HeaderWidth(fs: seq<Field>): nat
  {
    SixWidth(fs, 0) + SixWidth(fs, 6) + SixWidth(fs, 12) + SixWidth(fs, 18)
  }

  lemma OffsetAll(fs: seq<Field>)
    ensures Offset(fs, 24) == HeaderWidth(fs)
  {
    OffsetSix(fs, 0);
    OffsetSix(fs, 6);
    OffsetSix(fs, 12);
    OffsetSix(fs, 18);
  }

  lemma {:induction false} NothingAfter(fs: seq<Field>, n: nat, ep: nat, ch: Channel, b: nat)
    requires |fs| <= n
    ensures Count(fs, n, ep, ch, b) == Count(fs, |fs|, ep, ch, b) && Offset(fs, n) == Offset(fs, |fs|)
    decreases n
  {
    if |fs| < n {
      NothingAfter(fs, n - 1, ep, ch, b);
    }
  }

  /** Width of the mode number. */
  function ModeWidth(m: nat): nat
  {
    if m < 2 then 2 else 5
  }

  /** Width of the sixteen indices: one bit less for the first index of each region. */
  function IndexWidth(m: nat): nat
  {
    if ModeOf(m).partitions == 1 then 16 * 4 - 1 else 16 * 3 - 2
  }

  /** The sums over 24 fields are the counts and the width of the whole header. */
  lemma WholeHeader(fs: seq<Field>, ep: nat, ch: Channel, b: nat)
    requires |fs| <= 24
    ensures Count(fs, |fs|, ep, ch, b) == Held(fs, ep, ch, b) && Offset(fs, |fs|) == HeaderWidth(fs)
  {
    CountAll(fs, ep, ch, b);
    OffsetAll(fs);
    NothingAfter(fs, 24, ep, ch, b);
  }

  predicate Exact(fs: seq<Field>, m: nat, ep: nat, ch: Channel, b: nat)
  {
    Held(fs, ep, ch, b) == if b < StoredBits(m, ep, ch) then 1 else 0
  }

  predicate Full(fs: seq<Field>, m: nat)
  {
    ModeWidth(m) + Offset(fs, |fs|) + IndexWidth(m) == 128
  }

  lemma Exact0(ep: nat, ch: Channel, b: nat)
    ensures Exact(Mode0(), 0, ep, ch, b)
  {
  }

  lemma Exact1(ep: nat, ch: Channel, b: nat)
    ensures Exact(Mode1(), 1, ep, ch, b)
  {
  }

  lemma Exact2(ep: nat, ch: Channel, b: nat)
    ensures Exact(Mode2(), 2, ep, ch, b)
  {
  }

  lemma Exact3(ep: nat, ch: Channel, b: nat)
    ensures Exact(Mode3(), 3, ep, ch, b)
  {
  }

  lemma Exact4(ep: nat, ch: Channel, b: nat)
    ensures Exact(Mode4(), 4, ep, ch, b)
  {
  }

  lemma Exact5(ep: nat, ch: Channel, b: nat)
    ensures Exact(Mode5(), 5, ep, ch, b)
  {
  }

  lemma Exact6(ep: nat, ch: Channel, b: nat)
    ensures Exact(Mode6(), 6, ep, ch, b)
  {
  }

  lemma Exact7(ep: nat, ch: Channel, b: nat)
    ensures Exact(Mode7(), 7, ep, ch, b)
  {
  }

  lemma Exact8(ep: nat, ch: Channel, b: nat)
    ensures Exact(Mode8(), 8, ep, ch, b)
  {
  }

  lemma Exact9(ep: nat, ch: Channel, b: nat)
    ensures Exact(Mode9(), 9, ep, ch, b)
  {
  }

  lemma Exact10(ep: nat, ch: Channel, b: nat)
    ensures Exact(Mode10(), 10, ep, ch, b)
  {
  }

  lemma Exact11(ep: nat, ch: Channel, b: nat)
    ensures Exact(Mode11(), 11, ep, ch, b)
  {
  }

  lemma Exact12(ep: nat, ch: Channel, b: nat)
    ensures Exact(Mode12(), 12, ep, ch, b)
  {
  }

  lemma Exact13(ep: nat, ch: Channel, b: nat)
    ensures Exact(Mode13(), 13, ep, ch, b)
  {
  }

  /** In every legal mode the header holds each stored endpoint bit exactly once and nothing else. */
  lemma HeldOnce(m: nat, ep: nat, ch: Channel, b: nat)
    requires m < 14
    ensures Exact(FieldsOf(m), m, ep, ch, b)
  {
    match m {
      case 0 => Exact0(ep, ch, b);
      case 1 => Exact1(ep, ch, b);
      case 2 => Exact2(ep, ch, b);
      case 3 => Exact3(ep, ch, b);
      case 4 => Exact4(ep, ch, b);
      case 5 => Exact5(ep, ch, b);
      case 6 => Exact6(ep, ch, b);
      case 7 => Exact7(ep, ch, b);
      case 8 => Exact8(ep, ch, b);
      case 9 => Exact9(ep, ch, b);
      case 10 => Exact10(ep, ch, b);
      case 11 => Exact11(ep, ch, b);
      case 12 => Exact12(ep, ch, b);
      case _ => Exact13(ep, ch, b);
    }
  }

  lemma FullIf(fs: seq<Field>, m: nat)
    requires |fs| <= 24 && ModeWidth(m) + HeaderWidth(fs) + IndexWidth(m) == 128
    ensures Full(fs, m)
  {
    WholeHeader(fs, 0, R, 0);
  }

  lemma Full0(fs: seq<Field>)
    requires fs == Mode0()
    ensures Full(fs, 0)
  {
    FullIf(fs, 0);
  }

  lemma Full1(fs: seq<Field>)
    requires fs == Mode1()
    ensures Full(fs, 1)
  {
    FullIf(fs, 1);
  }

  lemma Full2(fs: seq<Field>)
    requires fs == Mode2()
    ensures Full(fs, 2)
  {
    FullIf(fs, 2);
  }

  lemma Full3(fs: seq<Field>)
    requires fs == Mode3()
    ensures Full(fs, 3)
  {
    FullIf(fs, 3);
  }

  lemma Full4(fs: seq<Field>)
    requires fs == Mode4()
    ensures Full(fs, 4)
  {
    FullIf(fs, 4);
  }

  lemma Full5(fs: seq<Field>)
    requires fs == Mode5()
    ensures Full(fs, 5)
  {
    FullIf(fs, 5);
  }

  lemma Full6(fs: seq<Field>)
    requires fs == Mode6()
    ensures Full(fs, 6)
  {
    FullIf(fs, 6);
  }

  lemma Full7(fs: seq<Field>)
    requires fs == Mode7()
    ensures Full(fs, 7)
  {
    FullIf(fs, 7);
  }

  lemma Full8(fs: seq<Field>)
    requires fs == Mode8()
    ensures Full(fs, 8)
  {
    FullIf(fs, 8);
  }

  lemma Full9(fs: seq<Field>)
    requires fs == Mode9()
    ensures Full(fs, 9)
  {
    FullIf(fs, 9);
  }

  lemma Full10(fs: seq<Field>)
    requires fs == Mode10()
    ensures Full(fs, 10)
  {
    FullIf(fs, 10);
  }

  lemma Full11(fs: seq<Field>)
    requires fs == Mode11()
    ensures Full(fs, 11)
  {
    FullIf(fs, 11);
  }

  lemma Full12(fs: seq<Field>)
    requires fs == Mode12()
    ensures Full(fs, 12)
  {
    FullIf(fs, 12);
  }

  lemma Full13(fs: seq<Field>)
    requires fs == Mode13()
    ensures Full(fs, 13)
  {
    FullIf(fs, 13);
  }

  /** In every legal mode number, header and indices fill the 128 bits. */
  lemma BlockWidth(m: nat)
    requires m < 14
    ensures Full(FieldsOf(m), m)
  {
    var fs := FieldsOf(m);
    match m {
      case 0 => Full0(fs);
      case 1 => Full1(fs);
      case 2 => Full2(fs);
      case 3 => Full3(fs);
      case 4 => Full4(fs);
      case 5 => Full5(fs);
      case 6 => Full6(fs);
      case 7 => Full7(fs);
      case 8 => Full8(fs);
      case 9 => Full9(fs);
      case 10 => Full10(fs);
      case 11 => Full11(fs);
      case 12 => Full12(fs);
      case _ => Full13(fs);
    }
  }
}

/** Reading a BC6H header: every stored endpoint bit is one bit of the stream, each stream bit is
    used once. */
module Bc6hHeader {
  import opened Bits
  import opened Bc6hRegister
  import opened Bc6hModes

  // ----- single bits of a field

  lemma {:induction false} FromMsbFits(s: seq<bool>)
    ensures FromMsb(s) < Pow2(|s|)
  {
    if |s| > 0 {
      FromMsbFits(s[..|s| - 1]);
    }
  }

  lemma {:induction false} FromMsbBit(s: seq<bool>, k: nat)
    requires k < |s|
    ensures BitAt(FromMsb(s), k) == s[|s| - 1 - k]
    decreases |s|
  {
    var t, v := s[..|s| - 1], FromMsb(s);
    assert v / 2 == FromMsb(t) && v % 2 == Bit(s[|s| - 1]);
    if k > 0 {
      FromMsbBit(t, k - 1);
    }
  }

  lemma FromBitsBit(s: seq<bool>, k: nat)
    requires k < |s|
    ensures BitAt(FromBits(s), k) == s[k]
  {
    ToFromBits(s);
    assert ToBits(FromBits(s), |s|)[k] == s[k];
  }

  /** Place, inside the field, of bit b of the channel it belongs to. */
  function Place(f: Field, b: nat): (k: nat)
    requires Lowest(f.msb, f.lsb) <= b <= Highest(f.msb, f.lsb)
    ensures k < Width(f.msb, f.lsb)
  {
    if f.msb < f.lsb then f.lsb - b else b - f.lsb
  }

  lemma FieldBit(f: Field, s: seq<bool>, b: nat)
    requires |s| == Width(f.msb, f.lsb)
    ensures BitAt(Shl(FieldValue(s, f.msb, f.lsb), Lowest(f.msb, f.lsb)), b)
         == (Lowest(f.msb, f.lsb) <= b <= Highest(f.msb, f.lsb) && s[Place(f, b)])
  {
    var lo, v := Lowest(f.msb, f.lsb), FieldValue(s, f.msb, f.lsb);
    BitAtShl(v, lo, b);
    if b > Highest(f.msb, f.lsb) {
      FromMsbFits(s);
      ToFromBits(s);
      BitAtHigh(v, |s|, b - lo);
    } else if lo <= b {
      FromMsbBit(s, b - lo);
      FromBitsBit(s, b - lo);
    }
  }

  // ----- channels

  function Slice(bits: seq<bool>, fs: seq<Field>, i: nat): (s: seq<bool>)
    requires i < |fs| && Offset(fs, i + 1) <= |bits|
    ensures |s| == Width(fs[i].msb, fs[i].lsb)
  {
    bits[Offset(fs, i)..Offset(fs, i + 1)]
  }

  function Contribution(bits: seq<bool>, fs: seq<Field>, i: nat, ep: nat, ch: Channel): nat
    requires i < |fs| && Offset(fs, i + 1) <= |bits|
  {
    if fs[i].ep == ep && fs[i].ch == ch
    then Shl(FieldValue(Slice(bits, fs, i), fs[i].msb, fs[i].lsb), Lowest(fs[i].msb, fs[i].lsb))
    else 0
  }

  /** A channel after the first n fields have been or-ed in. */
  function ChannelValue(bits: seq<bool>, fs: seq<Field>, n: nat, ep: nat, ch: Channel): nat
    requires n <= |fs| && Offset(fs, n) <= |bits|
    decreases n
  {
    if n == 0 then 0 else BitOr(ChannelValue(bits, fs, n - 1, ep, ch), Contribution(bits, fs, n - 1, ep, ch))
  }

  /** Where in the stream a channel's bit is. */
  function Position(fs: seq<Field>, n: nat, ep: nat, ch: Channel, b: nat): nat
    requires n <= |fs|
    decreases n
  {
    if n == 0 then 0
    else if Covers(fs[n - 1], ep, ch, b) then Offset(fs, n - 1) + Place(fs[n - 1], b)
    else Position(fs, n - 1, ep, ch, b)
  }

  lemma {:induction false} PositionInside(fs: seq<Field>, n: nat, ep: nat, ch: Channel, b: nat)
    requires n <= |fs| && Count(fs, n, ep, ch, b) > 0
    ensures Position(fs, n, ep, ch, b) < Offset(fs, n)
    decreases n
  {
    if n > 0 && !Covers(fs[n - 1], ep, ch, b) {
      PositionInside(fs, n - 1, ep, ch, b);
    }
  }

  lemma ContributionBit(bits: seq<bool>, fs: seq<Field>, i: nat, ep: nat, ch: Channel, b: nat)
    requires i < |fs| && Offset(fs, i + 1) <= |bits|
    ensures BitAt(Contribution(bits, fs, i, ep, ch), b)
              == (Covers(fs[i], ep, ch, b) && Slice(bits, fs, i)[Place(fs[i], b)])
  {
    if fs[i].ep == ep && fs[i].ch == ch {
      FieldBit(fs[i], Slice(bits, fs, i), b);
    } else {
      BitAtZero(b);
    }
  }

  /** What one field more does to a bit of a channel. */
  lemma FieldAdds(bits: seq<bool>, fs: seq<Field>, i: nat, next: nat, ep: nat, ch: Channel, b: nat)
    requires next == i + 1 <= |fs| && Offset(fs, next) <= |bits|
    ensures Offset(fs, i) <= Offset(fs, next)
    ensures BitAt(ChannelValue(bits, fs, next, ep, ch), b) ==
            (BitAt(ChannelValue(bits, fs, i, ep, ch), b)
                || (Covers(fs[i], ep, ch, b) && Slice(bits, fs, i)[Place(fs[i], b)]))
  {
    ContributionBit(bits, fs, i, ep, ch, b);
    BitAtOr(ChannelValue(bits, fs, i, ep, ch), Contribution(bits, fs, i, ep, ch), b);
  }

  /** A bit no field holds is zero; a bit one field holds is that stream bit. */
  lemma {:induction false} ChannelBit(bits: seq<bool>, fs: seq<Field>, n: nat, ep: nat, ch: Channel, b: nat)
    requires n <= |fs| && Offset(fs, n) <= |bits|
    ensures Count(fs, n, ep, ch, b) == 0 ==> !BitAt(ChannelValue(bits, fs, n, ep, ch), b)
    ensures Count(fs, n, ep, ch, b) == 1 ==>
              Position(fs, n, ep, ch, b) < |bits|
                  && BitAt(ChannelValue(bits, fs, n, ep, ch), b) == bits[Position(fs, n, ep, ch, b)]
    decreases n
  {
    if n == 0 {
      BitAtZero(b);
    } else {
      ChannelBit(bits, fs, n - 1, ep, ch, b);
      FieldAdds(bits, fs, n - 1, n, ep, ch, b);
    }
  }

  /** Different endpoint bits come from different stream bits. */
  lemma {:induction false} PositionsDiffer(fs: seq<Field>, n: nat, ep: nat, ch: Channel, b: nat, ep': nat,
                                           ch': Channel, b': nat)
    requires n <= |fs| && Count(fs, n, ep, ch, b) > 0 && Count(fs, n, ep', ch', b') > 0 && (ep, ch, b) != (ep', ch', b')
    ensures Position(fs, n, ep, ch, b) != Position(fs, n, ep', ch', b')
    decreases n
  {
    if n > 0 {
      var c, c' := Covers(fs[n - 1], ep, ch, b), Covers(fs[n - 1], ep', ch', b');
      if !c {
        PositionInside(fs, n - 1, ep, ch, b);
      }
      if !c' {
        PositionInside(fs, n - 1, ep', ch', b');
      }
      if !c && !c' {
        PositionsDiffer(fs, n - 1, ep, ch, b, ep', ch', b');
      }
    }
  }

  // ----- the headers of the legal modes

  lemma {:induction false} CoveredCounts(fs: seq<Field>, n: nat, i: nat, ep: nat, ch: Channel, b: nat)
    requires i < n <= |fs| && Covers(fs[i], ep, ch, b)
    ensures Count(fs, n, ep, ch, b) > 0
    decreases n
  {
    if i < n - 1 {
      CoveredCounts(fs, n - 1, i, ep, ch, b);
    }
  }

  lemma StoredAtMost16(m: nat, ep: nat, ch: Channel)
    ensures StoredBits(m, ep, ch) <= 16 && (ep > PARTITION ==> StoredBits(m, ep, ch) == 0)
  {
  }

  lemma CountIs(fs: seq<Field>, m: nat, ep: nat, ch: Channel, b: nat)
    requires |fs| <= 24 && Exact(fs, m, ep, ch, b)
    ensures Count(fs, |fs|, ep, ch, b) == if b < StoredBits(m, ep, ch) then 1 else 0
  {
    WholeHeader(fs, ep, ch, b);
  }

  lemma StoredCount(fs: seq<Field>, m: nat, ep: nat, ch: Channel, b: nat)
    requires m < 14 && fs == FieldsOf(m)
    ensures Count(fs, |fs|, ep, ch, b) == if b < StoredBits(m, ep, ch) then 1 else 0
  {
    HeldOnce(m, ep, ch, b);
    CountIs(fs, m, ep, ch, b);
  }

  /** Every stored bit of a channel is a bit of the stream, the others are zero. */
  lemma HeaderBit(bits: seq<bool>, fs: seq<Field>, m: nat, ep: nat, ch: Channel, b: nat)
    requires m < 14 && fs == FieldsOf(m) && Offset(fs, |fs|) <= |bits|
    ensures b >= StoredBits(m, ep, ch) ==> !BitAt(ChannelValue(bits, fs, |fs|, ep, ch), b)
    ensures b < StoredBits(m, ep, ch) ==>
              Position(fs, |fs|, ep, ch, b) < |bits|
                  && BitAt(ChannelValue(bits, fs, |fs|, ep, ch), b) == bits[Position(fs, |fs|, ep, ch, b)]
  {
    StoredCount(fs, m, ep, ch, b);
    ChannelBit(bits, fs, |fs|, ep, ch, b);
  }

  /** No stream bit serves two stored bits. */
  lemma HeaderBitsDiffer(fs: seq<Field>, m: nat, ep: nat, ch: Channel, b: nat, ep': nat, ch': Channel, b': nat)
    requires m < 14 && fs == FieldsOf(m) && (ep, ch, b) != (ep', ch', b')
    requires b < StoredBits(m, ep, ch) && b' < StoredBits(m, ep', ch')
    ensures Position(fs, |fs|, ep, ch, b) != Position(fs, |fs|, ep', ch', b')
  {
    StoredCount(fs, m, ep, ch, b);
    StoredCount(fs, m, ep', ch', b');
    PositionsDiffer(fs, |fs|, ep, ch, b, ep', ch', b');
  }

  lemma {:induction false} SmallIfHighZero(v: nat, n: nat)
    requires forall b :: b >= n ==> !BitAt(v, b)
    ensures v < Pow2(n)
    decreases v, n
  {
    if v > 0 {
      forall b | b >= n - 1 && b >= 0 ensures !BitAt(v / 2, b) { assert !BitAt(v, b + 1); }
      if n == 0 {
        assert !BitAt(v, 0);
        SmallIfHighZero(v / 2, 0);
      } else {
        SmallIfHighZero(v / 2, n - 1);
      }
    }
  }

  /** A channel fits its stored width. */
  lemma ChannelFits(bits: seq<bool>, fs: seq<Field>, m: nat, ep: nat, ch: Channel, n: nat, v: nat)
    requires m < 14 && fs == FieldsOf(m) && Offset(fs, |fs|) <= |bits|
    requires n == StoredBits(m, ep, ch) && v == ChannelValue(bits, fs, |fs|, ep, ch)
    ensures v < Pow2(n)
  {
    forall b | b >= n
      ensures !BitAt(v, b)
    {
      HeaderBit(bits, fs, m, ep, ch, b);
    }
    SmallIfHighZero(v, n);
  }

  lemma FieldSane(fs: seq<Field>, m: nat, i: nat)
    requires m < 14 && fs == FieldsOf(m) && i < |fs|
    ensures fs[i].ep <= PARTITION && Width(fs[i].msb, fs[i].lsb) <= 16
  {
    var f := fs[i];
    var b := Highest(f.msb, f.lsb);
    StoredCount(fs, m, f.ep, f.ch, b);
    CoveredCounts(fs, |fs|, i, f.ep, f.ch, b);
    StoredAtMost16(m, f.ep, f.ch);
  }

  lemma {:induction false} OffsetMono(fs: seq<Field>, i: nat, n: nat)
    requires i <= n
    ensures Offset(fs, i) <= Offset(fs, n)
    decreases n
  {
    if i < n {
      OffsetMono(fs, i, n - 1);
    }
  }

  // ----- reading

  function Number(ch: Channel): (i: nat)
    ensures i < 3
  {
    match ch case R => 0 case G => 1 case B => 2
  }

  /** The channels hold what the first n fields put there. */
  ghost predicate HeaderRead(e: array2<nat>, bits: seq<bool>, fs: seq<Field>, n: nat)
    requires e.Length0 == 5 && e.Length1 == 3 && n <= |fs| && Offset(fs, n) <= |bits|
    reads e
  {
    forall ep, ch :: 0 <= ep <= PARTITION ==> e[ep, Number(ch)] == ChannelValue(bits, fs, n, ep, ch)
  }

  lemma ShiftTwice(bits: seq<bool>, n: nat, k: nat)
    requires n + k <= |bits|
    ensures (bits[n..] + Zeros(n))[k..] + Zeros(k) == bits[n + k..] + Zeros(n + k)
  {
  }

  lemma NothingRead(bits: seq<bool>, fs: seq<Field>, i: nat, ep: nat, ch: Channel)
    requires i < |fs| && Offset(fs, i + 1) <= |bits| && (fs[i].ep != ep || fs[i].ch != ch)
    ensures ChannelValue(bits, fs, i + 1, ep, ch) == ChannelValue(bits, fs, i, ep, ch)
  {
  }

  /** Puts field i into its channel. */
  method ReadField(data: Data, e: array2<nat>, fs: seq<Field>, i: nat, ghost bits: seq<bool>)
    requires data.Valid() && e.Length0 == 5 && e.Length1 == 3 && i < |fs| && |bits| == 128 && Offset(fs, i + 1) <= 128
    requires fs[i].ep <= PARTITION && Width(fs[i].msb, fs[i].lsb) <= 16
    requires data.Contents() == bits[Offset(fs, i)..] + Zeros(Offset(fs, i)) && HeaderRead(e, bits, fs, i)
    modifies data, e
    ensures data.Valid() && data.Contents() == bits[Offset(fs, i + 1)..] + Zeros(Offset(fs, i + 1))
    ensures HeaderRead(e, bits, fs, i + 1)
  {
    var f := fs[i];
    ShiftTwice(bits, Offset(fs, i), Width(f.msb, f.lsb));
    assert data.Contents()[..Width(f.msb, f.lsb)] == Slice(bits, fs, i);
    var r := data.ConsumeBits(f.msb, f.lsb);
    assert r == Contribution(bits, fs, i, f.ep, f.ch);
    forall ep, ch | 0 <= ep <= PARTITION && (f.ep != ep || f.ch != ch)
      ensures ChannelValue(bits, fs, i + 1, ep, ch) == ChannelValue(bits, fs, i, ep, ch)
    {
      NothingRead(bits, fs, i, ep, ch);
    }
    e[f.ep, Number(f.ch)] := BitOr(e[f.ep, Number(f.ch)], r);
  }

  predicate Sane(fs: seq<Field>)
  {
    forall i :: 0 <= i < |fs| ==> fs[i].ep <= PARTITION && Width(fs[i].msb, fs[i].lsb) <= 16
  }

  lemma HeaderSane(fs: seq<Field>, m: nat)
    requires m < 14 && fs == FieldsOf(m)
    ensures Sane(fs) && ModeWidth(m) + Offset(fs, |fs|) + IndexWidth(m) == 128
  {
    forall i | 0 <= i < |fs| ensures fs[i].ep <= PARTITION && Width(fs[i].msb, fs[i].lsb) <= 16 { FieldSane(fs, m, i); }
    BlockWidth(m);
  }

  /** Reads all fields: afterwards the register holds what follows them. */
  method ReadFields(data: Data, fs: seq<Field>) returns (e: array2<nat>)
    requires data.Valid() && Sane(fs) && Offset(fs, |fs|) <= 128
    modifies data
    ensures data.Valid() && fresh(e) && e.Length0 == 5 && e.Length1 == 3
    ensures data.Contents() == old(data.Contents())[Offset(fs, |fs|)..] + Zeros(Offset(fs, |fs|))
    ensures HeaderRead(e, old(data.Contents()), fs, |fs|)
  {
    ghost var bits := data.Contents();
    e := new nat[5, 3]((_, _) => 0);
    for i := 0 to |fs|
      invariant data.Valid() && Offset(fs, i) <= 128
      invariant data.Contents() == bits[Offset(fs, i)..] + Zeros(Offset(fs, i)) && HeaderRead(e, bits, fs, i)
    {
      OffsetMono(fs, i + 1, |fs|);
      ReadField(data, e, fs, i, bits);
    }
  }
}

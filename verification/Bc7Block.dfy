/** A whole BC7 block, read by its own mode and partition fields: which field each bit belongs
    to, and the indices a decoder takes from it. */
module Bc7Block {
  import opened Bits
  import opened Bc6hRegister
  import opened Bc7

  // ----- the owner of a bit

  /** The mode prefix, a header field, or the index of a texel in one of the streams. */
  datatype Owner = Prefix | Header(id: FieldId) | Index(secondary: bool, t: nat)

  predicate Within(f: Bitfield, i: nat)
  {
    f.offset <= i < End(f)
  }

  /** Bit i lies in the field of o; a and b are the anchors of subsets 1 and 2. */
  predicate Belongs(m: Mode, a: nat, b: nat, o: Owner, i: nat)
    requires Filled(m) && Anchors(m, a, b)
  {
    match o
    case Prefix => i <= m.idx
    case Header(id) => Number(id) < Units(m, Group(id)) && Within(FieldOf(m, id), i)
    case Index(secondary, t) => t < 16 && (secondary ==> m.ib2 > 0) && Within(TexelField(m, secondary, a, b, t), i)
  }

  /** Header fields lie after the prefix and before the indices. */
  lemma HeaderInside(m: Mode, id: FieldId, i: nat)
    requires m.ns > 0 && Number(id) < Units(m, Group(id)) && Within(FieldOf(m, id), i)
    ensures m.idx < i < GroupStart(m, 10)
  {
    FieldInGroup(m, id);
  }

  /** Index fields lie in their stream, and fields of different texels do not meet. */
  lemma IndexInside(m: Mode, a: nat, b: nat, secondary: bool, t: nat, i: nat)
    requires Filled(m) && Anchors(m, a, b) && t < 16 && (secondary ==> m.ib2 > 0)
    requires Within(TexelField(m, secondary, a, b, t), i)
    ensures StreamStart(m, secondary) <= i < StreamEnd(m, secondary)
  {
    StreamTiles(m, secondary, a, b, t);
    StreamPosMono(StreamBits(m, secondary), a, b, 0, t);
    InsideStream(m, secondary, a, b, t);
  }

  lemma IndexApart(m: Mode, a: nat, b: nat, secondary: bool, t: nat, u: nat)
    requires Filled(m) && Anchors(m, a, b) && t < u < 16 && (secondary ==> m.ib2 > 0)
    ensures End(TexelField(m, secondary, a, b, t)) <= TexelField(m, secondary, a, b, u).offset
  {
    StreamTiles(m, secondary, a, b, t);
    StreamTiles(m, secondary, a, b, u);
    StreamPosMono(StreamBits(m, secondary), a, b, t + 1, u);
  }

  lemma OneOwner(m: Mode, a: nat, b: nat, o: Owner, q: Owner, i: nat)
    requires Filled(m) && Anchors(m, a, b) && Belongs(m, a, b, o, i) && Belongs(m, a, b, q, i)
    ensures o == q
  {
    if o.Header? {
      HeaderInside(m, o.id, i);
    } else if o.Index? {
      IndexInside(m, a, b, o.secondary, o.t, i);
    }
    if q.Header? {
      HeaderInside(m, q.id, i);
    } else if q.Index? {
      IndexInside(m, a, b, q.secondary, q.t, i);
    }
    PrefixBefore(m);
    if o.Header? && q.Header? && o != q {
      FieldsApart(m, o.id, q.id);
    }
    if o.Index? && q.Index? && o != q {
      if o.t < q.t {
        IndexApart(m, a, b, o.secondary, o.t, q.t);
      } else {
        IndexApart(m, a, b, o.secondary, q.t, o.t);
      }
    }
  }

  lemma PrefixBefore(m: Mode)
    ensures m.idx < GroupStart(m, 10)
  {
    GroupsAscend(m, 0, 10);
  }

  // ----- every bit has one

  /** The group whose fields reach past bit i. */
  function GroupAt(m: Mode, g: nat, i: nat): (h: nat)
    requires g < 10 && GroupStart(m, g) <= i < GroupStart(m, 10)
    ensures h < 10 && GroupStart(m, h) <= i < GroupStart(m, h + 1)
    decreases 10 - g
  {
    if i < GroupStart(m, g + 1) then g
    else
      assert g != 9;
      GroupAt(m, g + 1, i)
  }

  function FieldAt(g: nat, n: nat): (id: FieldId)
    requires g < 10
    ensures Group(id) == g && (3 <= g <= 7 ==> Number(id) == n) && (g < 3 || g > 7 ==> Number(id) == 0)
  {
    match g
    case 0 => PartitionField case 1 => RotationField case 2 => SelectionField
    case 3 => RedField(n) case 4 => GreenField(n) case 5 => BlueField(n) case 6 => AlphaField(n)
    case 7 => PBitField(n) case 8 => Shared0 case _ => Shared1
  }

  lemma TimesOrdered(w: nat, q: nat, n: nat)
    ensures q >= n ==> w * q >= w * n
  {
    assert w * q - w * n == w * (q - n);
  }

  lemma DivideUnits(x: nat, w: nat, n: nat, q: nat)
    requires x < w * n && (w > 0 ==> q == x / w)
    ensures w > 0 && q < n && w * q <= x < w * q + w
  {
    assert w > 0;
    assert x == w * q + x % w;
    TimesOrdered(w, q, n);
  }

  /** Unit n of group g holds the bits from n widths after the group's start. */
  lemma UnitHolds(m: Mode, g: nat, n: nat, i: nat)
    requires m.ns > 0 && g < 10 && n < Units(m, g)
    requires var start := GroupStart(m, g) + UnitWidth(m, g) * n; start <= i < start + UnitWidth(m, g)
    ensures Number(FieldAt(g, n)) == n && Within(FieldOf(m, FieldAt(g, n)), i)
  {
    FieldPlace(m, FieldAt(g, n));
  }

  lemma HeaderOwner(m: Mode, i: nat) returns (id: FieldId)
    requires m.ns > 0 && m.idx < i < GroupStart(m, 10)
    ensures Number(id) < Units(m, Group(id)) && Within(FieldOf(m, id), i)
  {
    var g := GroupAt(m, 0, i);
    NextGroup(m, g);
    var w := UnitWidth(m, g);
    var n := if w > 0 then (i - GroupStart(m, g)) / w else 0;
    DivideUnits(i - GroupStart(m, g), w, Units(m, g), n);
    UnitHolds(m, g, n, i);
    id := FieldAt(g, n);
  }

  lemma {:induction false} TexelAt(m: Mode, a: nat, b: nat, secondary: bool, n: nat, i: nat) returns (t: nat)
    requires Filled(m) && Anchors(m, a, b) && (secondary ==> m.ib2 > 0) && n <= 16
    requires StreamStart(m, secondary) <= i < StreamStart(m, secondary) + StreamPos(StreamBits(m, secondary), a, b, n)
    ensures t < n && Within(TexelField(m, secondary, a, b, t), i)
  {
    StreamTiles(m, secondary, a, b, n - 1);
    if i < TexelField(m, secondary, a, b, n - 1).offset {
      t := TexelAt(m, a, b, secondary, n - 1, i);
    } else {
      t := n - 1;
    }
  }

  lemma HasOwner(m: Mode, a: nat, b: nat, i: nat) returns (o: Owner)
    requires Filled(m) && Anchors(m, a, b) && i < 128
    ensures Belongs(m, a, b, o, i)
  {
    if i <= m.idx {
      o := Prefix;
    } else if i < GroupStart(m, 10) {
      var id := HeaderOwner(m, i);
      o := Header(id);
    } else {
      var secondary := i >= GroupStart(m, 10) + m.ibc;
      StreamTiles(m, secondary, a, b, 0);
      var t := TexelAt(m, a, b, secondary, 16, i);
      o := Index(secondary, t);
    }
  }

  // ----- the block's own mode and partition

  function PartitionOf(low: nat, high: nat, m: Mode): (p: nat)
    requires Filled(m)
    ensures p < 64
  {
    GetFits(low, high, Partition(m));
    Pow2Mono(m.pb, 6);
    assert Pow2(6) == 64;
    Get(low, high, Partition(m))
  }

  /** Every bit of a block with a legal mode is in exactly one of the mode prefix, the header
      fields and the texels' index fields, which the block's own mode and partition place. */
  lemma EveryBitOnce(low: nat, high: nat, i: nat)
    requires BlockMode(low, 0).Some? && i < 128
    ensures var m := ModeOf(BlockMode(low, 0).value);
            && Filled(m)
            && var p := PartitionOf(low, high, m);
            && Anchors(m, Second(m, p), Third(m, p))
            && exists o :: Belongs(m, Second(m, p), Third(m, p), o, i) &&
                           forall q :: Belongs(m, Second(m, p), Third(m, p), q, i) ==> q == o
  {
    var k := BlockMode(low, 0).value;
    ModesFilled(k);
    var m := ModeOf(k);
    var p := PartitionOf(low, high, m);
    AnchorsOf(m, p);
    var o := HasOwner(m, Second(m, p), Third(m, p), i);
    forall q | Belongs(m, Second(m, p), Third(m, p), q, i)
      ensures q == o
    {
      OneOwner(m, Second(m, p), Third(m, p), o, q, i);
    }
  }

  /** The indices of a block: none for the reserved mode. */
  datatype Indices = Indices(color: seq<nat>, alpha: seq<nat>)

  method ReadBlock(low: nat, high: nat) returns (r: Option<Indices>)
    requires low < Pow2(64) && high < Pow2(64)
    ensures r.Some? <==> BlockMode(low, 0).Some?
    ensures r.Some? ==>
              var m := ModeOf(BlockMode(low, 0).value);
              && Filled(m) && |r.value.color| == 16 && |r.value.alpha| == 16
              && var p, c := PartitionOf(low, high, m), Selected(low, high, m);
              && Anchors(m, Second(m, p), Third(m, p)) && (c ==> m.ib2 > 0)
              && IndicesRead(low, high, m, c, Second(m, p), Third(m, p), r.value.color)
              && IndicesRead(low, high, m, m.ib2 > 0 && !c, Second(m, p), Third(m, p), r.value.alpha)
  {
    var k := BlockMode(low, 0);
    if k.None? {
      return None;
    }
    ModesFilled(k.value);
    var m := ModeOf(k.value);
    var color, alpha := ReadIndices(low, high, m, PartitionOf(low, high, m));
    r := Some(Indices(color, alpha));
  }
}

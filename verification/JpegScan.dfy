/** The JPEG writer's entropy-coded scan: data units written one after another through the
    stuffing bit buffer, and what a decoder reads from the bytes. */
module JpegScan {
  import opened Bits
  import opened JpegBits
  import opened JpegCode

  // ----- the items of a block, one run at a time

  lemma {:induction false} ItemsBitsConcat(ht: Table, xs: seq<Item>, ys: seq<Item>)
    requires AllFit(ht, xs) && AllFit(ht, ys)
    ensures AllFit(ht, xs + ys) && ItemsBits(ht, xs + ys) == ItemsBits(ht, xs) + ItemsBits(ht, ys)
    decreases |xs|
  {
    if |xs| == 0 {
      assert xs + ys == ys;
    } else {
      assert (xs + ys)[1..] == xs[1..] + ys;
      ItemsBitsConcat(ht, xs[1..], ys);
      ConcatAssoc(ItemBits(ht, xs[0]), ItemsBits(ht, xs[1..]), ItemsBits(ht, ys));
    }
  }

  lemma AllFitParts(ht: Table, xs: seq<Item>, ys: seq<Item>)
    requires AllFit(ht, xs + ys)
    ensures AllFit(ht, xs) && AllFit(ht, ys)
  {
    forall i | 0 <= i < |xs| ensures Fits(ht, xs[i]) {
      assert (xs + ys)[i] == xs[i];
    }
    forall i | 0 <= i < |ys| ensures Fits(ht, ys[i]) {
      assert (xs + ys)[|xs| + i] == ys[i];
    }
  }

  lemma OneItemBits(ht: Table, it: Item)
    requires Fits(ht, it)
    ensures AllFit(ht, [it]) && ItemsBits(ht, [it]) == ItemBits(ht, it)
  {
    assert [it][1..] == [];
  }

  // ----- writing a block

  /** Size class and magnitude bits, by shifting the magnitude out; the bits are kept in 16. */
  method CalcBits(val: int) returns (code: nat, len: nat)
    ensures val != 0 && Size(Abs(val)) <= 16 ==> (code, len) == Magnitude(val)
    ensures val == 0 ==> code == 0 && len == 1
  {
    var v := if val < 0 then val - 1 else val;
    len := CountDigits(Abs(val));
    if len <= 16 {
      Pow2Mono(len, 16);
      Pow2Word();
      LowBits(v, Pow2(len));
    }
    code := v % Pow2(len) % 0x1_0000;
  }

  /** Halves until nothing is left. */
  method CountDigits(v: nat) returns (len: nat)
    ensures len == if v == 0 then 1 else Size(v)
  {
    var tmp: nat := v / 2;
    len := 1;
    while tmp > 0
      invariant len >= 1 && (v > 0 ==> Size(v) == len + Size(tmp)) && (v == 0 ==> tmp == 0 && len == 1)
    {
      len, tmp := len + 1, tmp / 2;
    }
  }

  /** Masking to the bits below m adds m to a negative number; 16 bits are kept. */
  lemma LowBits(v: int, m: int)
    requires 0 < m <= 0x1_0000 && -m <= v < m
    ensures v % m % 0x1_0000 == if v < 0 then m + v else v
  {
    Wrap(v, m);
  }

  lemma Wrap(v: int, m: int)
    requires m > 0 && -m <= v < m
    ensures v % m == if v < 0 then m + v else v
  {
  }

  /** Sends the code of a symbol. */
  method WriteSymbol(w: Writer, ht: Table, s: nat)
    requires w.Valid() && WellFormed(ht) && s < 256
    modifies w
    ensures w.Valid() && w.Written() == old(w.Written()) + CodeBits(ht, s)
  {
    w.WriteBits(ht[s].0, ht[s].1);
  }

  /** Sends the DC difference. */
  method WriteDiff(w: Writer, ht: Table, diff: int)
    requires w.Valid() && WellFormed(ht) && DiffFits(ht, diff)
    modifies w
    ensures w.Valid() && w.Written() == old(w.Written()) + DiffBits(ht, diff)
  {
    if diff == 0 {
      WriteSymbol(w, ht, 0);
    } else {
      var code, len := CalcBits(diff);
      ConcatAssoc(w.Written(), CodeBits(ht, len), MsbBits(code, len));
      WriteSymbol(w, ht, len);
      w.WriteBits(code, len);
    }
  }

  /** Sends a value after fewer than sixteen zeros. */
  method WriteValue(w: Writer, ht: Table, run: nat, val: int)
    requires w.Valid() && WellFormed(ht) && Fits(ht, Value(run, val))
    modifies w
    ensures w.Valid() && w.Written() == old(w.Written()) + ItemBits(ht, Value(run, val))
  {
    var code, len := CalcBits(val);
    ConcatAssoc(w.Written(), CodeBits(ht, 16 * run + len), MsbBits(code, len));
    WriteSymbol(w, ht, 16 * run + len);
    w.WriteBits(code, len);
  }

  lemma ZrlsSnoc(ht: Table, n: nat)
    requires Fits(ht, Zrl)
    ensures AllFit(ht, Zrls(n)) && AllFit(ht, Zrls(n + 1))
    ensures ItemsBits(ht, Zrls(n + 1)) == ItemsBits(ht, Zrls(n)) + CodeBits(ht, 0xF0)
  {
    assert Zrls(n + 1) == Zrls(n) + [Zrl];
    OneItemBits(ht, Zrl);
    ItemsBitsConcat(ht, Zrls(n), [Zrl]);
    assert ItemBits(ht, Zrl) == CodeBits(ht, 0xF0);
  }

  /** Sends `lng` times the code for sixteen zeros. */
  method WriteZrls(w: Writer, ht: Table, lng: nat)
    requires w.Valid() && WellFormed(ht) && AllFit(ht, Zrls(lng))
    modifies w
    ensures w.Valid() && w.Written() == old(w.Written()) + ItemsBits(ht, Zrls(lng))
  {
    ghost var before := w.Written();
    var marker := 1;
    assert before + ItemsBits(ht, Zrls(0)) == before;
    while marker <= lng
      invariant 1 <= marker <= lng + 1 && w.Valid()
      invariant AllFit(ht, Zrls(marker - 1)) && w.Written() == before + ItemsBits(ht, Zrls(marker - 1))
    {
      assert Zrls(lng)[0] == Zrl;
      ZrlsSnoc(ht, marker - 1);
      ConcatAssoc(before, ItemsBits(ht, Zrls(marker - 1)), CodeBits(ht, 0xF0));
      WriteSymbol(w, ht, 0xF0);
      marker := marker + 1;
    }
  }

  /** Sends a run of zeros and the value that ends it. */
  method WriteRun(w: Writer, ht: Table, zeroes: nat, val: int)
    requires w.Valid() && WellFormed(ht) && AllFit(ht, RunItems(zeroes, val))
    modifies w
    ensures w.Valid() && w.Written() == old(w.Written()) + ItemsBits(ht, RunItems(zeroes, val))
  {
    ghost var last := Value(zeroes % 16, val);
    AllFitParts(ht, Zrls(zeroes / 16), [last]);
    assert [last][0] == last;
    OneItemBits(ht, last);
    ItemsBitsConcat(ht, Zrls(zeroes / 16), [last]);
    ConcatAssoc(w.Written(), ItemsBits(ht, Zrls(zeroes / 16)), ItemBits(ht, last));
    if zeroes >= 16 {
      WriteZrls(w, ht, zeroes / 16);
    } else {
      assert w.Written() + ItemsBits(ht, Zrls(0)) == w.Written();
    }
    WriteValue(w, ht, zeroes % 16, val);
  }

  // ----- the AC loop

  /** The last nonzero coefficient after the first, 0 if there is none. */
  method LastNonzero(zz: seq<int>) returns (end: nat)
    requires |zz| == 64
    ensures end < 64 && (end > 0 ==> zz[end] != 0) && forall i :: end < i < 64 ==> zz[i] == 0
  {
    end := 63;
    while end > 0 && zz[end] == 0
      invariant end < 64 && forall i :: end < i < 64 ==> zz[i] == 0
    {
      end := end - 1;
    }
  }

  /** Bits of the items from coefficient k on. */
  ghost function TailBits(ht: Table, zz: seq<int>, k: nat): seq<bool>
    requires 1 <= k <= |zz| == 64 && AllFit(ht, ItemsOf(zz, k))
  {
    ItemsBits(ht, ItemsOf(zz, k))
  }

  lemma NextIs(zz: seq<int>, k: nat, j: nat)
    requires k <= j <= |zz| == 64 && (forall i :: k <= i < j ==> zz[i] == 0) && (j < 64 ==> zz[j] != 0)
    ensures NextNonzero(zz, k) == j
  {
  }

  lemma TailRun(ht: Table, zz: seq<int>, k: nat, j: nat, run: seq<Item>, next: nat)
    requires 1 <= k <= j < |zz| == 64 && (forall i :: k <= i < j ==> zz[i] == 0) && zz[j] != 0
    requires AllFit(ht, ItemsOf(zz, k)) && run == RunItems(j - k, zz[j]) && next == j + 1
    ensures AllFit(ht, run) && AllFit(ht, ItemsOf(zz, next))
    ensures TailBits(ht, zz, k) == ItemsBits(ht, run) + TailBits(ht, zz, next)
  {
    NextIs(zz, k, j);
    AllFitParts(ht, run, ItemsOf(zz, next));
    ItemsBitsConcat(ht, run, ItemsOf(zz, next));
  }

  lemma TailEnd(ht: Table, zz: seq<int>, k: nat)
    requires 1 <= k <= |zz| == 64 && (forall i :: k <= i < 64 ==> zz[i] == 0)
    requires AllFit(ht, ItemsOf(zz, k))
    ensures k < 64 ==> Fits(ht, End)
    ensures TailBits(ht, zz, k) == if k < 64 then CodeBits(ht, 0) else []
  {
    NextIs(zz, k, 64);
    if k < 64 {
      assert ItemsOf(zz, k)[0] == End;
      OneItemBits(ht, End);
    }
  }

  /** Skips zeros up to the last nonzero coefficient. */
  method SkipZeros(zz: seq<int>, k: nat, end: nat) returns (j: nat)
    requires k <= end < |zz| && zz[end] != 0
    ensures k <= j <= end && zz[j] != 0 && forall i :: k <= i < j ==> zz[i] == 0
  {
    j := k;
    while j <= end && zz[j] == 0
      invariant k <= j <= end && forall i :: k <= i < j ==> zz[i] == 0
    {
      j := j + 1;
    }
  }

  /** Sends the next run; the answer is where the next one starts. */
  method WriteNext(w: Writer, ht: Table, zz: seq<int>, start: nat, end: nat) returns (i: nat)
    requires w.Valid() && WellFormed(ht) && 1 <= start <= end < |zz| == 64 && zz[end] != 0
    requires AllFit(ht, ItemsOf(zz, start))
    modifies w
    ensures w.Valid() && start < i <= end + 1 && AllFit(ht, ItemsOf(zz, i))
    ensures w.Written() + TailBits(ht, zz, i) == old(w.Written()) + TailBits(ht, zz, start)
  {
    var j := SkipZeros(zz, start, end);
    i := j + 1;
    ghost var run := RunItems(j - start, zz[j]);
    TailRun(ht, zz, start, j, run, i);
    ConcatAssoc(w.Written(), ItemsBits(ht, run), TailBits(ht, zz, i));
    WriteRun(w, ht, j - start, zz[j]);
  }

  /** Sends the nonzero coefficients up to `end`. */
  method WriteRuns(w: Writer, ht: Table, zz: seq<int>, end: nat)
    requires w.Valid() && WellFormed(ht) && 0 < end < |zz| == 64 && zz[end] != 0 && AllFit(ht, ItemsOf(zz, 1))
    modifies w
    ensures w.Valid() && AllFit(ht, ItemsOf(zz, end + 1))
    ensures w.Written() + TailBits(ht, zz, end + 1) == old(w.Written()) + TailBits(ht, zz, 1)
  {
    var i := 1;
    while i <= end
      invariant 1 <= i <= end + 1 && w.Valid() && AllFit(ht, ItemsOf(zz, i))
      invariant w.Written() + TailBits(ht, zz, i) == old(w.Written()) + TailBits(ht, zz, 1)
    {
      i := WriteNext(w, ht, zz, i, end);
    }
  }

  /** Sends all coefficients but the first. */
  method WriteAc(w: Writer, ht: Table, zz: seq<int>)
    requires w.Valid() && WellFormed(ht) && |zz| == 64 && AllFit(ht, ItemsOf(zz, 1))
    modifies w
    ensures w.Valid() && w.Written() == old(w.Written()) + TailBits(ht, zz, 1)
  {
    var end := LastNonzero(zz);
    if end == 0 {
      TailEnd(ht, zz, 1);
      WriteSymbol(w, ht, 0);
    } else {
      WriteRuns(w, ht, zz, end);
      TailEnd(ht, zz, end + 1);
      if end != 63 {
        WriteSymbol(w, ht, 0);
      } else {
        assert w.Written() + [] == w.Written();
      }
    }
  }

  /** One data unit; the answer is the next prediction. */
  method ProcessUnit(w: Writer, dc: Table, ac: Table, zz: seq<int>, pred: int) returns (next: int)
    requires w.Valid() && WellFormed(dc) && WellFormed(ac) && BlockFits(dc, ac, zz, pred)
    modifies w
    ensures w.Valid() && next == zz[0] && w.Written() == old(w.Written()) + BlockBits(dc, ac, zz, pred)
  {
    ConcatAssoc(w.Written(), DiffBits(dc, zz[0] - pred), TailBits(ac, zz, 1));
    WriteDiff(w, dc, zz[0] - pred);
    WriteAc(w, ac, zz);
    next := zz[0];
  }

  // ----- the whole scan

  datatype Tables = Tables(ydc: Table, yac: Table, uvdc: Table, uvac: Table)

  ghost predicate Usable(t: Tables)
  {
    WellFormed(t.ydc) && WellFormed(t.yac) && WellFormed(t.uvdc) && WellFormed(t.uvac)
    && PrefixFree(t.ydc) && PrefixFree(t.yac) && PrefixFree(t.uvdc) && PrefixFree(t.uvac)
  }

  /** The components: luminance and two chrominances, each with its own prediction. */
  datatype Comp = Y | U | V

  datatype Preds = Preds(y: int, u: int, v: int)

  function Pred(p: Preds, c: Comp): int
  {
    match c case Y => p.y case U => p.u case V => p.v
  }

  function Update(p: Preds, c: Comp, x: int): Preds
  {
    match c case Y => p.(y := x) case U => p.(u := x) case V => p.(v := x)
  }

  function DcOf(t: Tables, c: Comp): Table
  {
    if c.Y? then t.ydc else t.uvdc
  }

  function AcOf(t: Tables, c: Comp): Table
  {
    if c.Y? then t.yac else t.uvac
  }

  datatype Unit = Unit(comp: Comp, zz: seq<int>)

  /** The reader of section F.2.2 of ITU-T T.81: one block for each component number of the list,
      with the tables and the prediction of that component. */
  function DecodeScan(dcs: seq<Table>, acs: seq<Table>, comps: seq<nat>, bits: seq<bool>,
                      preds: seq<int>): Option<(seq<seq<int>>, seq<bool>)>
    requires |dcs| == |acs| == |preds| && forall i :: 0 <= i < |comps| ==> comps[i] < |preds|
  {
    if |comps| == 0 then Some(([], bits))
    else
      var k := comps[0];
      var b := DecodeBlock(dcs[k], acs[k], bits, preds[k]);
      if b.None? || |b.value.0| == 0 then None
      else
        var more := DecodeScan(dcs, acs, comps[1..], b.value.1, preds[k := b.value.0[0]]);
        if more.None? then None else Some(([b.value.0] + more.value.0, more.value.1))
  }

  /** The components by number, with the tables and predictions the writer means for them. */
  function CompNumber(c: Comp): (k: nat)
    ensures k < 3
  {
    match c case Y => 0 case U => 1 case V => 2
  }

  function DcTables(t: Tables): (ts: seq<Table>)
    ensures |ts| == 3
  {
    [t.ydc, t.uvdc, t.uvdc]
  }

  function AcTables(t: Tables): (ts: seq<Table>)
    ensures |ts| == 3
  {
    [t.yac, t.uvac, t.uvac]
  }

  function Predictions(p: Preds): (ps: seq<int>)
    ensures |ps| == 3
  {
    [p.y, p.u, p.v]
  }

  /** The writer chooses what a reader of these lists chooses. */
  lemma SameChoice(t: Tables, c: Comp, p: Preds, x: int)
    ensures var k := CompNumber(c);
            && DcOf(t, c) == DcTables(t)[k] && AcOf(t, c) == AcTables(t)[k] && Pred(p, c) == Predictions(p)[k]
            && Predictions(Update(p, c, x)) == Predictions(p)[k := x]
  {
  }

  function Comps(units: seq<Unit>): (r: seq<nat>)
    ensures |r| == |units| && forall i :: 0 <= i < |r| ==> r[i] < 3
  {
    seq(|units|, i requires 0 <= i < |units| => CompNumber(units[i].comp))
  }

  function Blocks(units: seq<Unit>): seq<seq<int>>
  {
    seq(|units|, i requires 0 <= i < |units| => units[i].zz)
  }

  predicate UnitFits(t: Tables, u: Unit, p: Preds)
  {
    BlockFits(DcOf(t, u.comp), AcOf(t, u.comp), u.zz, Pred(p, u.comp))
  }

  function UnitBits(t: Tables, u: Unit, p: Preds): seq<bool>
    requires UnitFits(t, u, p)
  {
    BlockBits(DcOf(t, u.comp), AcOf(t, u.comp), u.zz, Pred(p, u.comp))
  }

  function After(u: Unit, p: Preds): Preds
  {
    if |u.zz| == 64 then Update(p, u.comp, u.zz[0]) else p
  }

  /** Every unit can be sent, each predicted from the one before it in its component. */
  predicate ScanFits(t: Tables, units: seq<Unit>, p: Preds)
  {
    |units| == 0 || (UnitFits(t, units[0], p) && ScanFits(t, units[1..], After(units[0], p)))
  }

  function ScanBits(t: Tables, units: seq<Unit>, p: Preds): seq<bool>
    requires ScanFits(t, units, p)
  {
    if |units| == 0 then [] else UnitBits(t, units[0], p) + ScanBits(t, units[1..], After(units[0], p))
  }

  lemma UnitBack(t: Tables, u: Unit, p: Preds, rest: seq<bool>)
    requires Usable(t) && UnitFits(t, u, p)
    ensures |u.zz| == 64
    ensures DecodeBlock(DcOf(t, u.comp), AcOf(t, u.comp), UnitBits(t, u, p) + rest, Pred(p, u.comp))
              == Some((u.zz, rest))
  {
    BlockBack(DcOf(t, u.comp), AcOf(t, u.comp), u.zz, Pred(p, u.comp), rest);
  }

  /** A block in front of blocks that decode. */
  lemma ScanStep(dcs: seq<Table>, acs: seq<Table>, cs: seq<nat>, bits: seq<bool>, preds: seq<int>, zz: seq<int>,
                 mid: seq<bool>, zzs: seq<seq<int>>, rest: seq<bool>)
    requires |dcs| == |acs| == |preds| && (forall i :: 0 <= i < |cs| ==> cs[i] < |preds|) && |cs| > 0 && |zz| > 0
    requires DecodeBlock(dcs[cs[0]], acs[cs[0]], bits, preds[cs[0]]) == Some((zz, mid))
    requires DecodeScan(dcs, acs, cs[1..], mid, preds[cs[0] := zz[0]]) == Some((zzs, rest))
    ensures DecodeScan(dcs, acs, cs, bits, preds) == Some(([zz] + zzs, rest))
  {
  }

  lemma UnitLists(units: seq<Unit>)
    requires |units| > 0
    ensures Comps(units)[0] == CompNumber(units[0].comp) && Comps(units)[1..] == Comps(units[1..])
    ensures Blocks(units) == [units[0].zz] + Blocks(units[1..])
  {
  }

  /** What the reader makes of the bits of units. */
  function Reading(t: Tables, units: seq<Unit>, bits: seq<bool>, p: Preds): Option<(seq<seq<int>>, seq<bool>)>
  {
    DecodeScan(DcTables(t), AcTables(t), Comps(units), bits, Predictions(p))
  }

  lemma UnitStep(t: Tables, units: seq<Unit>, p: Preds, first: seq<bool>, mid: seq<bool>, rest: seq<bool>)
    requires |units| > 0 && |units[0].zz| == 64
    requires DecodeBlock(DcOf(t, units[0].comp), AcOf(t, units[0].comp), first + mid, Pred(p, units[0].comp))
               == Some((units[0].zz, mid))
    requires Reading(t, units[1..], mid, After(units[0], p)) == Some((Blocks(units[1..]), rest))
    ensures Reading(t, units, first + mid, p) == Some((Blocks(units), rest))
  {
    UnitLists(units);
    SameChoice(t, units[0].comp, p, units[0].zz[0]);
    ScanStep(DcTables(t), AcTables(t), Comps(units), first + mid, Predictions(p), units[0].zz, mid,
             Blocks(units[1..]), rest);
  }

  lemma UnitThen(t: Tables, units: seq<Unit>, p: Preds, bits: seq<bool>, rest: seq<bool>)
    requires Usable(t) && |units| > 0 && UnitFits(t, units[0], p)
    requires Reading(t, units[1..], bits + rest, After(units[0], p)) == Some((Blocks(units[1..]), rest))
    ensures Reading(t, units, UnitBits(t, units[0], p) + bits + rest, p) == Some((Blocks(units), rest))
  {
    ConcatAssoc(UnitBits(t, units[0], p), bits, rest);
    UnitBack(t, units[0], p, bits + rest);
    UnitStep(t, units, p, UnitBits(t, units[0], p), bits + rest, rest);
  }

  /** Decoding the bits of a scan gives back all its blocks, whatever follows. */
  lemma {:induction false} ScanBack(t: Tables, units: seq<Unit>, p: Preds, rest: seq<bool>)
    requires Usable(t) && ScanFits(t, units, p)
    ensures Reading(t, units, ScanBits(t, units, p) + rest, p) == Some((Blocks(units), rest))
    decreases |units|
  {
    if |units| == 0 {
      assert ScanBits(t, units, p) + rest == rest && Blocks(units) == [];
    } else {
      ScanBack(t, units[1..], After(units[0], p), rest);
      UnitThen(t, units, p, ScanBits(t, units[1..], After(units[0], p)), rest);
    }
  }

  method WriteUnit(w: Writer, t: Tables, u: Unit, p: Preds) returns (next: Preds)
    requires w.Valid() && Usable(t) && UnitFits(t, u, p)
    modifies w
    ensures w.Valid() && next == After(u, p) && w.Written() == old(w.Written()) + UnitBits(t, u, p)
  {
    var x := ProcessUnit(w, DcOf(t, u.comp), AcOf(t, u.comp), u.zz, Pred(p, u.comp));
    next := Update(p, u.comp, x);
  }

  method WriteUnits(w: Writer, t: Tables, units: seq<Unit>, p: Preds)
    requires w.Valid() && Usable(t) && ScanFits(t, units, p)
    modifies w
    ensures w.Valid() && w.Written() == old(w.Written()) + ScanBits(t, units, p)
  {
    var q, i := p, 0;
    assert units[0..] == units;
    while i < |units|
      invariant i <= |units| && w.Valid() && ScanFits(t, units[i..], q)
      invariant w.Written() + ScanBits(t, units[i..], q) == old(w.Written()) + ScanBits(t, units, p)
    {
      var u := units[i];
      assert units[i..][0] == u && units[i..][1..] == units[i + 1..];
      ConcatAssoc(w.Written(), UnitBits(t, u, q), ScanBits(t, units[i + 1..], After(u, q)));
      q := WriteUnit(w, t, u, q);
      i := i + 1;
    }
    assert w.Written() + [] == w.Written();
  }

  /** The entropy-coded segment and the marker after it: removing the stuffed zeros up to the
      marker and decoding gives every block back, and fewer than eight filling bits remain. */
  method WriteScan(t: Tables, units: seq<Unit>) returns (out: seq<byte>)
    requires Usable(t) && ScanFits(t, units, Preds(0, 0, 0))
    ensures var r := Reading(t, units, MsbBytes(Unstuff(out)), Preds(0, 0, 0));
            r.Some? && r.value.0 == Blocks(units) && |r.value.1| < 8
  {
    var w := new Writer();
    WriteUnits(w, t, units, Preds(0, 0, 0));
    ghost var bits := ScanBits(t, units, Preds(0, 0, 0));
    assert w.Written() == bits;
    ghost var ones := w.Fill();
    ScanBack(t, units, Preds(0, 0, 0), ones);
    UnstuffBack(w.raw, 0xD9);
    out := w.out + [0xFF, 0xD9];
  }
}

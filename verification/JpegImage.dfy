/** The scan of a JPEG image with the writer's own code arrays, read back with the tables of the
    writer's header. */
module JpegImage {
  import opened Bits
  import opened JpegBits
  import opened JpegCode
  import opened JpegScan
  import opened JpegTables
  import opened JpegArrays

  // ----- which coefficients the arrays have codes for

  lemma SizeBelow(v: nat, n: nat)
    ensures Size(v) <= n <==> v < Pow2(n)
  {
    var t := Size(v);
    if t <= n {
      Pow2Mono(t, n);
    } else {
      Pow2Mono(n, t - 1);
    }
  }

  /** A DC array has a code for a difference exactly if it is below 2048 in magnitude. */
  lemma DiffFitsIff(ht: Table, diff: int)
    requires ht == YdcHt() || ht == UvdcHt()
    ensures DiffFits(ht, diff) <==> Abs(diff) < 2048
  {
    SmallPowers();
    SizeBelow(Abs(diff), 11);
  }

  lemma CodedSymbol(run: nat, size: nat)
    requires run < 16 && size < 16
    ensures Coded(16 * run + size) <==> 1 <= size <= 10 || (size == 0 && (run == 0 || run == 15))
  {
    assert (16 * run + size) % 16 == size;
  }

  lemma AcUsed(ht: Table, s: nat)
    requires (ht == YacHt() || ht == UvacHt()) && s < 256
    ensures Used(ht, s) <==> Coded(s)
  {
    YacListedAll(s);
    UvacListedAll(s);
  }

  /** An AC array has codes for sixteen zeros, the end, and a value after fewer than sixteen
      zeros exactly if it is below 1024 in magnitude. */
  lemma ItemFitsIff(ht: Table, it: Item)
    requires ht == YacHt() || ht == UvacHt()
    requires it.Value? ==> it.run < 16 && it.val != 0
    ensures Fits(ht, it) <==> it.Value? ==> Abs(it.val) < 1024
  {
    match it
    case Zrl => AcUsed(ht, 0xF0);
    case End => AcUsed(ht, 0);
    case Value(run, val) =>
      ValueFitsIff(ht, run, val, Size(Abs(val)));
  }

  lemma ValueFitsIff(ht: Table, run: nat, val: int, size: nat)
    requires (ht == YacHt() || ht == UvacHt()) && run < 16 && val != 0 && size == Size(Abs(val))
    ensures Fits(ht, Value(run, val)) <==> Abs(val) < 1024
  {
    ClassBelow(Abs(val));
    if size < 16 {
      CodedSymbol(run, size);
      AcUsed(ht, 16 * run + size);
    }
  }

  lemma ClassBelow(v: nat)
    requires v > 0
    ensures 1 <= Size(v) && (Size(v) <= 10 <==> v < 1024)
  {
    SmallPowers();
    SizeBelow(v, 10);
  }

  predicate Small(zz: seq<int>, k: nat)
    requires |zz| == 64
  {
    forall i :: k <= i < 64 ==> Abs(zz[i]) < 1024
  }

  lemma RunFitsIff(ht: Table, run: nat, val: int, items: seq<Item>)
    requires (ht == YacHt() || ht == UvacHt()) && val != 0
    ensures AllFit(ht, RunItems(run, val) + items) <==> Abs(val) < 1024 && AllFit(ht, items)
  {
    var first := RunItems(run, val);
    var all := first + items;
    ItemFitsIff(ht, Zrl);
    ItemFitsIff(ht, Value(run % 16, val));
    assert forall i :: 0 <= i < |first| - 1 ==> first[i] == Zrl;
    assert first[|first| - 1] == Value(run % 16, val);
    if AllFit(ht, all) {
      assert Fits(ht, all[|first| - 1]);
      forall i | 0 <= i < |items| ensures Fits(ht, items[i]) { assert all[|first| + i] == items[i]; }
    }
  }

  lemma SmallAfter(zz: seq<int>, k: nat, j: nat, next: nat)
    requires |zz| == 64 && k <= j < 64 && next == j + 1 && forall i :: k <= i < j ==> zz[i] == 0
    ensures Small(zz, k) <==> Abs(zz[j]) < 1024 && Small(zz, next)
  {
  }

  lemma ItemsUnfold(zz: seq<int>, k: nat, j: nat, next: nat, run: nat)
    requires 1 <= k < |zz| == 64 && j == NextNonzero(zz, k) < 64 && next == j + 1 && run == j - k
    ensures ItemsOf(zz, k) == RunItems(run, zz[j]) + ItemsOf(zz, next)
  {
  }

  lemma ItemsAfter(ht: Table, zz: seq<int>, k: nat, j: nat, next: nat, items: seq<Item>, rest: seq<Item>, run: nat)
    requires (ht == YacHt() || ht == UvacHt()) && |zz| == 64 && k <= j < 64 && next == j + 1 && zz[j] != 0
    requires (forall i :: k <= i < j ==> zz[i] == 0) && items == RunItems(run, zz[j]) + rest
    requires AllFit(ht, rest) <==> Small(zz, next)
    ensures AllFit(ht, items) <==> Small(zz, k)
  {
    SmallAfter(zz, k, j, next);
    RunFitsIff(ht, run, zz[j], rest);
  }

  lemma ItemsStep(ht: Table, zz: seq<int>, k: nat, j: nat, next: nat, run: nat)
    requires (ht == YacHt() || ht == UvacHt()) && 1 <= k < |zz| == 64
    requires j == NextNonzero(zz, k) < 64 && next == j + 1 && run == j - k
    requires AllFit(ht, ItemsOf(zz, next)) <==> Small(zz, next)
    ensures AllFit(ht, ItemsOf(zz, k)) <==> Small(zz, k)
  {
    ItemsUnfold(zz, k, j, next, run);
    ItemsAfter(ht, zz, k, j, next, ItemsOf(zz, k), ItemsOf(zz, next), run);
  }

  lemma OnlyZeros(ht: Table, zz: seq<int>, k: nat)
    requires (ht == YacHt() || ht == UvacHt()) && 1 <= k < |zz| == 64 && NextNonzero(zz, k) == 64
    ensures AllFit(ht, ItemsOf(zz, k)) && Small(zz, k)
  {
    ItemFitsIff(ht, End);
    assert ItemsOf(zz, k) == [End];
  }

  lemma {:induction false} ItemsFitIff(ht: Table, zz: seq<int>, k: nat)
    requires (ht == YacHt() || ht == UvacHt()) && 1 <= k <= |zz| == 64
    ensures AllFit(ht, ItemsOf(zz, k)) <==> Small(zz, k)
    decreases 64 - k
  {
    if k < 64 {
      var j := NextNonzero(zz, k);
      if j == 64 {
        OnlyZeros(ht, zz, k);
      } else {
        ItemsFitIff(ht, zz, j + 1);
        ItemsStep(ht, zz, k, j, j + 1, j - k);
      }
    }
  }

  /** The coefficients and the DC difference of a block the arrays have codes for. */
  predicate InRange(zz: seq<int>, pred: int)
  {
    |zz| == 64 && Abs(zz[0] - pred) < 2048 && Small(zz, 1)
  }

  lemma BlockFitsIff(dc: Table, ac: Table, zz: seq<int>, pred: int)
    requires (dc == YdcHt() || dc == UvdcHt()) && (ac == YacHt() || ac == UvacHt())
    ensures BlockFits(dc, ac, zz, pred) <==> InRange(zz, pred)
  {
    if |zz| == 64 {
      DiffFitsIff(dc, zz[0] - pred);
      ItemsFitIff(ac, zz, 1);
    }
  }

  // ----- the whole scan

  /** The writer's arrays. */
  function WriterTables(): Tables
  {
    Tables(YdcHt(), YacHt(), UvdcHt(), UvacHt())
  }

  /** Every block is in range, each predicted from the one before it in its component. */
  predicate AllInRange(units: seq<Unit>, p: Preds)
  {
    |units| == 0 || (InRange(units[0].zz, Pred(p, units[0].comp)) && AllInRange(units[1..], After(units[0], p)))
  }

  lemma {:induction false} ScanFitsIff(t: Tables, units: seq<Unit>, p: Preds)
    requires t == WriterTables()
    ensures ScanFits(t, units, p) <==> AllInRange(units, p)
    decreases |units|
  {
    if |units| > 0 {
      var u := units[0];
      BlockFitsIff(DcOf(t, u.comp), AcOf(t, u.comp), u.zz, Pred(p, u.comp));
      ScanFitsIff(t, units[1..], After(u, p));
    }
  }

  /** The four table definitions of the header. */
  ghost predicate AreDefinitions(ydc: Definition, yac: Definition, uvdc: Definition, uvac: Definition)
  {
    IsYdc(ydc) && IsYac(yac) && IsUvdc(uvdc) && IsUvac(uvac)
  }

  ghost predicate Defines(d: Definition, t: Table)
  {
    Described(d.counts, d.values) && HuffTable(d.counts, d.values) == t
  }

  /** The tables they define are the writer's arrays. */
  lemma TablesAgree(ydc: Definition, yac: Definition, uvdc: Definition, uvac: Definition, t: Tables)
    requires AreDefinitions(ydc, yac, uvdc, uvac) && t == WriterTables()
    ensures Defines(ydc, t.ydc) && Defines(yac, t.yac) && Defines(uvdc, t.uvdc) && Defines(uvac, t.uvac)
    ensures Usable(t)
  {
    YdcTable(ydc);
    YacTable(yac);
    UvdcTable(uvdc);
    UvacTable(uvac);
    HeaderTablesUsable(t, ydc, yac, uvdc, uvac);
  }
}

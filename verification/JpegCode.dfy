/** Baseline JPEG entropy coding on bit strings: what the writer sends for a block of quantized
    coefficients in zigzag order, and the decoder of section F.2.2 of ITU-T T.81. */
module JpegCode {
  import opened Bits

  /** A Huffman table: for each symbol its code and code length, length 0 for unused symbols. */
  type Table = seq<(nat, nat)>

  ghost predicate WellFormed(ht: Table)
  {
    |ht| == 256 && forall s :: 0 <= s < 256 ==> ht[s].1 <= 16 && ht[s].0 < Pow2(ht[s].1)
  }

  predicate Used(ht: Table, s: nat)
  {
    s < |ht| && ht[s].1 > 0
  }

  function CodeBits(ht: Table, s: nat): seq<bool>
    requires s < |ht|
  {
    MsbBits(ht[s].0, ht[s].1)
  }

  /** No code is the beginning of another. */
  ghost predicate PrefixFree(ht: Table)
  {
    forall s, t :: 0 <= s < |ht| && 0 <= t < |ht| && s != t && Used(ht, s) && Used(ht, t) ==>
        !(CodeBits(ht, s) <= CodeBits(ht, t))
  }

  // ----- the decoder

  /** The symbol whose code begins the bits, if any, looking from symbol s on. */
  function FindSymbol(ht: Table, bits: seq<bool>, s: nat): (r: Option<nat>)
    ensures r.Some? ==> r.value < |ht| && Used(ht, r.value) && CodeBits(ht, r.value) <= bits
    decreases |ht| - s
  {
    if s >= |ht| then None
    else if Used(ht, s) && CodeBits(ht, s) <= bits then Some(s)
    else FindSymbol(ht, bits, s + 1)
  }

  function DecodeSymbol(ht: Table, bits: seq<bool>): (r: Option<(nat, seq<bool>)>)
    ensures r.Some? ==> r.value.0 < |ht|
  {
    var s := FindSymbol(ht, bits, 0);
    if s.None? then None else Some((s.value, bits[|CodeBits(ht, s.value)|..]))
  }

  /** RECEIVE: the next n bits as a number. */
  function Receive(bits: seq<bool>, n: nat): Option<(nat, seq<bool>)>
  {
    if |bits| < n then None else Some((FromMsb(bits[..n]), bits[n..]))
  }

  /** EXTEND: the signed value of magnitude bits v in size class t. */
  function Extend(v: nat, t: nat): int
    requires t > 0
  {
    if v < Pow2(t - 1) then v - Pow2(t) + 1 else v
  }

  function Zeros(n: nat): (z: seq<int>)
    ensures |z| == n
  {
    seq(n, _ => 0)
  }

  function DecodeDiff(ht: Table, bits: seq<bool>): Option<(int, seq<bool>)>
  {
    var s := DecodeSymbol(ht, bits);
    if s.None? then None
    else if s.value.0 == 0 then Some((0, s.value.1))
    else
      var v := Receive(s.value.1, s.value.0);
      if v.None? then None else Some((Extend(v.value.0, s.value.0), v.value.1))
  }

  /** What one AC symbol says: sixteen zeros, a value after some zeros, or nothing but zeros. */
  datatype Item = Zrl | Value(run: nat, val: int) | End

  function DecodeItem(ht: Table, bits: seq<bool>): Option<(Item, seq<bool>)>
  {
    var s := DecodeSymbol(ht, bits);
    if s.None? then None
    else
      var run, size := s.value.0 / 16, s.value.0 % 16;
      if size == 0 then Some((if run == 15 then Zrl else End, s.value.1))
      else
        var v := Receive(s.value.1, size);
        if v.None? then None else Some((Value(run, Extend(v.value.0, size)), v.value.1))
  }

  /** The coefficients known after an item. */
  function Apply(zz: seq<int>, it: Item): (r: seq<int>)
    requires |zz| < 64
    ensures |r| > |zz|
  {
    match it
    case Zrl => zz + Zeros(16)
    case Value(run, val) => zz + Zeros(run) + [val]
    case End => zz + Zeros(64 - |zz|)
  }

  /** The AC coefficients, appended to those already known. */
  function DecodeAc(ht: Table, bits: seq<bool>, zz: seq<int>): (r: Option<(seq<int>, seq<bool>)>)
    decreases 64 - |zz|
  {
    if |zz| >= 64 then if |zz| == 64 then Some((zz, bits)) else None
    else
      var it := DecodeItem(ht, bits);
      if it.None? then None else DecodeAc(ht, it.value.1, Apply(zz, it.value.0))
  }

  /** The DC coefficient, given the predicted one. */
  function DecodeDc(ht: Table, bits: seq<bool>, pred: int): Option<(int, seq<bool>)>
  {
    var d := DecodeDiff(ht, bits);
    if d.None? then None else Some((pred + d.value.0, d.value.1))
  }

  /** A whole block, given the predicted DC coefficient. */
  function DecodeBlock(dc: Table, ac: Table, bits: seq<bool>, pred: int): Option<(seq<int>, seq<bool>)>
  {
    var d := DecodeDc(dc, bits, pred);
    if d.None? then None else DecodeAc(ac, d.value.1, [d.value.0])
  }

  // ----- what the writer sends

  function Abs(x: int): nat
  {
    if x < 0 then -x else x
  }

  /** Number of binary digits. */
  function Size(v: nat): (t: nat)
    ensures v < Pow2(t) && (v > 0 ==> t > 0 && Pow2(t - 1) <= v)
  {
    if v == 0 then 0 else 1 + Size(v / 2)
  }

  /** Size class and magnitude bits of a nonzero value. */
  function Magnitude(val: int): (m: (nat, nat))
    requires val != 0
    ensures m.0 < Pow2(m.1) && m.1 > 0
  {
    var t := Size(Abs(val));
    (if val < 0 then val - 1 + Pow2(t) else val, t)
  }

  function ValueBits(val: int): seq<bool>
    requires val != 0
  {
    MsbBits(Magnitude(val).0, Magnitude(val).1)
  }

  /** The difference can be sent with this table. */
  predicate DiffFits(ht: Table, diff: int)
  {
    |ht| == 256 && Size(Abs(diff)) < 16 && Used(ht, Size(Abs(diff)))
  }

  function DiffBits(ht: Table, diff: int): seq<bool>
    requires DiffFits(ht, diff)
  {
    if diff == 0 then CodeBits(ht, 0) else CodeBits(ht, Size(Abs(diff))) + ValueBits(diff)
  }

  /** Position of the next nonzero coefficient, 64 if there is none. */
  function NextNonzero(zz: seq<int>, k: nat): (j: nat)
    requires k <= |zz| == 64
    ensures k <= j <= 64 && (forall i :: k <= i < j ==> zz[i] == 0) && (j < 64 ==> zz[j] != 0)
    decreases |zz| - k
  {
    if k == 64 || zz[k] != 0 then k else NextNonzero(zz, k + 1)
  }

  function Zrls(n: nat): (r: seq<Item>)
    ensures |r| == n
  {
    seq(n, _ => Zrl)
  }

  /** A run of zeros and the value that ends it. */
  function RunItems(run: nat, val: int): seq<Item>
  {
    Zrls(run / 16) + [Value(run % 16, val)]
  }

  /** The items for zz[k..]: zero runs, values, and an end unless zz[63] was sent. */
  function ItemsOf(zz: seq<int>, k: nat): seq<Item>
    requires 1 <= k <= |zz| == 64
    decreases |zz| - k
  {
    if k == 64 then []
    else
      var j := NextNonzero(zz, k);
      if j == 64 then [End] else RunItems(j - k, zz[j]) + ItemsOf(zz, j + 1)
  }

  /** The symbol of an item. */
  function Symbol(it: Item): nat
  {
    match it
    case Zrl => 0xF0
    case Value(run, val) => 16 * run + Size(Abs(val))
    case End => 0
  }

  /** The item can be sent with this table. */
  predicate Fits(ht: Table, it: Item)
  {
    |ht| == 256 && Used(ht, Symbol(it)) && (it.Value? ==> it.run < 16 && it.val != 0 && Size(Abs(it.val)) < 16)
  }

  function ItemBits(ht: Table, it: Item): seq<bool>
    requires Fits(ht, it)
  {
    CodeBits(ht, Symbol(it)) + if it.Value? then ValueBits(it.val) else []
  }

  predicate AllFit(ht: Table, items: seq<Item>)
  {
    forall i :: 0 <= i < |items| ==> Fits(ht, items[i])
  }

  function ItemsBits(ht: Table, items: seq<Item>): seq<bool>
    requires AllFit(ht, items)
  {
    if |items| == 0 then [] else ItemBits(ht, items[0]) + ItemsBits(ht, items[1..])
  }

  /** Tables and block agree: every symbol the block needs has a code. */
  predicate BlockFits(dc: Table, ac: Table, zz: seq<int>, pred: int)
  {
    |zz| == 64 && DiffFits(dc, zz[0] - pred) && AllFit(ac, ItemsOf(zz, 1))
  }

  function BlockBits(dc: Table, ac: Table, zz: seq<int>, pred: int): seq<bool>
    requires BlockFits(dc, ac, zz, pred)
  {
    DiffBits(dc, zz[0] - pred) + ItemsBits(ac, ItemsOf(zz, 1))
  }

  // ----- reading back

  /** Two beginnings of the same string are comparable. */
  lemma Comparable(a: seq<bool>, b: seq<bool>, rest: seq<bool>)
    requires b <= a + rest
    ensures a <= b || b <= a
  {
    if |a| <= |b| {
      assert b[..|a|] == (a + rest)[..|a|] == a;
    } else {
      assert b == (a + rest)[..|b|] == a[..|b|];
    }
  }

  lemma {:induction false} FindSymbolBack(ht: Table, s: nat, rest: seq<bool>, from: nat)
    requires PrefixFree(ht) && from <= s < |ht| && Used(ht, s)
    ensures FindSymbol(ht, CodeBits(ht, s) + rest, from) == Some(s)
    decreases s - from
  {
    var bits := CodeBits(ht, s) + rest;
    assert bits[..|CodeBits(ht, s)|] == CodeBits(ht, s);
    if from < s {
      if Used(ht, from) && CodeBits(ht, from) <= bits {
        Comparable(CodeBits(ht, s), CodeBits(ht, from), rest);
        assert false;
      }
      FindSymbolBack(ht, s, rest, from + 1);
    }
  }

  lemma SymbolBack(ht: Table, s: nat, rest: seq<bool>)
    requires PrefixFree(ht) && s < |ht| && Used(ht, s)
    ensures DecodeSymbol(ht, CodeBits(ht, s) + rest) == Some((s, rest))
  {
    FindSymbolBack(ht, s, rest, 0);
    assert (CodeBits(ht, s) + rest)[|CodeBits(ht, s)|..] == rest;
  }

  lemma ValueBack(val: int, rest: seq<bool>)
    requires val != 0
    ensures var (v, t) := Magnitude(val);
            Receive(ValueBits(val) + rest, t) == Some((v, rest)) && Extend(v, t) == val
  {
    var (v, t) := Magnitude(val);
    FromMsbBits(v, t);
    assert (ValueBits(val) + rest)[..t] == ValueBits(val);
    assert (ValueBits(val) + rest)[t..] == rest;
    assert Pow2(t) == 2 * Pow2(t - 1);
  }

  lemma DiffBack(ht: Table, diff: int, rest: seq<bool>)
    requires PrefixFree(ht) && DiffFits(ht, diff)
    ensures DecodeDiff(ht, DiffBits(ht, diff) + rest) == Some((diff, rest))
  {
    if diff == 0 {
      SymbolBack(ht, 0, rest);
    } else {
      var t := Size(Abs(diff));
      ConcatAssoc(CodeBits(ht, t), ValueBits(diff), rest);
      SymbolBack(ht, t, ValueBits(diff) + rest);
      ValueBack(diff, rest);
    }
  }

  lemma ItemBack(ht: Table, it: Item, rest: seq<bool>)
    requires PrefixFree(ht) && Fits(ht, it)
    ensures DecodeItem(ht, ItemBits(ht, it) + rest) == Some((it, rest))
  {
    var s := Symbol(it);
    if it.Value? {
      ConcatAssoc(CodeBits(ht, s), ValueBits(it.val), rest);
      SymbolBack(ht, s, ValueBits(it.val) + rest);
      ValueBack(it.val, rest);
      assert s / 16 == it.run && s % 16 == Magnitude(it.val).1;
    } else {
      assert CodeBits(ht, s) + [] == CodeBits(ht, s);
      SymbolBack(ht, s, rest);
    }
  }

  /** The coefficients after all items, if they stop exactly at the 64th. */
  function ApplyAll(zz: seq<int>, items: seq<Item>): Option<seq<int>>
    decreases |items|
  {
    if |items| == 0 then Some(zz)
    else if |zz| >= 64 then None
    else ApplyAll(Apply(zz, items[0]), items[1..])
  }

  lemma {:induction false} ItemsBack(ht: Table, items: seq<Item>, zz: seq<int>, rest: seq<bool>)
    requires PrefixFree(ht) && AllFit(ht, items) && ApplyAll(zz, items).Some? && |ApplyAll(zz, items).value| == 64
    ensures DecodeAc(ht, ItemsBits(ht, items) + rest, zz) == Some((ApplyAll(zz, items).value, rest))
    decreases |items|
  {
    if |items| == 0 {
      assert ItemsBits(ht, items) + rest == rest;
    } else {
      var tail := ItemsBits(ht, items[1..]) + rest;
      ConcatAssoc(ItemBits(ht, items[0]), ItemsBits(ht, items[1..]), rest);
      ItemBack(ht, items[0], tail);
      ItemsBack(ht, items[1..], Apply(zz, items[0]), rest);
    }
  }

  lemma {:induction false} ApplyConcat(zz: seq<int>, xs: seq<Item>, ys: seq<Item>)
    requires ApplyAll(zz, xs).Some?
    ensures ApplyAll(zz, xs + ys) == ApplyAll(ApplyAll(zz, xs).value, ys)
    decreases |xs|
  {
    if |xs| == 0 {
      assert xs + ys == ys;
    } else {
      assert (xs + ys)[1..] == xs[1..] + ys;
      ApplyConcat(Apply(zz, xs[0]), xs[1..], ys);
    }
  }

  lemma {:induction false} ApplyZrls(zz: seq<int>, n: nat)
    requires n > 0 ==> |zz| + 16 * (n - 1) < 64
    ensures ApplyAll(zz, Zrls(n)) == Some(zz + Zeros(16 * n))
    decreases n
  {
    if n == 0 {
      assert zz + Zeros(0) == zz;
    } else {
      assert Zrls(n)[1..] == Zrls(n - 1);
      ApplyZrls(zz + Zeros(16), n - 1);
      assert zz + Zeros(16) + Zeros(16 * (n - 1)) == zz + Zeros(16 * n);
    }
  }

  lemma ZeroRun(zz: seq<int>, k: nat, j: nat)
    requires k <= j <= |zz| && forall i :: k <= i < j ==> zz[i] == 0
    ensures zz[..k] + Zeros(j - k) == zz[..j]
  {
  }

  /** One run of zeros and the value that ends it. */
  lemma ApplyRun(zz: seq<int>, k: nat, j: nat)
    requires k <= j < |zz| == 64 && forall i :: k <= i < j ==> zz[i] == 0
    ensures ApplyAll(zz[..k], RunItems(j - k, zz[j])) == Some(zz[..j + 1])
  {
    var n := (j - k) / 16;
    ApplyZrls(zz[..k], n);
    ZeroRun(zz, k, k + 16 * n);
    ZeroRun(zz, k + 16 * n, j);
    var last := [Value((j - k) % 16, zz[j])];
    ApplyConcat(zz[..k], Zrls(n), last);
    assert last[1..] == [] && zz[..j] + [zz[j]] == zz[..j + 1];
  }

  lemma ApplyEnd(zz: seq<int>, k: nat)
    requires k < |zz| == 64 && forall i :: k <= i < 64 ==> zz[i] == 0
    ensures ApplyAll(zz[..k], [End]) == Some(zz)
  {
    ZeroRun(zz, k, 64);
    assert zz[..64] == zz && [End][1..] == [];
  }

  /** A run of zeros, its value, and what rebuilds the rest of the block. */
  lemma RunThen(zz: seq<int>, k: nat, j: nat, more: seq<Item>)
    requires k <= j < |zz| == 64 && forall i :: k <= i < j ==> zz[i] == 0
    requires ApplyAll(zz[..j + 1], more) == Some(zz)
    ensures ApplyAll(zz[..k], RunItems(j - k, zz[j]) + more) == Some(zz)
  {
    ApplyRun(zz, k, j);
    ApplyConcat(zz[..k], RunItems(j - k, zz[j]), more);
  }

  ghost predicate Rebuilds(zz: seq<int>, k: nat, items: seq<Item>)
    requires k <= |zz|
  {
    ApplyAll(zz[..k], items) == Some(zz)
  }

  lemma RunRebuilds(zz: seq<int>, k: nat, j: nat, more: seq<Item>)
    requires k < |zz| == 64 && j == NextNonzero(zz, k) < 64
    requires Rebuilds(zz, j + 1, more)
    ensures Rebuilds(zz, k, RunItems(j - k, zz[j]) + more)
  {
    RunThen(zz, k, j, more);
  }

  lemma EndRebuilds(zz: seq<int>, k: nat)
    requires k < |zz| == 64 && NextNonzero(zz, k) == 64
    ensures Rebuilds(zz, k, [End])
  {
    ApplyEnd(zz, k);
  }

  lemma NoneRebuilds(zz: seq<int>)
    ensures Rebuilds(zz, |zz|, [])
  {
    assert zz[..|zz|] == zz;
  }

  /** The items of a block rebuild it. */
  lemma {:induction false} ItemsRebuild(zz: seq<int>, k: nat)
    requires 1 <= k <= |zz| == 64
    ensures Rebuilds(zz, k, ItemsOf(zz, k))
    decreases 64 - k
  {
    if k == 64 {
      NoneRebuilds(zz);
    } else {
      var j := NextNonzero(zz, k);
      if j == 64 {
        EndRebuilds(zz, k);
      } else {
        ItemsRebuild(zz, j + 1);
        RunRebuilds(zz, k, j, ItemsOf(zz, j + 1));
      }
    }
  }

  lemma DcBack(dc: Table, diff: int, pred: int, x: int, rest: seq<bool>)
    requires PrefixFree(dc) && DiffFits(dc, diff) && x == pred + diff
    ensures DecodeDc(dc, DiffBits(dc, diff) + rest, pred) == Some((x, rest))
  {
    DiffBack(dc, diff, rest);
  }

  /** After the DC coefficient the others follow. */
  lemma DcThen(dc: Table, ac: Table, bits: seq<bool>, pred: int, zz: seq<int>, rest: seq<bool>)
    requires |zz| > 0 && DecodeDc(dc, bits, pred) == Some((zz[0], rest))
    ensures DecodeBlock(dc, ac, bits, pred) == DecodeAc(ac, rest, zz[..1])
  {
    assert zz[..1] == [zz[0]];
  }

  /** The items of a block decode to its coefficients. */
  lemma AcBack(ac: Table, zz: seq<int>, k: nat, items: seq<Item>, rest: seq<bool>)
    requires PrefixFree(ac) && 1 <= k <= |zz| == 64 && items == ItemsOf(zz, k) && AllFit(ac, items)
    ensures DecodeAc(ac, ItemsBits(ac, items) + rest, zz[..k]) == Some((zz, rest))
  {
    ItemsRebuild(zz, k);
    ItemsBack(ac, items, zz[..k], rest);
  }

  /** A whole block comes back, whatever follows it. */
  lemma BlockBack(dc: Table, ac: Table, zz: seq<int>, pred: int, rest: seq<bool>)
    requires PrefixFree(dc) && PrefixFree(ac) && BlockFits(dc, ac, zz, pred)
    ensures DecodeBlock(dc, ac, BlockBits(dc, ac, zz, pred) + rest, pred) == Some((zz, rest))
  {
    var bits := ItemsBits(ac, ItemsOf(zz, 1));
    AcBack(ac, zz, 1, ItemsOf(zz, 1), rest);
    ConcatAssoc(DiffBits(dc, zz[0] - pred), bits, rest);
    DcBack(dc, zz[0] - pred, pred, zz[0], bits + rest);
    DcThen(dc, ac, BlockBits(dc, ac, zz, pred) + rest, pred, zz, bits + rest);
  }
}

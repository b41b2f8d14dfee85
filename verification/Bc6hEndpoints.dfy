/** The endpoints of a BC6H block: objects whose channels are sign extended, turned from deltas into
    values and unquantized in place. */
module Bc6hEndpoints {
  import opened Bits
  import opened Bc6hModes
  import opened Bc6hValues

  function Unquantized(isSigned: bool, c: U16, size: nat): U16
    requires size > 0
  {
    if isSigned then UnquantizeSigned(c, size) else UnquantizeUnsigned(c, size)
  }

  /** Only a channel that is rescaled changes its size. */
  function UnquantizedSize(isSigned: bool, c: U16, size: nat): nat
  {
    if size < (if isSigned then 16 else 15) && c != 0 then 16 else size
  }

  class Rgbf {
    var channel: seq<U16>
    var size: seq<nat>
    const isSigned: bool

    ghost predicate Valid()
      reads this
    {
      |channel| == 3 && |size| == 3 && forall i :: 0 <= i < 3 ==> 0 < size[i] <= 16
    }

    constructor (channel: seq<U16>, size: seq<nat>, isSigned: bool)
      requires |channel| == 3 && |size| == 3 && forall i :: 0 <= i < 3 ==> 0 < size[i] <= 16
      ensures Valid() && this.channel == channel && this.size == size && this.isSigned == isSigned
    {
      this.channel, this.size, this.isSigned := channel, size, isSigned;
    }

    method ExtendSign()
      requires Valid()
      modifies this`channel
      ensures Valid() && forall i :: 0 <= i < 3 ==> channel[i] == ToU16(SignExtend(old(channel)[i], size[i]))
    {
      for i := 0 to 3
        invariant |channel| == 3
        invariant forall k :: 0 <= k < 3 ==>
                    channel[k] == if k < i then ToU16(SignExtend(old(channel)[k], size[k])) else old(channel)[k]
      {
        channel := channel[i := ToU16(SignExtend(channel[i], size[i]))];
      }
    }

    /** From a difference to the base endpoint to a value of the base's size. */
    method Resolve(base: seq<U16>, baseSize: seq<nat>)
      requires Valid() && |base| == 3 && |baseSize| == 3 && forall i :: 0 <= i < 3 ==> 0 < baseSize[i] <= 16
      modifies this`channel, this`size
      ensures Valid() && size == baseSize
      ensures forall i :: 0 <= i < 3 ==> channel[i] == ResolveDelta(base[i], old(channel)[i], baseSize[i], isSigned)
    {
      for i := 0 to 3
        invariant Valid()
        invariant forall k :: 0 <= k < 3 ==> size[k] == if k < i then baseSize[k] else old(size)[k]
        invariant forall k :: 0 <= k < 3 ==>
                    channel[k] == if k < i then ResolveDelta(base[k], old(channel)[k], baseSize[k], false)
                        else old(channel)[k]
      {
        size := size[i := baseSize[i]];
        channel := channel[i := ResolveDelta(base[i], channel[i], baseSize[i], false)];
      }
      assert size == baseSize;
      if isSigned {
        ExtendSign();
      }
    }

    method Unquantize()
      requires Valid()
      modifies this`channel, this`size
      ensures Valid()
      ensures forall i :: 0 <= i < 3 ==> channel[i] == Unquantized(isSigned, old(channel)[i], old(size)[i])
      ensures forall i :: 0 <= i < 3 ==> size[i] == UnquantizedSize(isSigned, old(channel)[i], old(size)[i])
    {
      for i := 0 to 3
        invariant Valid()
        invariant forall k :: i <= k < 3 ==> channel[k] == old(channel)[k] && size[k] == old(size)[k]
        invariant forall k :: 0 <= k < i ==> channel[k] == Unquantized(isSigned, old(channel)[k], old(size)[k])
        invariant forall k :: 0 <= k < i ==> size[k] == UnquantizedSize(isSigned, old(channel)[k], old(size)[k])
      {
        var limit := if isSigned then 16 else 15;
        if size[i] < limit && channel[i] != 0 {
          channel := channel[i := Unquantized(isSigned, channel[i], size[i])];
          size := size[i := 16];
        }
      }
    }
  }

  // ----- one channel through all steps

  predicate Sizes(d: ModeDesc, stored: nat, ep: nat)
  {
    0 < d.endpointBits <= 16 && 0 < stored <= 16 && ((ep == 0 || !d.hasDelta) ==> stored == d.endpointBits)
  }

  /** Channel value after sign extension. */
  function Extended(d: ModeDesc, isSigned: bool, raw: U16, stored: nat, ep: nat): U16
    requires stored > 0
  {
    if isSigned || (d.hasDelta && ep > 0) then ToU16(SignExtend(raw, stored)) else raw
  }

  /** Channel value after the deltas are resolved. */
  function Resolved(d: ModeDesc, isSigned: bool, base: U16, raw: U16, stored: nat, ep: nat): U16
    requires Sizes(d, stored, ep)
  {
    var x := Extended(d, isSigned, raw, stored, ep);
    if d.hasDelta && ep > 0 then
        ResolveDelta(Extended(d, isSigned, base, d.endpointBits, 0), x, d.endpointBits, isSigned) else x
  }

  /** The endpoint's value used for interpolation. */
  function Final(d: ModeDesc, isSigned: bool, base: U16, raw: U16, stored: nat, ep: nat): U16
    requires Sizes(d, stored, ep)
  {
    var y := Resolved(d, isSigned, base, raw, stored, ep);
    Unquantized(isSigned, y, d.endpointBits)
  }

  lemma ModFits(x: nat, size: nat)
    ensures x % Pow2(size) < Pow2(size)
  {
  }

  lemma ResolvedFits(d: ModeDesc, base: U16, raw: U16, stored: nat, ep: nat)
    requires Sizes(d, stored, ep) && raw < Pow2(stored)
    ensures SignedFits(S16(Resolved(d, true, base, raw, stored, ep)), d.endpointBits)
  {
    if d.hasDelta && ep > 0 {
      var s := (Extended(d, true, base, d.endpointBits, 0) + Extended(d, true, raw, stored, ep)) % Pow2(d.endpointBits);
      ModFits(Extended(d, true, base, d.endpointBits, 0) + Extended(d, true, raw, stored, ep), d.endpointBits);
      ExtendFits(s, d.endpointBits);
    } else {
      ExtendFits(raw, stored);
    }
  }

  /** Signed endpoints stored in fewer than 16 bits never become the most negative number. */
  lemma FinalFits(d: ModeDesc, base: U16, raw: U16, stored: nat, ep: nat)
    requires Sizes(d, stored, ep) && raw < Pow2(stored) && d.endpointBits < 16
    ensures -0x7FFF <= S16(Final(d, true, base, raw, stored, ep)) <= 0x7FFF
  {
    ResolvedFits(d, base, raw, stored, ep);
    UnquantizeSignedFits(Resolved(d, true, base, raw, stored, ep), d.endpointBits);
  }

  // ----- all endpoints of a block

  ghost predicate Distinct(e: seq<Rgbf>)
  {
    forall i, j :: 0 <= i < j < |e| ==> e[i] != e[j]
  }

  ghost predicate AllValid(e: seq<Rgbf>)
    reads e
  {
    forall k :: 0 <= k < |e| ==> e[k].Valid()
  }

  /** Sign extends the endpoints from lo on. */
  method ExtendFrom(e: seq<Rgbf>, lo: nat)
    requires Distinct(e) && AllValid(e) && lo <= |e|
    modifies e
    ensures AllValid(e)
    ensures forall k :: 0 <= k < |e| ==> e[k].size == old(e[k].size)
    ensures forall k :: 0 <= k < |e| && k < lo ==> e[k].channel == old(e[k].channel)
    ensures forall k, i :: lo <= k < |e| && 0 <= i < 3 ==>
              e[k].channel[i] == ToU16(SignExtend(old(e[k].channel)[i], e[k].size[i]))
  {
    for ep := lo to |e|
      invariant AllValid(e)
      invariant forall k :: 0 <= k < |e| ==> e[k].size == old(e[k].size)
      invariant forall k :: 0 <= k < |e| && (k < lo || k >= ep) ==> e[k].channel == old(e[k].channel)
      invariant forall k, i :: lo <= k < ep && 0 <= i < 3 ==>
                  e[k].channel[i] == ToU16(SignExtend(old(e[k].channel)[i], e[k].size[i]))
    {
      e[ep].ExtendSign();
    }
  }

  /** Turns the deltas of all endpoints but the first into values. */
  method ResolveAfterFirst(e: seq<Rgbf>, isSigned: bool)
    requires |e| > 0 && Distinct(e) && AllValid(e) && forall k :: 0 <= k < |e| ==> e[k].isSigned == isSigned
    modifies e
    ensures AllValid(e) && e[0].channel == old(e[0].channel) && forall k :: 0 <= k < |e| ==> e[k].size == old(e[0].size)
    ensures forall k, i :: 1 <= k < |e| && 0 <= i < 3 ==>
              e[k].channel[i] == ResolveDelta(e[0].channel[i], old(e[k].channel)[i], e[0].size[i], isSigned)
  {
    var base, size := e[0].channel, e[0].size;
    for ep := 1 to |e|
      invariant AllValid(e) && e[0].channel == base
      invariant forall k :: 0 <= k < ep ==> e[k].size == size
      invariant forall k :: ep <= k < |e| ==> e[k].channel == old(e[k].channel)
      invariant forall k, i :: 1 <= k < ep && 0 <= i < 3 ==>
                  e[k].channel[i] == ResolveDelta(base[i], old(e[k].channel)[i], size[i], isSigned)
    {
      e[ep].Resolve(base, size);
    }
  }

  /** Stored channels and their sizes, one row for each endpoint. */
  ghost predicate Stored(d: ModeDesc, raws: seq<seq<U16>>, sizes: seq<seq<nat>>, n: nat)
  {
    && |raws| == |sizes| == n
    && (forall k :: 0 <= k < n ==> |raws[k]| == |sizes[k]| == 3)
    && (forall k, i :: 0 <= k < n && 0 <= i < 3 ==> Sizes(d, sizes[k][i], k) && raws[k][i] < Pow2(sizes[k][i]))
  }

  ghost predicate AtStart(e: seq<Rgbf>, d: ModeDesc, isSigned: bool, raws: seq<seq<U16>>, sizes: seq<seq<nat>>)
    requires Stored(d, raws, sizes, |e|)
    reads e
  {
    Distinct(e) && AllValid(e) && forall k :: 0 <= k < |e| ==>
        e[k].channel == raws[k] && e[k].size == sizes[k] && e[k].isSigned == isSigned
  }

  ghost predicate AtExtended(e: seq<Rgbf>, d: ModeDesc, isSigned: bool, raws: seq<seq<U16>>, sizes: seq<seq<nat>>)
    requires Stored(d, raws, sizes, |e|)
    reads e
  {
    && Distinct(e) && AllValid(e)
    && (forall k :: 0 <= k < |e| ==> e[k].size == sizes[k] && e[k].isSigned == isSigned)
    && (forall k, i :: 0 <= k < |e| && 0 <= i < 3 ==>
        e[k].channel[i] == Extended(d, isSigned, raws[k][i], sizes[k][i], k))
  }

  ghost predicate AtResolved(e: seq<Rgbf>, d: ModeDesc, isSigned: bool, raws: seq<seq<U16>>, sizes: seq<seq<nat>>)
    requires Stored(d, raws, sizes, |e|)
    reads e
  {
    && Distinct(e) && AllValid(e)
    && (forall k, i :: 0 <= k < |e| && 0 <= i < 3 ==>
        e[k].size[i] == d.endpointBits
            && e[k].channel[i] == Resolved(d, isSigned, raws[0][i], raws[k][i], sizes[k][i], k))
    && (forall k :: 0 <= k < |e| ==> e[k].isSigned == isSigned)
  }

  ghost predicate AtFinal(e: seq<Rgbf>, d: ModeDesc, isSigned: bool, raws: seq<seq<U16>>, sizes: seq<seq<nat>>)
    requires Stored(d, raws, sizes, |e|)
    reads e
  {
    AllValid(e) && forall k, i :: 0 <= k < |e| && 0 <= i < 3 ==>
        e[k].channel[i] == Final(d, isSigned, raws[0][i], raws[k][i], sizes[k][i], k)
  }

  method ExtendEnds(e: seq<Rgbf>, d: ModeDesc, isSigned: bool, ghost raws: seq<seq<U16>>, ghost sizes: seq<seq<nat>>)
    requires |e| > 0 && Stored(d, raws, sizes, |e|) && AtStart(e, d, isSigned, raws, sizes)
    modifies e
    ensures AtExtended(e, d, isSigned, raws, sizes)
  {
    if isSigned {
      ExtendFrom(e, 0);
    } else if d.hasDelta {
      ExtendFrom(e, 1);
    }
  }

  method ResolveEnds(e: seq<Rgbf>, d: ModeDesc, isSigned: bool, ghost raws: seq<seq<U16>>, ghost sizes: seq<seq<nat>>)
    requires |e| > 0 && Stored(d, raws, sizes, |e|) && AtExtended(e, d, isSigned, raws, sizes)
    modifies e
    ensures AtResolved(e, d, isSigned, raws, sizes)
  {
    assert Sizes(d, sizes[0][0], 0) && Sizes(d, sizes[0][1], 0) && Sizes(d, sizes[0][2], 0);
    assert forall i :: 0 <= i < 3 ==> e[0].size[i] == d.endpointBits;
    if d.hasDelta {
      ResolveAfterFirst(e, isSigned);
    } else {
      assert forall k, i :: 0 <= k < |e| && 0 <= i < 3 ==> Sizes(d, sizes[k][i], k);
    }
  }

  method UnquantizeEnds(e: seq<Rgbf>, d: ModeDesc, isSigned: bool, ghost raws: seq<seq<U16>>,
                        ghost sizes: seq<seq<nat>>)
    requires |e| > 0 && Stored(d, raws, sizes, |e|) && AtResolved(e, d, isSigned, raws, sizes)
    modifies e
    ensures AtFinal(e, d, isSigned, raws, sizes)
  {
    for ep := 0 to |e|
      invariant AllValid(e) && forall k :: 0 <= k < |e| ==> e[k].isSigned == isSigned
      invariant forall k :: ep <= k < |e| ==> e[k].channel == old(e[k].channel) && e[k].size == old(e[k].size)
      invariant forall k, i :: 0 <= k < ep && 0 <= i < 3 ==>
                  e[k].channel[i] == Final(d, isSigned, raws[0][i], raws[k][i], sizes[k][i], k)
    {
      e[ep].Unquantize();
    }
  }

  // ----- the values used for interpolation

  predicate ThreeEach(rows: seq<seq<U16>>)
  {
    forall k :: 0 <= k < |rows| ==> |rows[k]| == 3
  }

  ghost function FinalRow(d: ModeDesc, isSigned: bool, raws: seq<seq<U16>>, sizes: seq<seq<nat>>,
                          ep: nat): (r: seq<U16>)
    requires Stored(d, raws, sizes, |raws|) && ep < |raws|
    ensures |r| == 3
  {
    seq(3, i requires 0 <= i < 3 => Final(d, isSigned, raws[0][i], raws[ep][i], sizes[ep][i], ep))
  }

  ghost function FinalRows(d: ModeDesc, isSigned: bool, raws: seq<seq<U16>>,
                           sizes: seq<seq<nat>>): (rows: seq<seq<U16>>)
    requires Stored(d, raws, sizes, |raws|)
    ensures |rows| == |raws| && ThreeEach(rows)
  {
    seq(|raws|, k requires 0 <= k < |raws| => FinalRow(d, isSigned, raws, sizes, k))
  }

  /** The objects hold these rows. */
  ghost predicate Prepared(e: seq<Rgbf>, rows: seq<seq<U16>>)
    reads e
  {
    |e| == |rows| && ThreeEach(rows) && forall k :: 0 <= k < |e| ==> e[k].channel == rows[k]
  }

  lemma FinalIsPrepared(e: seq<Rgbf>, d: ModeDesc, isSigned: bool, raws: seq<seq<U16>>, sizes: seq<seq<nat>>)
    requires |raws| == |e| && Stored(d, raws, sizes, |e|) && AtFinal(e, d, isSigned, raws, sizes)
    ensures Prepared(e, FinalRows(d, isSigned, raws, sizes))
  {
    forall k | 0 <= k < |e|
      ensures e[k].channel == FinalRow(d, isSigned, raws, sizes, k)
    {
    }
  }

  /** No endpoint is the most negative number. */
  predicate Above(rows: seq<seq<U16>>)
  {
    forall k, i :: 0 <= k < |rows| && 0 <= i < |rows[k]| ==> S16(rows[k][i]) != -0x8000
  }

  lemma FinalRowsAbove(d: ModeDesc, raws: seq<seq<U16>>, sizes: seq<seq<nat>>)
    requires Stored(d, raws, sizes, |raws|) && d.endpointBits < 16
    ensures Above(FinalRows(d, true, raws, sizes))
  {
    forall k, i | 0 <= k < |raws| && 0 <= i < 3
      ensures S16(FinalRow(d, true, raws, sizes, k)[i]) != -0x8000
    {
      FinalFits(d, raws[0][i], raws[k][i], sizes[k][i], k);
    }
  }
}

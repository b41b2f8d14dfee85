/** Adler-32 with the modulo deferred to blocks of 5552 bytes. */
module Adler {
  import opened Bits
  import opened Inflate

  const NMAX: nat := 5552

  lemma AddMod(x: nat, y: nat, z: nat)
    requires x % 65521 == y % 65521
    ensures (x + z) % 65521 == (y + z) % 65521
  {
  }

  /** Two running pairs that agree modulo 65521 stay in agreement: the reduction may wait. */
  lemma {:induction false} AdlerSnoc(s1: nat, s2: nat, data: seq<byte>, b: byte)
    ensures AdlerFrom(s1, s2, data + [b]) ==
            (var (a, c) := AdlerFrom(s1, s2, data); ((a + b) % 65521, (c + (a + b) % 65521) % 65521))
    decreases |data|
  {
    if |data| == 0 {
      assert data + [b] == [b];
      assert [b][1..] == [];
    } else {
      var a := (s1 + data[0]) % 65521;
      AdlerSnoc(a, (s2 + a) % 65521, data[1..], b);
      assert (data + [b])[1..] == data[1..] + [b];
    }
  }

  lemma {:induction false} AdlerReduced(s1: nat, s2: nat, data: seq<byte>)
    requires s1 < 65521 && s2 < 65521
    ensures AdlerFrom(s1, s2, data).0 < 65521 && AdlerFrom(s1, s2, data).1 < 65521
    decreases |data|
  {
    if |data| != 0 {
      var a := (s1 + data[0]) % 65521;
      AdlerReduced(a, (s2 + a) % 65521, data[1..]);
    }
  }

  /** One more byte keeps the deferred sums congruent to the per-byte ones. */
  lemma AdlerStep(data: seq<byte>, k: nat, s1: nat, s2: nat)
    requires k < |data|
    requires s1 % 65521 == Adler32(data[..k]).0 && s2 % 65521 == Adler32(data[..k]).1
    ensures (s1 + data[k]) % 65521 == Adler32(data[..k + 1]).0
    ensures (s2 + (s1 + data[k])) % 65521 == Adler32(data[..k + 1]).1
  {
    assert data[..k + 1] == data[..k] + [data[k]];
    AdlerSnoc(1, 0, data[..k], data[k]);
    var (a, c) := Adler32(data[..k]);
    AdlerReduced(1, 0, data[..k]);
    DeferredStep(a, c, s1, s2, data[k]);
  }

  lemma DeferredStep(a: nat, c: nat, s1: nat, s2: nat, b: nat)
    requires s1 % 65521 == a % 65521 && s2 % 65521 == c % 65521
    ensures (s1 + b) % 65521 == (a + b) % 65521
    ensures (s2 + (s1 + b)) % 65521 == (c + (a + b) % 65521) % 65521
  {
    AddMod(s1, a, b);
    AddMod(s2, c, s1 + b);
    AddMod((a + b) % 65521, s1 + b, c);
  }

  function Triangle(n: nat): nat
  {
    if n == 0 then 0 else n + Triangle(n - 1)
  }

  lemma {:induction false} TriangleClosed(n: nat)
    ensures 2 * Triangle(n) == n * n + n
  {
    if n != 0 {
      TriangleClosed(n - 1);
      assert (n - 1) * (n - 1) == n * n - 2 * n + 1;
    }
  }

  /** Largest s2 after n bytes of a block that starts reduced. */
  function S2Bound(n: nat): nat
  {
    65520 * (n + 1) + 255 * Triangle(n)
  }

  lemma S2BoundStep(n: nat, s1: nat, s2: nat)
    requires n < NMAX && s1 <= 65520 + 255 * (n + 1) && s2 <= S2Bound(n)
    ensures s2 + s1 <= S2Bound(n + 1)
  {
  }

  lemma {:induction false} TriangleMono(m: nat, n: nat)
    requires m <= n
    ensures Triangle(m) <= Triangle(n)
  {
    if m < n {
      TriangleMono(m, n - 1);
    }
  }

  lemma S2BoundFits(n: nat)
    requires n <= NMAX
    ensures S2Bound(n) < 0x1_0000_0000
  {
    TriangleMono(n, NMAX);
    TriangleClosed(NMAX);
  }

  /** Sums one block without reducing; neither sum leaves 32 bits. */
  method SumBlock(data: seq<byte>, j: nat, blocklen: nat, a: nat, b: nat) returns (s1: nat, s2: nat)
    requires j + blocklen <= |data| && blocklen <= NMAX
    requires (a, b) == Adler32(data[..j]) && a < 65521 && b < 65521
    ensures (s1 % 65521, s2 % 65521) == Adler32(data[..j + blocklen])
    ensures s1 < 0x1_0000_0000 && s2 < 0x1_0000_0000
  {
    s1, s2 := a, b;
    for i := 0 to blocklen
      invariant s1 <= 65520 + 255 * i && s2 <= S2Bound(i)
      invariant s1 % 65521 == Adler32(data[..j + i]).0 && s2 % 65521 == Adler32(data[..j + i]).1
    {
      AdlerStep(data, j + i, s1, s2);
      s1 := s1 + data[j + i];
      S2BoundStep(i, s1, s2);
      s2 := s2 + s1;
    }
    S2BoundFits(blocklen);
  }

  /** The blockwise checksum is the per-byte checksum, whatever the length. */
  method Checksum(data: seq<byte>) returns (s1: nat, s2: nat)
    ensures (s1, s2) == Adler32(data) && s1 < 65521 && s2 < 65521
  {
    s1, s2 := 1, 0;
    var blocklen: nat := |data| % NMAX;
    var j := 0;
    ghost var blocks: nat, first := |data| / NMAX, true;
    assert data[..0] == [];
    while j < |data|
      invariant j <= |data| && blocklen <= NMAX
      invariant if first then j == 0 && |data| == blocklen + NMAX * blocks
                  else blocklen == NMAX && |data| - j == NMAX * blocks
      invariant (s1, s2) == Adler32(data[..j]) && s1 < 65521 && s2 < 65521
      decreases |data| - j, if blocklen == 0 then 1 else 0
    {
      assert j + blocklen <= |data|;
      blocks, first := if first then blocks else blocks - 1, false;
      s1, s2 := SumBlock(data, j, blocklen, s1, s2);
      s1, s2 := s1 % 65521, s2 % 65521;
      j := j + blocklen;
      blocklen := NMAX;
    }
    assert data[..j] == data;
  }
}

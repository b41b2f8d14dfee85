/** The match search of the DEFLATE writer: hash buckets of earlier positions, a 32K window,
    and one step of lazy matching. */
module Lz77 {
  import opened Bits
  import opened Inflate
  import opened DeflateCodes

  const ZHASH: nat := 16384

  type Positions = seq<nat>

  /** Hash of three bytes, reduced to a bucket number. */
  function Hash(a: byte, b: byte, c: byte): (h: nat)
    ensures h < ZHASH
  {
    var h0 := Mask32(a + 256 * b + 0x1_0000 * c);
    var h1 := BitXor(h0, Mask32(8 * h0));
    var h2 := Mask32(h1 + h1 / 32);
    var h3 := BitXor(h2, Mask32(16 * h2));
    var h4 := Mask32(h3 + h3 / 0x2_0000);
    var h5 := BitXor(h4, Mask32(0x200_0000 * h4));
    var h6 := Mask32(h5 + h5 / 64);
    h6 % ZHASH
  }

  /** The low 32 bits. */
  function Mask32(v: nat): nat
  {
    v % 0x1_0000_0000
  }

  method HashAt(data: seq<byte>, i: nat) returns (h: nat)
    requires i + 2 < |data|
    ensures h < ZHASH
  {
    h := Hash(data[i], data[i + 1], data[i + 2]);
  }

  /** How many bytes from p on repeat those from i on, starting the count at k. */
  function MatchLen(data: seq<byte>, p: nat, i: nat, k: nat): (d: nat)
    requires p <= i && i + k <= |data| && k <= 258
    ensures k <= d <= 258 && i + d <= |data|
    decreases |data|, 258 - k
  {
    if i + k < |data| && k < 258 && data[p + k] == data[i + k] then MatchLen(data, p, i, k + 1) else k
  }

  /** Length of the match between an earlier position p and i. */
  function Match(data: seq<byte>, p: nat, i: nat): (d: nat)
    requires p <= i <= |data|
    ensures d <= 258 && i + d <= |data|
  {
    MatchLen(data, p, i, 0)
  }

  lemma {:induction false} MatchAgrees(data: seq<byte>, p: nat, i: nat, k: nat)
    requires p <= i && i + k <= |data| && k <= 258
    ensures forall j :: i + k <= j < i + MatchLen(data, p, i, k) ==> data[j] == data[j - i + p]
    decreases 258 - k
  {
    if i + k < |data| && k < 258 && data[p + k] == data[i + k] {
      MatchAgrees(data, p, i, k + 1);
    }
  }

  predicate Earlier(ps: Positions, i: nat)
  {
    forall j :: 0 <= j < |ps| ==> ps[j] < i
  }

  method CountMatch(data: seq<byte>, p: nat, i: nat) returns (d: nat)
    requires p <= i <= |data|
    ensures d == Match(data, p, i)
  {
    d := 0;
    while i + d < |data| && d < 258
      invariant i + d <= |data| && d <= 258 && MatchLen(data, p, i, d) == Match(data, p, i)
    {
      if data[p + d] != data[i + d] {
        break;
      }
      d := d + 1;
    }
  }

  /** The longest match of at least 3 bytes in a bucket, within the window. */
  method LongestMatch(data: seq<byte>, i: nat, bucket: Positions) returns (best: nat, loc: Option<nat>)
    requires i <= |data| && Earlier(bucket, i)
    ensures loc.Some? ==> loc.value in bucket && i - loc.value < 32768 && best == Match(data, loc.value, i) && best >= 3
    ensures forall p :: p in bucket && i - p < 32768 ==>
              if loc.Some? then Match(data, p, i) <= best else Match(data, p, i) < 3
  {
    best, loc := 3, None;
    for j := 0 to |bucket|
      invariant loc.Some? ==> loc.value in bucket && i - loc.value < 32768 && best == Match(data, loc.value, i)
      invariant best >= 3 && (loc.None? ==> best == 3)
      invariant forall k :: 0 <= k < j && i - bucket[k] < 32768 ==>
                  Match(data, bucket[k], i) <= best && (loc.None? ==> Match(data, bucket[k], i) < best)
    {
      assert bucket[j] in bucket;
      if bucket[j] > i - 32768 {
        var d := CountMatch(data, bucket[j], i);
        if d >= best {
          best, loc := d, Some(bucket[j]);
        }
      }
    }
  }

  /** Whether some entry of the bucket for the next byte matches longer than `best`. */
  method NextIsBetter(data: seq<byte>, i: nat, bucket: Positions, best: nat) returns (better: bool)
    requires i < |data| && Earlier(bucket, i + 1)
    ensures better <==> exists p :: p in bucket && i + 1 - p < 32768 && Match(data, p, i + 1) > best
  {
    better := false;
    for j := 0 to |bucket|
      invariant forall k :: 0 <= k < j && i + 1 - bucket[k] < 32768 ==> Match(data, bucket[k], i + 1) <= best
    {
      assert bucket[j] in bucket;
      if bucket[j] > i - 32767 {
        var e := CountMatch(data, bucket[j], i + 1);
        if e > best {
          return true;
        }
      }
    }
  }

  /** Replaying a match on what precedes it reproduces the data. */
  lemma MatchReplays(data: seq<byte>, p: nat, i: nat)
    requires p < i <= |data|
    ensures Apply(data[..i], Token.Match(Match(data, p, i), i - p)) == Some(data[..i + Match(data, p, i)])
  {
    var len := Match(data, p, i);
    MatchAgrees(data, p, i, 0);
    assert data[i - (i - p)..i - (i - p) + len] == data[i..i + len];
    CopyExtends(data, i, len, i - p);
  }

  /** How far a token advances. */
  function Advance(t: Token): nat
  {
    if t.Literal? then 1 else t.len
  }

  /** All positions recorded in the table precede i. */
  ghost predicate TableBefore(table: array<Positions>, i: nat)
    reads table
  {
    table.Length == ZHASH && forall h :: 0 <= h < ZHASH ==> Earlier(table[h], i)
  }

  /** No bucket holds more than twice the quality. */
  ghost predicate TableBounded(table: array<Positions>, quality: nat)
    reads table
  {
    table.Length == ZHASH && forall h :: 0 <= h < ZHASH ==> |table[h]| <= 2 * quality
  }

  lemma TableGrows(table: array<Positions>, i: nat, k: nat)
    requires TableBefore(table, i) && i <= k
    ensures TableBefore(table, k)
  {
    forall h | 0 <= h < ZHASH
      ensures Earlier(table[h], k)
    {
      assert Earlier(table[h], i);
    }
  }

  /** Records i in its bucket, first dropping the older half of a full one. */
  method Record(table: array<Positions>, h: nat, i: nat, quality: nat)
    requires TableBefore(table, i) && TableBounded(table, quality) && h < ZHASH && quality > 0
    modifies table
    ensures TableBefore(table, i + 1) && TableBounded(table, quality)
    ensures forall k :: 0 <= k < ZHASH && k != h ==> table[k] == old(table[k])
    ensures table[h] == (if |old(table[h])| == 2 * quality then old(table[h])[quality..] else old(table[h])) + [i]
  {
    assert Earlier(table[h], i);
    if |table[h]| == 2 * quality {
      table[h] := table[h][quality..];
    }
    table[h] := table[h] + [i];
    forall k | 0 <= k < ZHASH
      ensures Earlier(table[k], i + 1)
    {
      assert k != h ==> Earlier(old(table[k]), i);
    }
  }

  /** Decides the token for position i, whose bucket is h and whose successor's bucket is hn.
      A match is the longest one in its bucket's window; a literal is sent only when there
      is none, or when the next byte starts a longer one. */
  method ChooseToken(data: seq<byte>, i: nat, h: nat, hn: nat, table: array<Positions>, quality: nat) returns (t: Token)
    requires i + 3 < |data| && TableBefore(table, i) && h < ZHASH && hn < ZHASH
    requires TableBounded(table, quality) && quality > 0
    modifies table
    ensures TableBefore(table, i + 1) && TableBounded(table, quality)
    ensures ValidToken(t) && i + Advance(t) <= |data| && Apply(data[..i], t) == Some(data[..i + Advance(t)])
    ensures forall p :: p in old(table[h]) && i - p < 32768 && Match(data, p, i) >= 3 ==>
              if t.Match? then t.len >= Match(data, p, i)
              else exists q :: q in table[hn] && Match(data, q, i + 1) > Match(data, p, i)
  {
    var best, loc := LongestMatch(data, i, table[h]);
    Record(table, h, i, quality);
    if loc.Some? {
      var better := NextIsBetter(data, i, table[hn], best);
      if !better {
        MatchReplays(data, loc.value, i);
        return Token.Match(best, i - loc.value);
      }
    }
    assert data[..i] + [data[i]] == data[..i + 1];
    t := Literal(data[i]);
  }
}

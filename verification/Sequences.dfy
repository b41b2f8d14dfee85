/** Small facts about sequences used by the run-length writers. */
module Sequences {
  import opened Bits

  function Repeat<T>(x: T, n: nat): (r: seq<T>)
    ensures |r| == n
  {
    seq(n, _ => x)
  }

  /** All pixels' bytes one after the other. */
  function Flatten(pixels: seq<seq<byte>>): seq<byte>
  {
    if |pixels| == 0 then [] else Flatten(pixels[..|pixels| - 1]) + pixels[|pixels| - 1]
  }

  lemma {:induction false} FlattenConcat(a: seq<seq<byte>>, b: seq<seq<byte>>)
    ensures Flatten(a + b) == Flatten(a) + Flatten(b)
    decreases |b|
  {
    if |b| == 0 {
      assert a + b == a;
    } else {
      var n := |b| - 1;
      assert (a + b)[..|a| + n] == a + b[..n];
      FlattenConcat(a, b[..n]);
      ConcatAssoc(Flatten(a), Flatten(b[..n]), b[n]);
    }
  }

  lemma FlattenOne(p: seq<byte>)
    ensures Flatten([p]) == p
  {
    assert [p][..0] == [];
  }

  lemma FlattenHead(pixels: seq<seq<byte>>)
    requires |pixels| > 0
    ensures Flatten(pixels) == pixels[0] + Flatten(pixels[1..])
  {
    assert pixels == [pixels[0]] + pixels[1..];
    FlattenConcat([pixels[0]], pixels[1..]);
    FlattenOne(pixels[0]);
  }
}

/** The demangler's bump allocator: a list of blocks, each beginning with a 16-byte header, the one
    at the head being filled from the bottom. Addresses are numbers, 0 is the null pointer. */
module Bump {
  import opened Bits

  const HEADER := 16
  const BLOCK := 4096
  const USABLE := BLOCK - HEADER

  /** Rounding up to a multiple of 16; the mask has 32 bits. */
  function Round(n: nat): (r: nat)
    ensures r % 16 == 0
  {
    (n + 15) % 0x1_0000_0000 / 16 * 16
  }

  /** Exactly when the rounded size is enough: requests of at most 4 GiB - 16. */
  lemma RoundCovers(n: nat)
    ensures Round(n) >= n <==> n <= 0xFFFF_FFF0
  {
    var m := (n + 15) % 0x1_0000_0000;
    assert Round(n) <= m && m - Round(n) < 16;
    if n <= 0xFFFF_FFF0 {
      assert m == n + 15;
    } else {
      assert m <= n + 15 - 0x1_0000_0000;
    }
  }

  /** Memory handed out: the block it lies in, its address and its size. */
  datatype Region = Region(block: nat, addr: nat, size: nat)

  predicate Apart(a: nat, n: nat, b: nat, m: nat)
  {
    a + n <= b || b + m <= a
  }

  // ----- invariants

  /** The list of blocks runs through `next` from the head to null, without repetition. */
  ghost predicate Linked(head: nat, next: map<nat, nat>, list: seq<nat>)
  {
    && |list| > 0 && list[0] == head
    && (forall i :: 0 <= i < |list| ==> list[i] > 0 && list[i] in next)
    && (forall i :: 0 <= i < |list| ==> next[list[i]] == if i + 1 < |list| then list[i + 1] else 0)
    && (forall i, j :: 0 <= i < j < |list| ==> list[i] != list[j])
  }

  /** Blocks are big enough for their header and do not overlap. */
  ghost predicate Blocks(list: seq<nat>, sizes: map<nat, nat>)
  {
    && (forall b :: b in sizes <==> b in list)
    && (forall b :: b in sizes ==> sizes[b] >= HEADER)
    && (forall b, c :: b in sizes && c in sizes && b != c ==> Apart(b, sizes[b], c, sizes[c]))
  }

  /** A region is a multiple of 16 bytes inside one block, above its header. */
  ghost predicate Inside(r: Region, sizes: map<nat, nat>)
  {
    r.block in sizes && r.block + HEADER <= r.addr && r.addr + r.size <= r.block + sizes[r.block] && r.size % 16 == 0
        && (r.addr - r.block) % 16 == 0
  }

  ghost predicate Disjoint(regions: seq<Region>)
  {
    forall i, j :: 0 <= i < j < |regions| ==> Apart(regions[i].addr, regions[i].size, regions[j].addr, regions[j].size)
  }

  /** Regions of the head block lie below its bump pointer. */
  ghost predicate Below(regions: seq<Region>, head: nat, current: nat)
  {
    forall i :: 0 <= i < |regions| && regions[i].block == head ==>
        regions[i].addr + regions[i].size <= head + HEADER + current
  }

  ghost predicate AllInside(regions: seq<Region>, sizes: map<nat, nat>)
  {
    forall i :: 0 <= i < |regions| ==> Inside(regions[i], sizes)
  }

  /** No region touches any block's header. */
  lemma ClearOfHeaders(regions: seq<Region>, list: seq<nat>, sizes: map<nat, nat>, i: nat, b: nat)
    requires Blocks(list, sizes) && AllInside(regions, sizes) && i < |regions| && b in sizes
    ensures Apart(regions[i].addr, regions[i].size, b, HEADER)
  {
    var r := regions[i];
    assert Inside(r, sizes);
    if r.block != b {
      assert Apart(r.block, sizes[r.block], b, sizes[b]);
    }
  }

  /** A region of the head block above the bump pointer is apart from all others. */
  lemma AddRegion(regions: seq<Region>, list: seq<nat>, sizes: map<nat, nat>, r: Region, current: nat)
    requires Blocks(list, sizes) && AllInside(regions, sizes) && Disjoint(regions) && Below(regions, r.block, current)
    requires Inside(r, sizes) && r.addr >= r.block + HEADER + current
    ensures AllInside(regions + [r], sizes) && Disjoint(regions + [r])
    ensures Below(regions + [r], r.block, r.addr + r.size - r.block - HEADER)
  {
    forall i | 0 <= i < |regions|
      ensures Apart(regions[i].addr, regions[i].size, r.addr, r.size)
    {
      var q := regions[i];
      assert Inside(q, sizes);
      if q.block != r.block {
        assert Apart(q.block, sizes[q.block], r.block, sizes[r.block]);
      }
    }
  }

  /** The head block is being filled and its bump pointer is at `current`. */
  ghost predicate Filling(head: nat, current: nat, sizes: map<nat, nat>, regions: seq<Region>)
  {
    head in sizes && sizes[head] == BLOCK && current <= USABLE && current % 16 == 0 && Below(regions, head, current)
  }

  /** Every block obtained is either released or in the list, besides the initial buffer. */
  ghost predicate Accounted(initial: nat, list: seq<nat>, mallocs: seq<nat>, frees: seq<nat>)
  {
    initial in list && multiset(mallocs) + multiset{initial} == multiset(frees) + multiset(list)
  }

  // ----- a new block

  lemma Follower(head: nat, next: map<nat, nat>, list: seq<nat>, i: nat)
    requires Linked(head, next, list) && i < |list|
    ensures list[i] > 0 && list[i] in next && next[list[i]] == if i < |list| - 1 then list[i + 1] else 0
  {
  }

  lemma LinkFront(head: nat, next: map<nat, nat>, list: seq<nat>, p: nat)
    requires Linked(head, next, list) && p > 0 && p !in list
    ensures Linked(p, next[p := head], [p] + list)
  {
    var l, nx := [p] + list, next[p := head];
    forall i | 0 <= i < |l|
      ensures l[i] > 0 && l[i] in nx && nx[l[i]] == if i + 1 < |l| then l[i + 1] else 0
    {
      if i > 0 {
        Follower(head, next, list, i - 1);
        assert l[i] == list[i - 1] && list[i - 1] in list;
      }
    }
    forall i, j | 0 <= i < j < |l|
      ensures l[i] != l[j]
    {
      assert l[j] == list[j - 1] && list[j - 1] in list;
      if i > 0 {
        assert l[i] == list[i - 1];
      }
    }
  }

  /** Linking a block in behind the head. */
  lemma LinkSecond(head: nat, next: map<nat, nat>, list: seq<nat>, p: nat)
    requires Linked(head, next, list) && p > 0 && p !in list
    ensures Linked(head, next[p := next[head]][head := p], [head, p] + list[1..])
  {
    var l, nx := [head, p] + list[1..], next[p := next[head]][head := p];
    forall i | 0 <= i < |l|
      ensures l[i] > 0 && l[i] in nx && nx[l[i]] == if i + 1 < |l| then l[i + 1] else 0
    {
      if i > 1 {
        Follower(head, next, list, i - 1);
        assert l[i] == list[i - 1] && list[i - 1] in list && list[i - 1] != list[0];
      } else {
        Follower(head, next, list, 0);
      }
    }
    forall i, j | 0 <= i < j < |l|
      ensures l[i] != l[j]
    {
      if j > 1 {
        assert l[j] == list[j - 1] && list[j - 1] in list;
        if i > 1 {
          assert l[i] == list[i - 1];
        }
      }
    }
  }

  lemma AddBlock(list: seq<nat>, sizes: map<nat, nat>, p: nat, n: nat, list': seq<nat>)
    requires Blocks(list, sizes) && n >= HEADER && forall b :: b in sizes ==> Apart(p, n, b, sizes[b])
    requires forall b :: b in list' <==> b == p || b in list
    ensures p !in sizes && p !in list && Blocks(list', sizes[p := n])
  {
    forall b | b in sizes ensures b != p { assert Apart(p, n, b, sizes[b]); }
  }

  lemma StillInside(regions: seq<Region>, sizes: map<nat, nat>, p: nat, n: nat)
    requires AllInside(regions, sizes) && p !in sizes
    ensures AllInside(regions, sizes[p := n]) && forall i :: 0 <= i < |regions| ==> regions[i].block != p
  {
    forall i | 0 <= i < |regions| ensures Inside(regions[i], sizes[p := n])
        && regions[i].block != p { assert Inside(regions[i], sizes); }
  }

  lemma AccountedAlso(initial: nat, list: seq<nat>, mallocs: seq<nat>, frees: seq<nat>, p: nat, list': seq<nat>)
    requires Accounted(initial, list, mallocs, frees) && multiset(list') == multiset(list) + multiset{p}
    ensures Accounted(initial, list', mallocs + [p], frees)
  {
    assert multiset(mallocs + [p]) == multiset(mallocs) + multiset{p};
    assert initial in multiset(list);
    assert multiset(list')[initial] > 0 && initial in multiset(list');
    AddBoth(multiset(mallocs), multiset{initial}, multiset(frees), multiset(list), multiset{p});
  }

  lemma AddBoth(a: multiset<nat>, i: multiset<nat>, f: multiset<nat>, l: multiset<nat>, q: multiset<nat>)
    requires a + i == f + l
    ensures (a + q) + i == f + (l + q)
  {
    assert (a + q) + i == (a + i) + q;
    assert f + (l + q) == (f + l) + q;
  }

  /** The blocks among the first n that came from `malloc`, in list order. */
  function Obtained(list: seq<nat>, initial: nat, n: nat): seq<nat>
    requires n <= |list|
    decreases n
  {
    if n == 0 then [] else Obtained(list, initial, n - 1) + if list[n - 1] == initial then [] else [list[n - 1]]
  }

  lemma {:induction false} ObtainedAre(list: seq<nat>, initial: nat, n: nat)
    requires n <= |list|
    ensures forall b :: b in Obtained(list, initial, n) ==> b != initial && b in list
    decreases n
  {
    if n > 0 {
      ObtainedAre(list, initial, n - 1);
    }
  }

  /** All blocks of the list but the initial buffer. */
  lemma {:induction false} ObtainedSplit(list: seq<nat>, initial: nat, k: nat, n: nat)
    requires k < |list| && list[k] == initial && n <= |list| && forall i, j :: 0 <= i < j < |list| ==>
               list[i] != list[j]
    ensures Obtained(list, initial, n) == if n <= k then list[..n] else list[..k] + list[k + 1..n]
    decreases n
  {
    if n > 0 {
      ObtainedSplit(list, initial, k, n - 1);
      if n - 1 < k {
        assert list[..n] == list[..n - 1] + [list[n - 1]];
      } else if n - 1 > k {
        assert list[k + 1..n] == list[k + 1..n - 1] + [list[n - 1]];
        ConcatAssoc(list[..k], list[k + 1..n - 1], [list[n - 1]]);
      } else {
        assert list[..k] + list[k + 1..n] == list[..k];
      }
    }
  }

  lemma SplitMultiset(a: seq<nat>, x: nat, b: seq<nat>)
    ensures multiset(a + b) + multiset{x} == multiset(a + [x] + b)
  {
  }

  /** Releasing all obtained blocks of the list settles the account. */
  lemma AllReleased(initial: nat, list: seq<nat>, mallocs: seq<nat>, frees: seq<nat>)
    requires Accounted(initial, list, mallocs, frees) && forall i, j :: 0 <= i < j < |list| ==> list[i] != list[j]
    ensures multiset(frees + Obtained(list, initial, |list|)) == multiset(mallocs)
  {
    var o, k := Obtained(list, initial, |list|), Find(list, initial);
    ObtainedSplit(list, initial, k, |list|);
    assert list == list[..k] + [initial] + list[k + 1..] && list[k + 1..|list|] == list[k + 1..];
    SplitMultiset(list[..k], initial, list[k + 1..]);
    assert multiset(frees + o) == multiset(frees) + multiset(o);
    CancelInitial(multiset(mallocs), multiset{initial}, multiset(frees), multiset(o), multiset(list));
  }

  ghost function Find(list: seq<nat>, x: nat): (k: nat)
    requires x in list
    ensures k < |list| && list[k] == x
  {
    var k :| 0 <= k < |list| && list[k] == x;
    k
  }

  lemma CancelInitial(m: multiset<nat>, i: multiset<nat>, f: multiset<nat>, o: multiset<nat>, l: multiset<nat>)
    requires m + i == f + l && o + i == l
    ensures f + o == m
  {
    assert (f + o) + i == m + i;
    assert (f + o) == (f + o) + i - i;
    assert m == m + i - i;
  }

  lemma FrontMultiset(list: seq<nat>, p: nat)
    ensures multiset([p] + list) == multiset(list) + multiset{p}
  {
  }

  lemma SecondMultiset(list: seq<nat>, p: nat)
    requires |list| > 0
    ensures multiset([list[0], p] + list[1..]) == multiset(list) + multiset{p}
    ensures forall b :: b in [list[0], p] + list[1..] <==> b == p || b in list
  {
    var l := [list[0], p] + list[1..];
    assert list == [list[0]] + list[1..];
    assert l == [list[0], p] + list[1..];
    assert multiset(l) == multiset{list[0], p} + multiset(list[1..]);
    forall b ensures b in l <==>
        b == p || b in list { assert b in l <==> b in multiset(l); assert b in list <==> b in multiset(list); }
  }

  // ----- the allocator's state and its steps

  /** The fields of the allocator, the blocks in use with their sizes and in list order, the memory
      handed out since the last reset, and all blocks obtained and released so far. */
  datatype State = State(initial: nat, head: nat, next: map<nat, nat>, current: map<nat, nat>, sizes: map<nat, nat>,
      list: seq<nat>, regions: seq<Region>, mallocs: seq<nat>, frees: seq<nat>)

  /** What holds between calls. */
  ghost predicate Invariant(s: State)
  {
    && Linked(s.head, s.next, s.list) && Blocks(s.list, s.sizes)
    && s.initial in s.sizes && s.sizes[s.initial] == BLOCK
    && AllInside(s.regions, s.sizes) && Disjoint(s.regions)
    && s.head in s.current && Filling(s.head, s.current[s.head], s.sizes, s.regions)
    && Accounted(s.initial, s.list, s.mallocs, s.frees)
  }

  /** Memory `malloc` may return: apart from every block in use. */
  ghost predicate Available(p: nat, n: nat, sizes: map<nat, nat>)
  {
    p > 0 && forall b :: b in sizes ==> Apart(p, n, b, sizes[b])
  }

  /** A fresh block p at the head. */
  ghost function Grown(s: State, p: nat): State
  {
    s.(head := p, next := s.next[p := s.head], current := s.current[p := 0], sizes := s.sizes[p := BLOCK],
        list := [p] + s.list, mallocs := s.mallocs + [p])
  }

  lemma GrowKeeps(s: State, p: nat)
    requires Invariant(s) && Available(p, BLOCK, s.sizes)
    ensures Invariant(Grown(s, p))
  {
    AddBlock(s.list, s.sizes, p, BLOCK, [p] + s.list);
    LinkFront(s.head, s.next, s.list, p);
    StillInside(s.regions, s.sizes, p, BLOCK);
    FrontMultiset(s.list, p);
    AccountedAlso(s.initial, s.list, s.mallocs, s.frees, p, [p] + s.list);
  }

  /** A block p behind the head, all of it one region. */
  ghost function Enlarged(s: State, p: nat, size: nat, r: Region): State
    requires |s.list| > 0 && s.head in s.next
  {
    s.(next := s.next[p := s.next[s.head]][s.head := p], sizes := s.sizes[p := size], list := [s.head, p] + s.list[1..],
       regions := s.regions + [r], mallocs := s.mallocs + [p])
  }

  lemma EnlargeBlocks(s: State, p: nat, size: nat, list': seq<nat>)
    requires Invariant(s) && size >= HEADER && Available(p, size, s.sizes) && list' == [s.head, p] + s.list[1..]
    ensures p !in s.sizes && Blocks(list', s.sizes[p := size]) && Accounted(s.initial, list', s.mallocs + [p], s.frees)
    ensures Linked(s.head, s.next[p := s.next[s.head]][s.head := p], list')
  {
    SecondMultiset(s.list, p);
    AccountedAlso(s.initial, s.list, s.mallocs, s.frees, p, list');
    AddBlock(s.list, s.sizes, p, size, list');
    LinkSecond(s.head, s.next, s.list, p);
  }

  lemma EnlargeRegions(s: State, p: nat, size: nat, list': seq<nat>, r: Region)
    requires Invariant(s) && p !in s.sizes && Blocks(list', s.sizes[p := size])
    requires r.block == p && r.addr == p + HEADER && r.size + HEADER == size && r.size % 16 == 0
    ensures AllInside(s.regions + [r], s.sizes[p := size]) && Disjoint(s.regions + [r])
    ensures Filling(s.head, s.current[s.head], s.sizes[p := size], s.regions + [r])
  {
    StillInside(s.regions, s.sizes, p, size);
    AddRegion(s.regions, list', s.sizes[p := size], r, 0);
  }

  lemma EnlargeKeeps(s: State, p: nat, size: nat, r: Region)
    requires Invariant(s) && Available(p, size, s.sizes)
    requires r.block == p && r.addr == p + HEADER && r.size + HEADER == size && r.size % 16 == 0
    ensures Invariant(Enlarged(s, p, size, r))
  {
    EnlargeBlocks(s, p, size, [s.head, p] + s.list[1..]);
    EnlargeRegions(s, p, size, [s.head, p] + s.list[1..], r);
  }

  /** A block of its own for n bytes. */
  ghost function Oversized(s: State, p: nat, n: nat): State
    requires |s.list| > 0 && s.head in s.next
  {
    Enlarged(s, p, n + HEADER, Region(p, p + HEADER, n))
  }

  lemma OversizeKeeps(s: State, p: nat, n: nat)
    requires Invariant(s) && n % 16 == 0 && Available(p, n + HEADER, s.sizes)
    ensures Invariant(Oversized(s, p, n))
  {
    EnlargeKeeps(s, p, n + HEADER, Region(p, p + HEADER, n));
  }

  /** n bytes more of the head block. */
  ghost function Bumped(s: State, n: nat): State
    requires s.head in s.current
  {
    s.(current := s.current[s.head := s.current[s.head] + n],
        regions := s.regions + [Region(s.head, s.head + HEADER + s.current[s.head], n)])
  }

  lemma BumpKeeps(s: State, n: nat)
    requires Invariant(s) && n % 16 == 0 && s.current[s.head] + n <= USABLE
    ensures Invariant(Bumped(s, n))
  {
    AddRegion(s.regions, s.list, s.sizes, Region(s.head, s.head + HEADER + s.current[s.head], n), s.current[s.head]);
  }

  /** Everything released. */
  ghost function Cleared(s: State): State
  {
    s.(head := s.initial, next := s.next[s.initial := 0], current := s.current[s.initial := 0],
        sizes := map[s.initial := BLOCK],
       list := [s.initial], regions := [], frees := s.frees + Obtained(s.list, s.initial, |s.list|))
  }

  /** A reset releases each block obtained exactly once, and never the initial buffer. */
  lemma ClearKeeps(s: State)
    requires Invariant(s)
    ensures Invariant(Cleared(s)) && multiset(Cleared(s).frees) == multiset(s.mallocs)
    ensures s.initial !in Obtained(s.list, s.initial, |s.list|)
  {
    AllReleased(s.initial, s.list, s.mallocs, s.frees);
    ObtainedAre(s.list, s.initial, |s.list|);
  }

  /** How much a request makes the allocator obtain, 0 if the head block has room. */
  function Needs(n: nat, current: nat): nat
  {
    if Round(n) + current < USABLE then 0 else if Round(n) > USABLE then Round(n) + HEADER else BLOCK
  }

  /** The state after a request for n bytes, p being what `malloc` returns if it is called. */
  ghost function Allocated(s: State, n: nat, p: nat): State
    requires Invariant(s)
  {
    if Round(n) + s.current[s.head] < USABLE then Bumped(s, Round(n))
    else if Round(n) > USABLE then Oversized(s, p, Round(n))
    else Bumped(Grown(s, p), Round(n))
  }

  /** Every request keeps the invariant, adds one region of the rounded size and obtains at most one
      block; an oversized one leaves the bump block at the head. */
  lemma AllocateKeeps(s: State, n: nat, p: nat)
    requires Invariant(s) && (Needs(n, s.current[s.head]) > 0 ==> Available(p, Needs(n, s.current[s.head]), s.sizes))
    ensures Invariant(Allocated(s, n, p))
    ensures var t := Allocated(s, n, p);
            && |t.regions| == |s.regions| + 1 && t.regions[..|s.regions|] == s.regions
                && t.regions[|s.regions|].size == Round(n)
            && t.mallocs == (if Needs(n, s.current[s.head]) > 0 then s.mallocs + [p]
                else s.mallocs) && t.frees == s.frees
            && (Round(n) > USABLE ==> t.head == s.head && t.current == s.current)
  {
    if Round(n) + s.current[s.head] < USABLE {
      BumpKeeps(s, Round(n));
    } else if Round(n) > USABLE {
      OversizeKeeps(s, p, Round(n));
    } else {
      GrowKeeps(s, p);
      BumpKeeps(Grown(s, p), Round(n));
    }
  }

  // ----- runs

  datatype Request = Take(n: nat, p: nat) | Reset

  /** `malloc`, if called, returns memory not in use. */
  ghost predicate Allowed(s: State, q: Request)
  {
    q.Take? && s.head in s.current && Needs(q.n, s.current[s.head]) > 0 ==>
        Available(q.p, Needs(q.n, s.current[s.head]), s.sizes)
  }

  ghost function After(s: State, q: Request): State
  {
    if !Invariant(s) then s else if q.Take? then Allocated(s, q.n, q.p) else Cleared(s)
  }

  ghost predicate Reaches(s: State, qs: seq<Request>, t: State)
    decreases |qs|
  {
    if |qs| == 0 then s == t else Allowed(s, qs[0]) && Reaches(After(s, qs[0]), qs[1..], t)
  }

  /** After any run of requests and resets the memory handed out since the last reset is pairwise
      disjoint, inside blocks and clear of their headers. */
  lemma {:induction false} RunKeeps(s: State, qs: seq<Request>, t: State)
    requires Invariant(s) && Reaches(s, qs, t)
    ensures Invariant(t)
    ensures forall i, b :: 0 <= i < |t.regions| && b in t.sizes ==>
              Apart(t.regions[i].addr, t.regions[i].size, b, HEADER)
    decreases |qs|
  {
    if |qs| == 0 {
      forall i, b | 0 <= i < |t.regions|
          && b in t.sizes ensures Apart(t.regions[i].addr, t.regions[i].size, b,
              HEADER) { ClearOfHeaders(t.regions, t.list, t.sizes, i, b); }
    } else {
      if qs[0].Take? {
        AllocateKeeps(s, qs[0].n, qs[0].p);
      } else {
        ClearKeeps(s);
      }
      RunKeeps(After(s, qs[0]), qs[1..], t);
    }
  }

  class BumpPointerAllocator {
    const initial: nat
    var blockList: nat
    var next: map<nat, nat>
    var current: map<nat, nat>
    ghost var sizes: map<nat, nat>
    ghost var list: seq<nat>
    ghost var regions: seq<Region>
    ghost var mallocs: seq<nat>
    ghost var frees: seq<nat>

    ghost function View(): State
      reads this
    {
      State(initial, blockList, next, current, sizes, list, regions, mallocs, frees)
    }

    ghost predicate Valid()
      reads this
    {
      Invariant(View())
    }

    constructor (initialBuffer: nat)
      requires initialBuffer > 0
      ensures Valid() && regions == [] && mallocs == [] && frees == [] && initial == initialBuffer
    {
      initial, blockList := initialBuffer, initialBuffer;
      next, current := map[initialBuffer := 0], map[initialBuffer := 0];
      sizes, list, regions, mallocs, frees := map[initialBuffer := BLOCK], [initialBuffer], [], [], [];
    }

    method Grow(p: nat)
      requires Valid() && Available(p, BLOCK, sizes)
      modifies this
      ensures View() == Grown(old(View()), p)
    {
      next, current := next[p := blockList], current[p := 0];
      blockList := p;
      list, sizes, mallocs := [p] + list, sizes[p := BLOCK], mallocs + [p];
    }

    method AllocateMassive(n: nat, p: nat) returns (q: nat)
      requires Valid() && n % 16 == 0 && Available(p, n + HEADER, sizes)
      modifies this
      ensures q == p + HEADER && View() == Oversized(old(View()), p, n)
    {
      q := p + HEADER;
      next := next[p := next[blockList]][blockList := p];
      list, sizes, mallocs := [blockList, p] + list[1..], sizes[p := n + HEADER], mallocs + [p];
      regions := regions + [Region(p, p + HEADER, n)];
    }

    method Bump(size: nat) returns (q: nat)
      requires blockList in current
      modifies this`current, this`regions
      ensures View() == Bumped(old(View()), size) && q == blockList + HEADER + old(current[blockList])
    {
      regions := regions + [Region(blockList, blockList + HEADER + current[blockList], size)];
      current := current[blockList := current[blockList] + size];
      q := blockList + HEADER + current[blockList] - size;
    }

    /** Memory for n bytes at q, large enough for every request up to 4 GiB - 16. */
    method Allocate(n: nat, p: nat) returns (q: nat)
      requires Valid() && (Needs(n, current[blockList]) > 0 ==> Available(p, Needs(n, current[blockList]), sizes))
      modifies this
      ensures Valid() && View() == Allocated(old(View()), n, p)
      ensures |regions| == |old(regions)| + 1 && q == regions[|old(regions)|].addr
      ensures (Round(n) >= n <==> n <= 0xFFFF_FFF0)
    {
      ghost var s := View();
      RoundCovers(n);
      AllocateKeeps(s, n, p);
      q := Take(Round(n), p);
      assert View() == Allocated(s, n, p);
    }

    method Take(size: nat, p: nat) returns (q: nat)
      requires Valid() && size % 16 == 0
      requires size + current[blockList] >= USABLE ==>
                 Available(p, if size > USABLE then size + HEADER else BLOCK, sizes)
      modifies this
      ensures View() == (if size + old(current[blockList]) < USABLE then Bumped(old(View()), size)
                         else if size > USABLE then Oversized(old(View()), p, size)
                         else Bumped(Grown(old(View()), p), size))
      ensures |regions| == |old(regions)| + 1 && q == regions[|old(regions)|].addr
    {
      if size + current[blockList] >= USABLE {
        if size > USABLE {
          q := AllocateMassive(size, p);
          return;
        }
        Grow(p);
      }
      q := Bump(size);
    }

    /** Walks the list to its end, releasing all blocks but the initial buffer. */
    method FreeBlocks()
      requires Valid()
      modifies this`blockList, this`frees
      ensures blockList == 0 && frees == old(frees) + Obtained(list, initial, |list|)
    {
      ghost var i := 0;
      assert frees + [] == frees;
      while blockList != 0
        invariant i <= |list| && blockList == (if i < |list| then list[i] else 0)
        invariant frees == old(frees) + Obtained(list, initial, i)
        decreases |list| - i
      {
        var tmp := blockList;
        Follower(old(blockList), next, list, i);
        blockList := next[blockList];
        if tmp != initial {
          frees := frees + [tmp];
        }
        i := i + 1;
      }
    }

    method Restart()
      requires initial in sizes
      modifies this
      ensures View() == old(View()).(head := initial, next := old(next)[initial := 0],
                current := old(current)[initial := 0], sizes := map[initial := BLOCK], list := [initial], regions := [])
    {
      blockList := initial;
      next, current := next[initial := 0], current[initial := 0];
      sizes, list, regions := map[initial := BLOCK], [initial], [];
    }

    method Reset()
      requires Valid()
      modifies this
      ensures Valid() && View() == Cleared(old(View())) && multiset(frees) == multiset(mallocs)
    {
      ghost var s := View();
      ClearKeeps(s);
      FreeBlocks();
      Restart();
      assert View() == Cleared(s);
    }
  }
}

/** One thread's log ring: a producer that refuses to overrun the last mark, and a flip thread
    that marks frames and drains them several frames behind, one slot at a time. The producer
    takes no lock, so its steps may fall between any two steps of the flip. */
module ProfilerRing {
  import opened ProfilerLog

  const FRAME_HISTORY: nat := 512
  const GPU_FRAME_DELAY: nat := 3

  // ----- ring contents on values

  /** The ring holds the last BUFFER_SIZE accepted entries, entry k at slot k mod BUFFER_SIZE. */
  ghost predicate HoldsRecent(log: seq<Entry>, accepted: seq<Entry>)
  {
    && |log| == BUFFER_SIZE
    && forall k :: 0 <= k < |accepted| && |accepted| - BUFFER_SIZE <= k ==> log[k % BUFFER_SIZE] == accepted[k]
  }

  lemma SlotsDiffer(x: nat, y: nat)
    requires x < y < x + BUFFER_SIZE
    ensures x % BUFFER_SIZE != y % BUFFER_SIZE
  {
  }

  lemma PutHolds(log: seq<Entry>, accepted: seq<Entry>, e: Entry)
    requires HoldsRecent(log, accepted)
    ensures HoldsRecent(log[|accepted| % BUFFER_SIZE := e], accepted + [e])
  {
    var n := |accepted|;
    var after, more := log[n % BUFFER_SIZE := e], accepted + [e];
    forall k | 0 <= k < |more| && |more| - BUFFER_SIZE <= k
      ensures after[k % BUFFER_SIZE] == more[k]
    {
      if k < n {
        SlotsDiffer(k, n);
      }
    }
  }

  /** The last of the first n entries that went to the slot of entry p. */
  function Newest(p: nat, n: nat): (q: nat)
    requires p < n
    ensures p <= q < n <= q + BUFFER_SIZE && q % BUFFER_SIZE == p % BUFFER_SIZE
    ensures q == p <==> n - p <= BUFFER_SIZE
  {
    var turns := (n - 1 - p) / BUFFER_SIZE;
    assert (p + turns * BUFFER_SIZE) % BUFFER_SIZE == p % BUFFER_SIZE;
    p + turns * BUFFER_SIZE
  }

  /** Two half-open index ranges, read one after the other. */
  datatype Ranges = Ranges(s0: nat, e0: nat, s1: nat, e1: nat)
  {
    predicate Done() { s0 >= e0 && s1 >= e1 }

    /** The slot to read next, and the ranges without it. */
    function Slot(): nat { if s0 < e0 then s0 else s1 }

    function Advance(): Ranges { if s0 < e0 then this.(s0 := s0 + 1) else this.(s1 := s1 + 1) }
  }

  function GetRange(put: nat, get: nat): Ranges
    requires put < BUFFER_SIZE && get < BUFFER_SIZE
  {
    if put > get then Ranges(get, put, 0, 0)
    else if put != get then Ranges(get, BUFFER_SIZE, 0, put)
    else Ranges(0, 0, 0, 0)
  }

  /** The ranges hold the slots of entries p to q, in order. */
  ghost predicate Covers(r: Ranges, p: nat, q: nat)
  {
    && p <= q && r.s0 <= r.e0 <= BUFFER_SIZE && r.s1 <= r.e1 <= BUFFER_SIZE
    && (r.e0 - r.s0) + (r.e1 - r.s1) == q - p
    && (p < q ==> r.Slot() == p % BUFFER_SIZE)
    && (r.s0 < r.e0 && r.s1 < r.e1 ==> r.e0 == BUFFER_SIZE && r.s1 == 0)
  }

  /** The ranges between the slots of two marks hold every slot between the marks, as long as
      the marks are less than a ring apart. */
  lemma RangeCovers(a: nat, b: nat)
    requires a <= b < a + BUFFER_SIZE
    ensures Covers(GetRange(b % BUFFER_SIZE, a % BUFFER_SIZE), a, b)
  {
  }

  /** Reading the next slot reads the next entry's. */
  lemma CoversNext(r: Ranges, p: nat, q: nat)
    requires Covers(r, p, q)
    ensures r.Done() <==> p == q
    ensures p < q ==> r.Slot() == p % BUFFER_SIZE && Covers(r.Advance(), p + 1, q)
  {
  }

  /** The next slot is the oldest one still held exactly when the ring is full. */
  lemma FullExactly(total: nat, last: nat)
    requires last <= total && total - last < BUFFER_SIZE
    ensures (total % BUFFER_SIZE + 1) % BUFFER_SIZE == last % BUFFER_SIZE <==> total - last == BUFFER_SIZE - 1
    ensures (total % BUFFER_SIZE + 1) % BUFFER_SIZE == (total + 1) % BUFFER_SIZE
  {
  }

  // ----- frame marks on values

  /** The mark of frame f; frames before the first count as empty. */
  function MarkOf(marks: seq<nat>, f: int): nat
  {
    if 0 <= f < |marks| then marks[f] else 0
  }

  /** The mark up to which a finished drain has come. */
  function DrainMark(marks: seq<nat>): nat
  {
    MarkOf(marks, |marks| - 1 - GPU_FRAME_DELAY)
  }

  /** marks, one per flip, never decrease nor exceed total and are less than a ring apart; the
      last FRAME_HISTORY of them are stored, reduced to slots, in starts. */
  ghost predicate MarksStored(marks: seq<nat>, starts: seq<nat>, total: nat)
  {
    && |starts| == FRAME_HISTORY && |marks| > 0 && marks[0] == 0
    && (forall i, j :: 0 <= i <= j < |marks| ==> marks[i] <= marks[j])
    && (forall i, j :: 0 <= i < |marks| && j == i + 1 < |marks| ==> marks[j] < marks[i] + BUFFER_SIZE)
    && marks[|marks| - 1] <= total < marks[|marks| - 1] + BUFFER_SIZE
    && (forall f :: |marks| - 1 - FRAME_HISTORY < f < |marks| ==>
        starts[f % FRAME_HISTORY] == MarkOf(marks, f) % BUFFER_SIZE)
  }

  lemma MarkAdded(marks: seq<nat>, starts: seq<nat>, total: nat)
    requires MarksStored(marks, starts, total)
    ensures MarksStored(marks + [total], starts[|marks| % FRAME_HISTORY := total % BUFFER_SIZE], total)
  {
    var more, after := marks + [total], starts[|marks| % FRAME_HISTORY := total % BUFFER_SIZE];
    forall f | |more| - 1 - FRAME_HISTORY < f < |more|
      ensures after[f % FRAME_HISTORY] == MarkOf(more, f) % BUFFER_SIZE
    {
      if f < |marks| {
        assert f % FRAME_HISTORY != |marks| % FRAME_HISTORY;
        assert MarkOf(more, f) == MarkOf(marks, f);
      }
    }
  }

  /** Taking a mark moves the frame slot on and leaves the drained frame where it was. */
  lemma MarkMoves(marks: seq<nat>, starts: seq<nat>, total: nat, framePut: nat, n: nat)
    requires MarksStored(marks, starts, total) && n == |marks| && framePut == (n - 1) % FRAME_HISTORY
    ensures var more, slot := marks + [total], (framePut + 1) % FRAME_HISTORY;
            && slot == n % FRAME_HISTORY && MarksStored(more, starts[slot := total % BUFFER_SIZE], total)
            && MarkOf(more, n - 1 - GPU_FRAME_DELAY) == DrainMark(marks)
  {
    FrameSlots(n - 1, framePut);
    MarkAdded(marks, starts, total);
  }

  lemma MarksOrdered(marks: seq<nat>, starts: seq<nat>, total: nat, f: int)
    requires MarksStored(marks, starts, total) && f + 1 < |marks|
    ensures MarkOf(marks, f) <= MarkOf(marks, f + 1) <= total && MarkOf(marks, f + 1) < MarkOf(marks, f) + BUFFER_SIZE
  {
  }

  /** The slots whose stored marks bound the drain of a flip. */
  function CurrentSlot(framePut: nat): nat
  {
    (framePut + FRAME_HISTORY - GPU_FRAME_DELAY - 1) % FRAME_HISTORY
  }

  function NextSlot(framePut: nat): nat
  {
    (CurrentSlot(framePut) + 1) % FRAME_HISTORY
  }

  /** The slots of the frame being marked and of the two whose marks bound the drain. */
  lemma FrameSlots(n: nat, framePut: nat)
    requires framePut == n % FRAME_HISTORY
    ensures (framePut + 1) % FRAME_HISTORY == (n + 1) % FRAME_HISTORY
    ensures CurrentSlot(framePut) == (n - GPU_FRAME_DELAY - 1) % FRAME_HISTORY
    ensures NextSlot(framePut) == (n - GPU_FRAME_DELAY) % FRAME_HISTORY
  {
    AddSlot(n, 1);
    AddSlot(n, FRAME_HISTORY - GPU_FRAME_DELAY - 1);
    AddSlot(n - GPU_FRAME_DELAY - 1, 1);
  }

  lemma AddSlot(x: int, y: int)
    ensures (x % FRAME_HISTORY + y) % FRAME_HISTORY == (x + y) % FRAME_HISTORY
  {
  }

  lemma StoredAt(marks: seq<nat>, starts: seq<nat>, total: nat, f: int, slot: nat)
    requires MarksStored(marks, starts, total) && |marks| - 1 - FRAME_HISTORY < f < |marks| && slot == f % FRAME_HISTORY
    ensures slot < FRAME_HISTORY && starts[slot] == MarkOf(marks, f) % BUFFER_SIZE
  {
  }

  /** The stored marks give the ranges of the frame GPU_FRAME_DELAY flips back. */
  lemma StoredRanges(marks: seq<nat>, starts: seq<nat>, total: nat, framePut: nat, n: nat)
    requires MarksStored(marks, starts, total) && n + 1 == |marks| && framePut == n % FRAME_HISTORY
    ensures NextSlot(framePut) < |starts| && CurrentSlot(framePut) < |starts|
    ensures var p, q := starts[NextSlot(framePut)], starts[CurrentSlot(framePut)];
            p < BUFFER_SIZE && q < BUFFER_SIZE
                && Covers(GetRange(p, q), MarkOf(marks, n - 1 - GPU_FRAME_DELAY), DrainMark(marks))
  {
    var f := n - 1 - GPU_FRAME_DELAY;
    FrameSlots(n, framePut);
    StoredAt(marks, starts, total, f, CurrentSlot(framePut));
    StoredAt(marks, starts, total, n - GPU_FRAME_DELAY, NextSlot(framePut));
    MarksOrdered(marks, starts, total, f);
    RangeCovers(MarkOf(marks, f), DrainMark(marks));
  }

  /** Where the flip thread is: outside a flip, after the mark and before the ranges are
      computed, or draining with these ranges still to read. */
  datatype Phase = Outside | Marked | Draining(rest: Ranges)

  /** pos entries have been read; the phase says how many are still to be read. */
  ghost predicate FlipAt(phase: Phase, marks: seq<nat>, pos: nat)
  {
    match phase
    case Outside => pos == DrainMark(marks)
    case Marked => pos == MarkOf(marks, |marks| - 2 - GPU_FRAME_DELAY)
    case Draining(rest) => Covers(rest, pos, DrainMark(marks))
  }

  /** A recorder's fields with what they stand for: the entries written since the start, the
      marks taken (as counts of published entries), and the number of entries drained. */
  ghost predicate Consistent(log: seq<Entry>, nPut: nat, nGet: nat, starts: seq<nat>, framePut: nat, phase: Phase,
                             accepted: seq<Entry>, published: nat, marks: seq<nat>, pos: nat)
  {
    && HoldsRecent(log, accepted) && nPut == published % BUFFER_SIZE && published <= |accepted| <= published + 1
    && MarksStored(marks, starts, published) && framePut == (|marks| - 1) % FRAME_HISTORY
    && |accepted| - marks[|marks| - 1] < BUFFER_SIZE && nGet == marks[|marks| - 1] % BUFFER_SIZE
    && FlipAt(phase, marks, pos) && pos <= |accepted|
  }

  /** pos entries have been drained: the first accepted ones, if whole. */
  ghost predicate Copied(drained: seq<Entry>, accepted: seq<Entry>, pos: nat, whole: bool)
  {
    |drained| == pos <= |accepted| && (whole ==> forall i :: 0 <= i < pos ==> drained[i] == accepted[i])
  }

  /** The producer refuses exactly when the ring is full, and otherwise writes one entry. */
  lemma WriteConsistent(log: seq<Entry>, nPut: nat, nGet: nat, starts: seq<nat>, framePut: nat, phase: Phase,
                        accepted: seq<Entry>, marks: seq<nat>, pos: nat, e: Entry)
    requires Consistent(log, nPut, nGet, starts, framePut, phase, accepted, |accepted|, marks, pos)
    ensures nPut < |log| && ((nPut + 1) % BUFFER_SIZE == nGet <==> |accepted| - marks[|marks| - 1] == BUFFER_SIZE - 1)
    ensures |accepted| - marks[|marks| - 1] < BUFFER_SIZE - 1 ==>
              Consistent(log[nPut := e], nPut, nGet, starts, framePut, phase, accepted + [e], |accepted|, marks, pos)
  {
    FullExactly(|accepted|, marks[|marks| - 1]);
    PutHolds(log, accepted, e);
  }

  lemma PublishConsistent(log: seq<Entry>, nPut: nat, nGet: nat, starts: seq<nat>, framePut: nat, phase: Phase,
                          accepted: seq<Entry>, published: nat, marks: seq<nat>, pos: nat)
    requires Consistent(log, nPut, nGet, starts, framePut, phase, accepted, published, marks, pos)
    requires |accepted| == published + 1
    ensures Consistent(log, (nPut + 1) % BUFFER_SIZE, nGet, starts, framePut, phase, accepted, |accepted|, marks, pos)
  {
    FullExactly(published, marks[|marks| - 1]);
  }

  lemma MarkConsistent(log: seq<Entry>, nPut: nat, nGet: nat, starts: seq<nat>, framePut: nat, phase: Phase,
                       accepted: seq<Entry>, published: nat, marks: seq<nat>, pos: nat, slot: nat)
    requires Consistent(log, nPut, nGet, starts, framePut, phase, accepted, published, marks, pos)
    requires phase == Outside && slot == (framePut + 1) % FRAME_HISTORY
    ensures slot < |starts|
    ensures Consistent(log, nPut, nPut, starts[slot := nPut], slot, Marked, accepted, published, marks + [published],
              pos)
  {
    MarkMoves(marks, starts, published, framePut, |marks|);
  }

  lemma BeginConsistent(log: seq<Entry>, nPut: nat, nGet: nat, starts: seq<nat>, framePut: nat, phase: Phase,
                        accepted: seq<Entry>, published: nat, marks: seq<nat>, pos: nat, next: nat, current: nat)
    requires Consistent(log, nPut, nGet, starts, framePut, phase, accepted, published, marks, pos)
    requires phase == Marked && next == NextSlot(framePut) && current == CurrentSlot(framePut)
    ensures next < |starts| && current < |starts| && starts[next] < BUFFER_SIZE && starts[current] < BUFFER_SIZE
    ensures Consistent(log, nPut, nGet, starts, framePut, Draining(GetRange(starts[next], starts[current])),
                       accepted, published, marks, pos)
  {
    StoredRanges(marks, starts, published, framePut, |marks| - 1);
  }

  lemma ReadConsistent(log: seq<Entry>, nPut: nat, nGet: nat, starts: seq<nat>, framePut: nat, phase: Phase,
                       accepted: seq<Entry>, published: nat, marks: seq<nat>, pos: nat)
    requires Consistent(log, nPut, nGet, starts, framePut, phase, accepted, published, marks, pos)
    requires phase.Draining? && !phase.rest.Done()
    ensures pos < |accepted| && phase.rest.Slot() == pos % BUFFER_SIZE
    ensures Consistent(log, nPut, nGet, starts, framePut, Draining(phase.rest.Advance()), accepted, published, marks,
              pos + 1)
  {
    MarksOrdered(marks, starts, published, |marks| - 2 - GPU_FRAME_DELAY);
    CoversNext(phase.rest, pos, DrainMark(marks));
  }

  /** The slot of entry p holds the last entry written there. */
  lemma SlotHolds(log: seq<Entry>, accepted: seq<Entry>, p: nat)
    requires HoldsRecent(log, accepted) && p < |accepted|
    ensures log[p % BUFFER_SIZE] == accepted[Newest(p, |accepted|)]
  {
  }

  // ----- the recorder

  class Recorder {
    const log: array<Entry>
    var nPut: nat
    var nGet: nat
    var overflowed: bool
    const logStart: array<nat>
    var framePut: nat

    /** An entry has been written to its slot but nPut has not been moved past it yet. */
    var writing: bool

    var phase: Phase

    /** Entries written since the start, the marks taken (as counts of published entries), and
        the number of entries drained. */
    ghost var accepted: seq<Entry>
    ghost var marks: seq<nat>
    ghost var pos: nat

    /** How many of the written entries nPut has been moved past. */
    ghost var published: nat

    /** The entries drained, as read, and whether each was still held when it was read. */
    ghost var drained: seq<Entry>
    ghost var whole: bool

    /** Kept by every step of either thread. */
    ghost predicate Valid()
      reads this, log, logStart
    {
      && Consistent(log[..], nPut, nGet, logStart[..], framePut, phase, accepted, published, marks, pos)
      && writing == (published < |accepted|) && Copied(drained, accepted, pos, whole)
    }

    constructor ()
      ensures Valid() && fresh(log) && fresh(logStart)
      ensures !writing && phase == Outside && accepted == [] && marks == [0] && drained == [] && whole
    {
      log := new Entry[BUFFER_SIZE](_ => 0);
      logStart := new nat[FRAME_HISTORY](_ => 0);
      nPut, nGet, overflowed, framePut, writing, phase := 0, 0, false, 0, false, Outside;
      accepted, published, marks, pos, drained, whole := [], 0, [0], 0, [], true;
    }

    /** The producer writes an entry unless that would catch up with the last mark. */
    method Write(e: Entry)
      requires Valid() && !writing
      modifies this`overflowed, this`writing, this`accepted, log
      ensures Valid()
      ensures writing == (|old(accepted)| - marks[|marks| - 1] < BUFFER_SIZE - 1)
      ensures accepted == if writing then old(accepted) + [e] else old(accepted)
    {
      WriteConsistent(log[..], nPut, nGet, logStart[..], framePut, phase, accepted, marks, pos, e);
      if (nPut + 1) % BUFFER_SIZE == nGet {
        overflowed := true;
      } else {
        log[nPut] := e;
        assert log[..] == old(log[..])[nPut := e];
        writing := true;
        accepted := accepted + [e];
      }
    }

    /** The producer makes the written entry visible to the next mark. */
    method Publish()
      requires Valid() && writing
      modifies this`nPut, this`writing, this`published
      ensures Valid() && !writing
    {
      PublishConsistent(log[..], nPut, nGet, logStart[..], framePut, phase, accepted, published, marks, pos);
      nPut := (nPut + 1) % BUFFER_SIZE;
      writing := false;
      published := |accepted|;
    }

    /** Marks the end of the frame and releases the producer up to it. */
    method TakeMark()
      requires Valid() && phase == Outside
      modifies this`framePut, this`nGet, this`marks, this`phase, logStart
      ensures Valid() && phase == Marked && marks == old(marks) + [published]
    {
      var slot := (framePut + 1) % FRAME_HISTORY;
      MarkConsistent(log[..], nPut, nGet, logStart[..], framePut, phase, accepted, published, marks, pos, slot);
      framePut := slot;
      logStart[framePut] := nPut;
      assert logStart[..] == old(logStart[..])[framePut := nPut];
      nGet := nPut;
      marks := marks + [published];
      phase := Marked;
    }

    /** Computes the ranges of the frame GPU_FRAME_DELAY flips back. */
    method BeginDrain()
      requires Valid() && phase == Marked
      modifies this`phase
      ensures Valid() && phase.Draining?
    {
      var next, current := NextSlot(framePut), CurrentSlot(framePut);
      BeginConsistent(log[..], nPut, nGet, logStart[..], framePut, phase, accepted, published, marks, pos, next,
          current);
      phase := Draining(GetRange(logStart[next], logStart[current]));
    }

    /** Reads the next slot of the ranges. It gives the next entry if at most BUFFER_SIZE
        entries have been written from that one on, and the one that replaced it otherwise. */
    method ReadNext() returns (k: nat, e: Entry)
      requires Valid() && phase.Draining? && !phase.rest.Done()
      modifies this`phase, this`pos, this`drained, this`whole
      ensures Valid() && phase.Draining? && old(pos) < |accepted| && pos == old(pos) + 1
      ensures drained == old(drained) + [e] && whole == (old(whole) && |accepted| - old(pos) <= BUFFER_SIZE)
      ensures k == old(pos) % BUFFER_SIZE && e == accepted[Newest(old(pos), |accepted|)]
    {
      ReadConsistent(log[..], nPut, nGet, logStart[..], framePut, phase, accepted, published, marks, pos);
      k := phase.rest.Slot();
      e := Fetch(k, pos);
      phase := Draining(phase.rest.Advance());
      drained, whole := drained + [e], whole && |accepted| - pos <= BUFFER_SIZE;
      pos := pos + 1;
    }

    /** The entry at the slot of entry p: the last one written there. */
    method Fetch(k: nat, ghost p: nat) returns (e: Entry)
      requires Valid() && p < |accepted| && k == p % BUFFER_SIZE
      ensures e == accepted[Newest(p, |accepted|)]
    {
      SlotHolds(log[..], accepted, p);
      e := log[k];
    }

    /** The flip is over when nothing is left to read; the drain has then come to its mark. */
    method EndDrain()
      requires Valid() && phase.Draining? && phase.rest.Done()
      modifies this`phase
      ensures Valid() && phase == Outside && pos == DrainMark(marks)
    {
      CoversNext(phase.rest, pos, DrainMark(marks));
      phase := Outside;
    }
  }
}

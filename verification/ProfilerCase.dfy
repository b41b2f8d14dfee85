/** A run in which a scope stays open so long that its enter entry is replaced in the ring. */
module ProfilerCase {
  import opened ProfilerLog
  import opened ProfilerRing
  import opened ProfilerTime
  import opened ProfilerFlip

  /** From p on there is no leave entry. */
  ghost predicate NoneLeaves(accepted: seq<Entry>, p: nat)
  {
    forall i :: p <= i < |accepted| ==> LogType(accepted[i]) != LEAVE
  }

  /** Nothing to be drained has been replaced or closes a scope. */
  ghost predicate Quiet(p: Profiler)
    reads p, p.ring
  {
    p.exact && Held(p.ring.pos, |p.ring.accepted|) && NoneLeaves(p.ring.accepted, p.ring.pos)
  }

  /** Draining such an entry keeps the account exact. */
  method QuietStep(p: Profiler)
    requires p.Valid() && p.ring.phase.Draining? && !p.ring.phase.rest.Done() && Quiet(p)
    modifies p`charged, p`opens, p`exact, p.ring`phase, p.ring`pos, p.ring`drained, p.ring`whole
    modifies p.times`stackPos, p.times`faulted, p.times`entered, p.times.stack, p.times.child, p.times.ticks
    modifies p.times.exclusive, p.times.count
    ensures p.Valid() && p.ring.phase.Draining? && Quiet(p) && p.ring.pos == old(p.ring.pos) + 1
  {
    var e := p.DrainNext();
  }

  /** The rest of a drain. */
  method QuietDrain(p: Profiler)
    requires p.Valid() && p.ring.phase.Draining? && Quiet(p)
    modifies p`charged, p`opens, p`exact, p.ring`phase, p.ring`pos, p.ring`drained, p.ring`whole
    modifies p.times`stackPos, p.times`faulted, p.times`entered, p.times.stack, p.times.child, p.times.ticks
    modifies p.times.exclusive, p.times.count
    ensures p.Valid() && p.ring.phase.Draining? && p.ring.phase.rest.Done() && Quiet(p)
  {
    while !p.ring.phase.rest.Done()
      invariant p.Valid() && p.ring.phase.Draining? && Quiet(p)
      decreases DrainMark(p.ring.marks) - p.ring.pos
    {
      QuietStep(p);
    }
  }

  /** The mark and the ranges. */
  method BeginFlip(p: Profiler)
    requires p.Valid() && p.ring.phase == Outside
    modifies p.ring`framePut, p.ring`nGet, p.ring`marks, p.ring`phase, p.ring.logStart
    ensures p.Valid() && p.ring.phase.Draining? && p.ring.marks == old(p.ring.marks) + [p.ring.published]
  {
    p.ring.TakeMark();
    p.ring.BeginDrain();
  }

  method EndFlip(p: Profiler)
    requires p.Valid() && p.ring.phase.Draining? && p.ring.phase.rest.Done()
    modifies p.ring`phase
    ensures p.Valid() && p.ring.phase == Outside && p.ring.pos == DrainMark(p.ring.marks)
  {
    p.ring.EndDrain();
  }

  /** A whole flip. */
  method QuietFlip(p: Profiler)
    requires p.Valid() && p.ring.phase == Outside && Quiet(p)
    modifies p`charged, p`opens, p`exact, p.ring`framePut, p.ring`nGet, p.ring`marks, p.ring`phase
    modifies p.ring`pos, p.ring`drained, p.ring`whole, p.ring.logStart
    modifies p.times`stackPos, p.times`faulted, p.times`entered, p.times.stack, p.times.child, p.times.ticks
    modifies p.times.exclusive, p.times.count
    ensures p.Valid() && p.ring.phase == Outside && Quiet(p)
    ensures p.ring.marks == old(p.ring.marks) + [p.ring.published] && p.ring.pos == DrainMark(p.ring.marks)
  {
    BeginFlip(p);
    QuietDrain(p);
    EndFlip(p);
  }

  /** The last i marks are all total. */
  ghost predicate LastMarks(marks: seq<nat>, i: nat, total: nat)
  {
    i <= |marks| && forall f :: |marks| - i <= f < |marks| ==> marks[f] == total
  }

  lemma LastMarksMore(marks: seq<nat>, i: nat, next: nat, total: nat)
    requires LastMarks(marks, i, total) && next == i + 1
    ensures LastMarks(marks + [total], next, total)
  {
  }

  lemma LastMarksDrain(marks: seq<nat>, total: nat)
    requires LastMarks(marks, GPU_FRAME_DELAY + 1, total)
    ensures DrainMark(marks) == total && marks[|marks| - 1] == total
  {
  }

  /** Everything has been drained, with marks to spare. */
  ghost predicate Settled(p: Profiler)
    reads p, p.ring
  {
    && !p.ring.writing && p.ring.phase == Outside && p.ring.pos == |p.ring.accepted|
    && LastMarks(p.ring.marks, GPU_FRAME_DELAY + 1, p.ring.pos)
  }

  /** Four flips drain everything. */
  method Settle(p: Profiler)
    requires p.Valid() && !p.ring.writing && p.ring.phase == Outside && Quiet(p)
    modifies p`charged, p`opens, p`exact, p.ring`framePut, p.ring`nGet, p.ring`marks, p.ring`phase
    modifies p.ring`pos, p.ring`drained, p.ring`whole, p.ring.logStart
    modifies p.times`stackPos, p.times`faulted, p.times`entered, p.times.stack, p.times.child, p.times.ticks
    modifies p.times.exclusive, p.times.count
    ensures p.Valid() && Settled(p) && Quiet(p)
  {
    ghost var total := p.ring.published;
    assert total == |p.ring.accepted|;
    for i := 0 to GPU_FRAME_DELAY + 1
      invariant p.Valid() && p.ring.phase == Outside && Quiet(p)
      invariant (i > 0 ==> p.ring.pos == DrainMark(p.ring.marks)) && LastMarks(p.ring.marks, i, total)
    {
      LastMarksMore(p.ring.marks, i, i + 1, total);
      QuietFlip(p);
    }
    LastMarksDrain(p.ring.marks, total);
  }

  // ----- the run

  function EnterAt0(): Entry { MakeEntry(ENTER, 0, 0) }

  /** Neither an enter nor a leave entry. */
  function Filler(): Entry { MakeEntry(2, 0, 1) }

  function LeaveAt8(): Entry { MakeEntry(LEAVE, 0, 8) }

  lemma EntryKinds()
    ensures LogType(EnterAt0()) == ENTER && LogType(Filler()) == 2 && LogType(LeaveAt8()) == LEAVE
    ensures TimerIndex(EnterAt0()) == TimerIndex(Filler()) == TimerIndex(LeaveAt8()) == 0
    ensures TickDifference(EnterAt0(), LeaveAt8()) == 8 && TickDifference(Filler(), LeaveAt8()) == 7
  {
    EntryFields(ENTER, 0, 0);
    EntryFields(2, 0, 1);
    EntryFields(LEAVE, 0, 8);
    DifferenceExact(ENTER, 0, 0, LEAVE, 0, 8);
    DifferenceExact(2, 0, 1, LEAVE, 0, 8);
  }

  /** One scope entered, then n fillers. */
  ghost predicate Opening(es: seq<Entry>, n: nat)
  {
    |es| == n + 1 && es[0] == EnterAt0() && forall i :: 1 <= i < |es| ==> es[i] == Filler()
  }

  lemma {:induction false} OpeningRuns(es: seq<Entry>, n: nat)
    requires Opening(es, n)
    ensures ValidLog(es) && Fits(Start(), es) && Run(Start(), es) == Enter(Start(), EnterAt0())
  {
    EntryKinds();
    var front, e := es[..n], es[n];
    assert es == front + [e];
    if n == 0 {
      assert front == [];
      FitsNext(Start(), front, e);
    } else {
      OpeningRuns(front, n - 1);
      FitsNext(Start(), front, e);
    }
  }

  /** n fillers after the enter entry, all of it drained, nothing wrong so far. */
  ghost predicate Stage(p: Profiler, n: nat)
    reads p, p.ring, p.ring.log, p.ring.logStart
    reads p.times, p.times.stack, p.times.child, p.times.ticks, p.times.exclusive, p.times.count
  {
    p.Valid() && Settled(p) && p.exact && Opening(p.ring.accepted, n)
  }

  lemma OpeningMore(es: seq<Entry>, n: nat, next: nat)
    requires Opening(es, n) && next == n + 1
    ensures Opening(es + [Filler()], next)
  {
  }

  lemma OpeningQuiet(es: seq<Entry>, n: nat, p: nat)
    requires Opening(es, n) && p > 0
    ensures NoneLeaves(es, p)
  {
    EntryKinds();
  }

  /** k fillers more. */
  method Fill(p: Profiler, ghost n: nat, k: nat)
    requires Stage(p, n) && k < BUFFER_SIZE
    modifies p.ring`nPut, p.ring`overflowed, p.ring`writing, p.ring`accepted, p.ring`published, p.ring.log
    ensures p.Valid() && !p.ring.writing && Opening(p.ring.accepted, n + k)
  {
    EntryKinds();
    LastMarksDrain(p.ring.marks, p.ring.pos);
    for i := 0 to k
      invariant p.Valid() && !p.ring.writing && Opening(p.ring.accepted, n + i)
    {
      OpeningMore(p.ring.accepted, n + i, n + i + 1);
      p.Put(Filler());
    }
  }

  method FillAndSettle(p: Profiler, ghost n: nat, k: nat)
    requires Stage(p, n) && k < BUFFER_SIZE
    modifies p`charged, p`opens, p`exact, p.ring, p.ring.log, p.ring.logStart
    modifies p.times`stackPos, p.times`faulted, p.times`entered, p.times.stack, p.times.child, p.times.ticks
    modifies p.times.exclusive, p.times.count
    ensures Stage(p, n + k)
  {
    Fill(p, n, k);
    OpeningQuiet(p.ring.accepted, n + k, p.ring.pos);
    Settle(p);
  }

  lemma OneOpen(accepted: seq<Entry>, pos: nat, stack: seq<Entry>, opens: seq<nat>, slots: seq<nat>, n: nat)
    requires Opened(accepted, pos, true, stack, opens, slots) && Opening(accepted, n) && stack == [EnterAt0()]
    ensures opens == [0]
  {
    EntryKinds();
    assert accepted[opens[0]] == EnterAt0();
  }

  /** BUFFER_SIZE fillers: the last replaces the enter entry. */
  method FillRing(p: Profiler)
    requires Stage(p, 0)
    modifies p`charged, p`opens, p`exact, p.ring, p.ring.log, p.ring.logStart
    modifies p.times`stackPos, p.times`faulted, p.times`entered, p.times.stack, p.times.child, p.times.ticks
    modifies p.times.exclusive, p.times.count
    ensures Stage(p, BUFFER_SIZE)
  {
    FillAndSettle(p, 0, BUFFER_SIZE - 1);
    FillAndSettle(p, BUFFER_SIZE - 1, 1);
  }

  /** Only the enter entry is open. */
  lemma OnlyFirstOpen(accepted: seq<Entry>, pos: nat, drained: seq<Entry>, a: Account, faulted: bool,
                      opens: seq<nat>, slots: seq<nat>, n: nat)
    requires Ledger(accepted, pos, drained, true, a, faulted, opens, slots) && pos == |accepted| && Opening(accepted, n)
    ensures drained == accepted && !faulted && a == Enter(Start(), EnterAt0()) && opens == [0]
  {
    OpeningRuns(accepted, n);
    assert accepted[..pos] == accepted;
    OneOpen(accepted, pos, a.stack, opens, slots, n);
  }

  /** A flip that has nothing to drain. */
  method IdleFlip(p: Profiler)
    requires p.Valid() && p.ring.phase == Outside && DrainMark(p.ring.marks + [p.ring.published]) == p.ring.pos
    modifies p.ring`framePut, p.ring`nGet, p.ring`marks, p.ring`phase, p.ring.logStart
    ensures p.Valid() && p.ring.phase == Outside && p.ring.marks == old(p.ring.marks) + [p.ring.published]
  {
    BeginFlip(p);
    CoversNext(p.ring.phase.rest, p.ring.pos, DrainMark(p.ring.marks));
    EndFlip(p);
  }

  /** The last entry of a drain. */
  method DrainLast(p: Profiler) returns (e: Entry)
    requires p.Valid() && p.ring.phase.Draining? && |p.ring.accepted| == DrainMark(p.ring.marks) == p.ring.pos + 1
    modifies p`charged, p`opens, p`exact, p.ring`phase, p.ring`pos, p.ring`drained, p.ring`whole
    modifies p.times`stackPos, p.times`faulted, p.times`entered, p.times.stack, p.times.child, p.times.ticks
    modifies p.times.exclusive, p.times.count
    ensures p.Valid() && p.ring.phase.Draining? && p.ring.phase.rest.Done() && e == p.ring.accepted[old(p.ring.pos)]
    ensures p.ring.drained == old(p.ring.drained) + [e] && TimerIndex(e) < MAX_TIMERS
    ensures !p.times.faulted ==>
              p.times.State() == Moved(old(p.times.State()), TopEntry(p.ring.accepted, old(p.opens)), e)
  {
    CoversNext(p.ring.phase.rest, p.ring.pos, DrainMark(p.ring.marks));
    e := p.DrainNext();
    CoversNext(p.ring.phase.rest, p.ring.pos, DrainMark(p.ring.marks));
  }

  /** A flip that drains one entry. */
  method OneFlip(p: Profiler) returns (e: Entry)
    requires p.Valid() && p.ring.phase == Outside
    requires DrainMark(p.ring.marks + [p.ring.published]) == |p.ring.accepted| == p.ring.pos + 1
    modifies p`charged, p`opens, p`exact, p.ring`framePut, p.ring`nGet, p.ring`marks, p.ring`phase
    modifies p.ring`pos, p.ring`drained, p.ring`whole, p.ring.logStart
    modifies p.times`stackPos, p.times`faulted, p.times`entered, p.times.stack, p.times.child, p.times.ticks
    modifies p.times.exclusive, p.times.count
    ensures p.Valid() && p.ring.phase == Outside && e == p.ring.accepted[old(p.ring.pos)] && TimerIndex(e) < MAX_TIMERS
    ensures p.ring.drained == old(p.ring.drained) + [e]
    ensures !p.times.faulted ==>
              p.times.State() == Moved(old(p.times.State()), TopEntry(p.ring.accepted, old(p.opens)), e)
  {
    BeginFlip(p);
    e := DrainLast(p);
    EndFlip(p);
  }

  lemma MoreMarks(marks: seq<nat>, n: nat, t: nat)
    requires LastMarks(marks, GPU_FRAME_DELAY + 1, n)
    ensures DrainMark(marks + [t]) == n && DrainMark(marks + [t] + [t]) == n && DrainMark(marks + [t] + [t] + [t]) == n
    ensures DrainMark(marks + [t] + [t] + [t] + [t]) == t
  {
  }

  /** Three flips without anything to drain, and one that drains the entry put last. */
  method Close(p: Profiler) returns (e: Entry)
    requires p.Valid() && p.ring.phase == Outside && !p.ring.writing && |p.ring.accepted| == p.ring.pos + 1
    requires LastMarks(p.ring.marks, GPU_FRAME_DELAY + 1, p.ring.pos)
    modifies p`charged, p`opens, p`exact, p.ring`framePut, p.ring`nGet, p.ring`marks, p.ring`phase
    modifies p.ring`pos, p.ring`drained, p.ring`whole, p.ring.logStart
    modifies p.times`stackPos, p.times`faulted, p.times`entered, p.times.stack, p.times.child, p.times.ticks
    modifies p.times.exclusive, p.times.count
    ensures p.Valid() && e == p.ring.accepted[old(p.ring.pos)] && TimerIndex(e) < MAX_TIMERS
    ensures p.ring.drained == old(p.ring.drained) + [e]
    ensures !p.times.faulted ==>
              p.times.State() == Moved(old(p.times.State()), TopEntry(p.ring.accepted, old(p.opens)), e)
  {
    MoreMarks(p.ring.marks, p.ring.pos, p.ring.published);
    IdleFlip(p);
    IdleFlip(p);
    IdleFlip(p);
    e := OneFlip(p);
  }

  /** The charge when the enter entry has been replaced by a filler. */
  lemma Charged7(accepted: seq<Entry>, a: Account)
    requires |accepted| == BUFFER_SIZE + 2 && accepted[BUFFER_SIZE] == Filler() && a == Enter(Start(), EnterAt0())
    ensures TimerIndex(LeaveAt8()) < MAX_TIMERS
    ensures Moved(a, TopEntry(accepted, [0]), LeaveAt8()).ticks[0] == 7 && Step(a, LeaveAt8()).ticks[0] == 8
  {
    EntryKinds();
    assert Newest(0, |accepted|) == BUFFER_SIZE;
  }

  /** The enter entry, drained. */
  method Open() returns (p: Profiler)
    ensures Stage(p, 0) && fresh(p) && fresh(p.ring) && fresh(p.ring.log) && fresh(p.ring.logStart) && fresh(p.times)
    ensures fresh(p.times.stack) && fresh(p.times.child) && fresh(p.times.ticks) && fresh(p.times.exclusive)
    ensures fresh(p.times.count)
  {
    p := new Profiler();
    EntryKinds();
    p.Put(EnterAt0());
    Settle(p);
  }

  /** What the entries come to with the leave entry at the end. */
  lemma Closed(es: seq<Entry>, n: nat)
    requires Opening(es, n)
    ensures ValidLog(es + [LeaveAt8()]) && Fits(Start(), es + [LeaveAt8()])
    ensures Run(Start(), es + [LeaveAt8()]).ticks[0] == 8
  {
    EntryKinds();
    OpeningRuns(es, n);
    FitsNext(Start(), es, LeaveAt8());
  }

  /** The leave entry, put and drained. */
  method Finish(p: Profiler)
    requires Stage(p, BUFFER_SIZE)
    modifies p`charged, p`opens, p`exact, p.ring, p.ring.log, p.ring.logStart
    modifies p.times`stackPos, p.times`faulted, p.times`entered, p.times.stack, p.times.child, p.times.ticks
    modifies p.times.exclusive, p.times.count
    ensures p.Valid() && p.ring.drained == p.ring.accepted == old(p.ring.accepted) + [LeaveAt8()]
    ensures !p.times.faulted ==> p.times.ticks[0] == 7
  {
    ghost var es := p.ring.accepted;
    OnlyFirstOpen(es, p.ring.pos, p.charged, p.times.State(), p.times.faulted, p.opens, p.times.Slots(), BUFFER_SIZE);
    LastMarksDrain(p.ring.marks, p.ring.pos);
    EntryKinds();
    p.Put(LeaveAt8());
    var _ := Close(p);
    Charged7(p.ring.accepted, Enter(Start(), EnterAt0()));
  }

  /** Opens a scope at tick 0, puts BUFFER_SIZE fillers in frames of their own, closes the scope
      at tick 8: the timer is charged 7 ticks, where the entries drained come to 8. */
  method OpenTooLong() returns (p: Profiler)
    ensures fresh(p) && p.Valid() && p.ring.drained == p.ring.accepted && Fits(Start(), p.ring.drained)
    ensures p.times.ticks[0] == 7 && Run(Start(), p.ring.drained).ticks[0] == 8
  {
    p := Open();
    FillRing(p);
    Closed(p.ring.accepted, BUFFER_SIZE);
    Finish(p);
  }
}

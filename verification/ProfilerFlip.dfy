/** The log ring and the accountant together: what a flip charges to the timers while the
    producer goes on writing. */
module ProfilerFlip {
  import opened ProfilerLog
  import opened ProfilerRing
  import opened ProfilerTime

  /** At most BUFFER_SIZE entries have been written from entry p on: its slot still holds it. */
  predicate Held(p: nat, written: nat)
  {
    written - p <= BUFFER_SIZE
  }

  /** The oldest entry that draining e, entry p, reads: the one that opened the innermost scope
      when e closes it, and e itself otherwise. */
  function Needed(e: Entry, p: nat, opens: seq<nat>, faulted: bool): nat
  {
    if LogType(e) == LEAVE && !faulted && |opens| > 0 then opens[|opens| - 1] else p
  }

  /** The account after e, with a scope that e closes timed from the entry start. */
  function Moved(a: Account, start: Entry, e: Entry): (r: Account)
    requires WellFormed(a) && TimerIndex(e) < MAX_TIMERS
    ensures WellFormed(r)
  {
    if LogType(e) == LEAVE && |a.stack| > 0 then LeaveFrom(a, start, e) else Step(a, e)
  }

  /** The entry now at the slot of the innermost scope's enter entry. */
  function TopEntry(accepted: seq<Entry>, opens: seq<nat>): Entry
  {
    var n := |opens|;
    if n > 0 && opens[n - 1] < |accepted| then accepted[Newest(opens[n - 1], |accepted|)] else 0
  }

  /** The oldest entry a later drain may need: the one that opened the outermost open scope, or
      the next to be drained. */
  function Oldest(opens: seq<nat>, pos: nat): nat
  {
    if |opens| > 0 then opens[0] else pos
  }

  /** opens are the positions of the enter entries of the open scopes, the outermost first, slots
      their slots. */
  ghost predicate Opened(accepted: seq<Entry>, pos: nat, exact: bool, stack: seq<Entry>, opens: seq<nat>,
                         slots: seq<nat>)
  {
    && |opens| == |slots| == |stack| && pos <= |accepted|
    && (forall i :: 0 <= i < |opens| ==> opens[0] <= opens[i] < pos && slots[i] == opens[i] % BUFFER_SIZE)
    && (exact ==> forall i :: 0 <= i < |opens| ==> opens[i] < pos && stack[i] == accepted[opens[i]])
  }

  /** The account against the entries drained so far. While every entry needed was still held,
      those are the accepted ones in order and the account is what they come to. A write
      outside the stack has been reached exactly when their nesting was too deep. */
  ghost predicate Accounted(accepted: seq<Entry>, pos: nat, drained: seq<Entry>, exact: bool, account: Account,
                            faulted: bool)
  {
    && |drained| == pos <= |accepted| && ValidLog(accepted) && ValidLog(drained) && WellFormed(account)
    && (exact ==> drained == accepted[..pos])
    && (faulted <==> !Fits(Start(), drained))
    && (!faulted ==> |account.stack| == |Run(Start(), drained).stack|)
    && (!faulted && exact ==> account == Run(Start(), drained))
  }

  /** The whole state of the drain. */
  ghost predicate Ledger(accepted: seq<Entry>, pos: nat, drained: seq<Entry>, exact: bool, account: Account,
                         faulted: bool, opens: seq<nat>, slots: seq<nat>)
  {
    && Accounted(accepted, pos, drained, exact, account, faulted)
    && Opened(accepted, pos, exact, account.stack, opens, slots)
  }

  lemma WriteLedger(accepted: seq<Entry>, pos: nat, drained: seq<Entry>, exact: bool, account: Account,
                    faulted: bool, opens: seq<nat>, slots: seq<nat>, e: Entry)
    requires Ledger(accepted, pos, drained, exact, account, faulted, opens, slots) && TimerIndex(e) < MAX_TIMERS
    ensures Ledger(accepted + [e], pos, drained, exact, account, faulted, opens, slots)
  {
    assert (accepted + [e])[..pos] == accepted[..pos];
  }

  /** Draining one entry: the account moves on by the step of that entry if the entries it
      needs were held, and to the same depth in any case. */
  lemma DrainAccounted(accepted: seq<Entry>, pos: nat, next: nat, drained: seq<Entry>, exact: bool, account: Account,
                       faulted: bool, e: Entry, held: bool, after: Account, fault: bool)
    requires Accounted(accepted, pos, drained, exact, account, faulted) && pos < |accepted| && next == pos + 1
    requires TimerIndex(e) < MAX_TIMERS && (held ==> e == accepted[pos]) && WellFormed(after)
    requires fault == (faulted || |Step(account, e).stack| >= STACK_MAX)
    requires !fault ==> |after.stack| == |Step(account, e).stack|
    requires !fault && exact && held ==> after == Step(account, e)
    ensures Accounted(accepted, next, drained + [e], exact && held, after, fault)
  {
    FitsNext(Start(), drained, e);
    if !faulted {
      StepDepth(account, Run(Start(), drained), e);
    }
    if exact && held {
      assert accepted[..next] == accepted[..pos] + [e];
    }
  }

  /** An enter entry: a scope opened, or a write outside the stack. */
  lemma EnterLedger(accepted: seq<Entry>, pos: nat, next: nat, drained: seq<Entry>, exact: bool, a: Account,
                    opens: seq<nat>, slots: seq<nat>, e: Entry, held: bool, k: nat)
    requires Ledger(accepted, pos, drained, exact, a, false, opens, slots) && pos < |accepted| && next == pos + 1
    requires LogType(e) == ENTER && TimerIndex(e) < MAX_TIMERS && k == pos % BUFFER_SIZE
    requires (held ==> e == accepted[pos])
    ensures if |Enter(a, e).stack| >= STACK_MAX
            then Ledger(accepted, next, drained + [e], exact && held, a, true, opens, slots)
            else Ledger(accepted, next, drained + [e], exact && held, Enter(a, e), false, opens + [pos], slots + [k])
  {
    var fault := |Enter(a, e).stack| >= STACK_MAX;
    DrainAccounted(accepted, pos, next, drained, exact, a, false, e, held, if fault then a else Enter(a, e), fault);
  }

  /** A leave entry that closes a scope, timed from the entry start. */
  lemma LeaveLedger(accepted: seq<Entry>, pos: nat, next: nat, drained: seq<Entry>, exact: bool, a: Account,
                    opens: seq<nat>, slots: seq<nat>, e: Entry, held: bool, start: Entry, n: nat)
    requires Ledger(accepted, pos, drained, exact, a, false, opens, slots) && pos < |accepted| && next == pos + 1
    requires LogType(e) == LEAVE && TimerIndex(e) < MAX_TIMERS && n + 1 == |opens|
    requires held ==> e == accepted[pos] && opens[n] < pos && start == accepted[opens[n]]
    ensures Ledger(accepted, next, drained + [e], exact && held, LeaveFrom(a, start, e), false, opens[..n], slots[..n])
  {
    DrainAccounted(accepted, pos, next, drained, exact, a, false, e, held, LeaveFrom(a, start, e), false);
  }

  /** Any other entry, and any entry once a write outside the stack has been reached. */
  lemma SkipLedger(accepted: seq<Entry>, pos: nat, next: nat, drained: seq<Entry>, exact: bool, a: Account,
                   faulted: bool, opens: seq<nat>, slots: seq<nat>, e: Entry, held: bool)
    requires Ledger(accepted, pos, drained, exact, a, faulted, opens, slots) && pos < |accepted| && next == pos + 1
    requires TimerIndex(e) < MAX_TIMERS && (held ==> e == accepted[pos]) && (faulted || Step(a, e) == a)
    ensures Ledger(accepted, next, drained + [e], exact && held, a, faulted, opens, slots)
  {
    assert drained[..pos] == drained;
    DrainAccounted(accepted, pos, next, drained, exact, a, faulted, e, held, a, faulted);
  }

  /** Between p and q entries have been drained: the accepted ones, if none of them has been
      replaced in the ring by now. */
  ghost predicate Taken(before: seq<Entry>, drained: seq<Entry>, accepted: seq<Entry>, p: nat, q: nat)
  {
    && |before| == p <= q == |drained| && q <= |accepted|
    && (forall i :: 0 <= i < p ==> drained[i] == before[i])
    && (Held(p, |accepted|) ==> forall i :: p <= i < q ==> drained[i] == accepted[i])
  }

  lemma TakenOne(before: seq<Entry>, accepted: seq<Entry>, p: nat, next: nat, e: Entry)
    requires |before| == p && next == p + 1 <= |accepted| && (Held(p, |accepted|) ==> e == accepted[p])
    ensures Taken(before, before + [e], accepted, p, next)
  {
  }

  lemma TakenChain(before: seq<Entry>, middle: seq<Entry>, drained: seq<Entry>, accepted: seq<Entry>, more: seq<Entry>,
                   p: nat, q: nat, r: nat)
    requires Taken(before, middle, accepted, p, q) && accepted <= more && Taken(middle, drained, more, q, r)
    ensures Taken(before, drained, more, p, r)
  {
  }

  lemma TakenAll(before: seq<Entry>, drained: seq<Entry>, accepted: seq<Entry>, p: nat, q: nat)
    requires Taken(before, drained, accepted, p, q)
    ensures Held(p, |accepted|) ==> drained == before + accepted[p..q]
  {
    if Held(p, |accepted|) {
      assert drained == drained[..p] + drained[p..q];
    }
  }

  /** A scope closed by e is charged its own duration exactly when the entry now at the slot of
      its enter entry carries that entry's tick: always while the enter entry is held. */
  lemma ScopeTimedIff(a: Account, accepted: seq<Entry>, pos: nat, opens: seq<nat>, slots: seq<nat>, e: Entry)
    requires Opened(accepted, pos, true, a.stack, opens, slots) && |opens| > 0
    requires WellFormed(a) && LogType(e) == LEAVE && TimerIndex(e) < MAX_TIMERS
    ensures var p := opens[|opens| - 1];
            && (Moved(a, TopEntry(accepted, opens), e) == Step(a, e) <==>
                GetTick(accepted[Newest(p, |accepted|)]) == GetTick(accepted[p]))
            && (Held(p, |accepted|) ==> Moved(a, TopEntry(accepted, opens), e) == Step(a, e))
  {
    var n := |opens| - 1;
    var p := opens[n];
    TimedRight(a.stack[n], TopEntry(accepted, opens), e);
    if Moved(a, TopEntry(accepted, opens), e) == Step(a, e) {
      var t := TimerIndex(e);
      assert Moved(a, TopEntry(accepted, opens), e).ticks[t] == Step(a, e).ticks[t];
    }
  }

  lemma TimedRight(opening: Entry, found: Entry, e: Entry)
    ensures TickDifference(found, e) == TickDifference(opening, e) <==> GetTick(found) == GetTick(opening)
  {
    DifferenceWraps(found, e);
    DifferenceWraps(opening, e);
  }

  /** One step of the producer, with the entry to put, or of the flip thread. */
  datatype Action = Producer(entry: Entry) | Flipper

  class Profiler {
    const ring: Recorder
    const times: Accountant

    /** The entries charged, as read; the positions of the open scopes' enter entries; whether
        every entry needed so far was still held when it was read. */
    ghost var charged: seq<Entry>
    ghost var opens: seq<nat>
    ghost var exact: bool

    ghost predicate Valid()
      reads this, ring, ring.log, ring.logStart
      reads times, times.stack, times.child, times.ticks, times.exclusive, times.count
    {
      ring.Valid() && ring.logStart != times.stack && UpTo(ring.pos) && charged == ring.drained
    }

    /** The first pos entries have been charged. */
    ghost predicate UpTo(pos: nat)
      reads this, ring, times, times.stack, times.child, times.ticks, times.exclusive, times.count
    {
      && times.Valid()
      && Ledger(ring.accepted, pos, charged, exact, times.State(), times.faulted, opens, times.Slots())
    }

    constructor ()
      ensures Valid() && fresh(ring) && fresh(ring.log) && fresh(ring.logStart) && fresh(times)
      ensures fresh(times.stack) && fresh(times.child) && fresh(times.ticks) && fresh(times.exclusive)
      ensures fresh(times.count)
      ensures ring.accepted == [] && ring.phase == Outside && !ring.writing && ring.whole && exact
    {
      ring := new Recorder();
      times := new Accountant();
      charged, opens, exact := [], [], true;
    }

    /** The producer writes an entry: accepted unless that would catch up with the last mark. */
    method Write(e: Entry)
      requires Valid() && !ring.writing && TimerIndex(e) < MAX_TIMERS
      modifies ring`overflowed, ring`writing, ring`accepted, ring.log
      ensures Valid()
      ensures ring.writing == (|old(ring.accepted)| - ring.marks[|ring.marks| - 1] < BUFFER_SIZE - 1)
      ensures ring.accepted == if ring.writing then old(ring.accepted) + [e] else old(ring.accepted)
    {
      WriteLedger(ring.accepted, ring.pos, charged, exact, times.State(), times.faulted, opens, times.Slots(), e);
      ring.Write(e);
    }

    /** Opens a scope for an enter entry just read. */
    method EnterNext(k: nat, e: Entry, ghost p: nat, ghost held: bool)
      requires UpTo(p) && p < |ring.accepted| && ring.pos == p + 1 && k == p % BUFFER_SIZE
      requires LogType(e) == ENTER && TimerIndex(e) < MAX_TIMERS && (held ==> e == ring.accepted[p]) && !times.faulted
      modifies this`charged, this`opens, this`exact
      modifies times`stackPos, times`faulted, times`entered, times.stack, times.child
      ensures UpTo(ring.pos) && charged == old(charged) + [e] && exact == (old(exact) && held)
      ensures !times.faulted ==> times.State() == Enter(old(times.State()), e)
      ensures Oldest(old(opens), p) <= Oldest(opens, ring.pos)
    {
      EnterLedger(ring.accepted, p, ring.pos, charged, exact, times.State(), opens, times.Slots(), e, held, k);
      times.EnterScope(k, e);
      opens := if times.faulted then opens else opens + [p];
      charged, exact := charged + [e], exact && held;
    }

    /** Closes the innermost scope for a leave entry just read, timed from start. */
    method LeaveNext(start: Entry, e: Entry, ghost p: nat, ghost held: bool, ghost n: nat)
      requires UpTo(p) && p < |ring.accepted| && ring.pos == p + 1
      requires LogType(e) == LEAVE && TimerIndex(e) < MAX_TIMERS && !times.faulted && |opens| == n + 1
      requires held ==> e == ring.accepted[p] && opens[n] < p && start == ring.accepted[opens[n]]
      modifies this`charged, this`opens, this`exact
      modifies times`stackPos, times`entered, times.child, times.ticks, times.exclusive, times.count
      ensures UpTo(ring.pos) && charged == old(charged) + [e] && exact == (old(exact) && held)
      ensures times.State() == LeaveFrom(old(times.State()), start, e)
      ensures Oldest(old(opens), p) <= Oldest(opens, ring.pos)
    {
      ghost var a, slots := times.State(), times.Slots();
      LeaveLedger(ring.accepted, p, ring.pos, charged, exact, a, opens, slots, e, held, start, n);
      times.LeaveScope(start, e);
      charged, exact, opens := charged + [e], exact && held, opens[..n];
      assert times.Slots() == slots[..n];
    }

    /** Passes over an entry just read. */
    ghost method SkipNext(e: Entry, p: nat, held: bool)
      requires UpTo(p) && p < |ring.accepted| && ring.pos == p + 1
      requires TimerIndex(e) < MAX_TIMERS && (held ==> e == ring.accepted[p])
      requires times.faulted || Step(times.State(), e) == times.State()
      modifies this`charged, this`exact
      ensures UpTo(ring.pos) && charged == old(charged) + [e] && exact == (old(exact) && held)
    {
      SkipLedger(ring.accepted, p, ring.pos, charged, exact, times.State(), times.faulted, opens, times.Slots(), e,
          held);
      charged, exact := charged + [e], exact && held;
    }

    /** Charges an entry just read from slot k, with start at the innermost scope's slot. */
    method Charge(k: nat, e: Entry, start: Entry, ghost p: nat, ghost held: bool)
      requires UpTo(p) && p < |ring.accepted| && ring.pos == p + 1 && k == p % BUFFER_SIZE
      requires TimerIndex(e) < MAX_TIMERS && (held ==> e == ring.accepted[p])
      requires held && Closes(e) ==> opens[|opens| - 1] < p && start == ring.accepted[opens[|opens| - 1]]
      modifies this`charged, this`opens, this`exact
      modifies times`stackPos, times`faulted, times`entered, times.stack, times.child, times.ticks, times.exclusive
      modifies times.count
      ensures UpTo(ring.pos) && charged == old(charged) + [e] && exact == (old(exact) && held)
      ensures !times.faulted ==> times.State() == Moved(old(times.State()), start, e)
      ensures Oldest(old(opens), p) <= Oldest(opens, ring.pos)
    {
      if !times.faulted && LogType(e) == ENTER {
        EnterNext(k, e, p, held);
      } else if !times.faulted && LogType(e) == LEAVE && times.stackPos > 0 {
        LeaveNext(start, e, p, held, |opens| - 1);
      } else {
        SkipNext(e, p, held);
      }
    }

    /** e closes an open scope. */
    ghost predicate Closes(e: Entry)
      reads this, times
    {
      LogType(e) == LEAVE && !times.faulted && |opens| > 0
    }

    /** Reads the innermost scope's slot if e may close it, and charges e. */
    method FetchAndCharge(k: nat, e: Entry, ghost p: nat, ghost held: bool)
      requires ring.Valid() && UpTo(p) && p < |ring.accepted| && ring.pos == p + 1 && k == p % BUFFER_SIZE
      requires TimerIndex(e) < MAX_TIMERS && (held ==> e == ring.accepted[p])
      requires held == Held(Needed(e, p, opens, times.faulted), |ring.accepted|)
      modifies this`charged, this`opens, this`exact
      modifies times`stackPos, times`faulted, times`entered, times.stack, times.child, times.ticks, times.exclusive
      modifies times.count
      ensures UpTo(ring.pos) && charged == old(charged) + [e] && exact == (old(exact) && held)
      ensures !times.faulted ==> times.State() == Moved(old(times.State()), TopEntry(ring.accepted, old(opens)), e)
      ensures Oldest(old(opens), p) <= Oldest(opens, ring.pos)
    {
      var start := FetchFor(e);
      Charge(k, e, start, p, held);
    }

    /** Drains the next entry: reads its slot and charges it. */
    method DrainNext() returns (e: Entry)
      requires Valid() && ring.phase.Draining? && !ring.phase.rest.Done()
      modifies this`charged, this`opens, this`exact, ring`phase, ring`pos, ring`drained, ring`whole
      modifies times`stackPos, times`faulted, times`entered, times.stack, times.child, times.ticks, times.exclusive
      modifies times.count
      ensures Valid() && ring.phase.Draining? && ring.pos == old(ring.pos) + 1
      ensures ring.drained == old(ring.drained) + [e]
      ensures exact == (old(exact) && Held(Needed(e, old(ring.pos), old(opens), old(times.faulted)), |ring.accepted|))
      ensures ring.whole == (old(ring.whole) && Held(old(ring.pos), |ring.accepted|)) && TimerIndex(e) < MAX_TIMERS
      ensures !times.faulted ==> times.State() == Moved(old(times.State()), TopEntry(ring.accepted, old(opens)), e)
      ensures old(ring.pos) < |ring.accepted|
      ensures (Held(old(ring.pos), |ring.accepted|) ==> e == ring.accepted[old(ring.pos)])
      ensures Oldest(old(opens), old(ring.pos)) <= Oldest(opens, ring.pos)
      ensures Oldest(old(opens), old(ring.pos)) <= Needed(e, old(ring.pos), old(opens), old(times.faulted))
    {
      ghost var p := ring.pos;
      var k;
      k, e := ring.ReadNext();
      FetchAndCharge(k, e, p, Held(Needed(e, p, opens, times.faulted), |ring.accepted|));
    }

    /** The entry now at the slot of the innermost scope's enter entry. */
    method FetchTop() returns (start: Entry)
      requires ring.Valid() && times.Valid() && times.stackPos > 0
      requires Opened(ring.accepted, ring.pos, false, times.entered, opens, times.Slots())
      ensures start == TopEntry(ring.accepted, opens)
      ensures Held(opens[|opens| - 1], |ring.accepted|) ==> start == ring.accepted[opens[|opens| - 1]]
    {
      var n := times.stackPos - 1;
      assert times.Slots()[n] == times.stack[n];
      start := ring.Fetch(times.stack[n], opens[n]);
    }

    /** That entry, if e may close the scope. */
    method FetchFor(e: Entry) returns (start: Entry)
      requires ring.Valid() && times.Valid()
      requires Opened(ring.accepted, ring.pos, false, times.entered, opens, times.Slots())
      ensures LogType(e) == LEAVE && |opens| > 0 ==> start == TopEntry(ring.accepted, opens)
      ensures LogType(e) == LEAVE && |opens| > 0 && Held(opens[|opens| - 1], |ring.accepted|) ==>
                start == ring.accepted[opens[|opens| - 1]]
    {
      start := 0;
      if LogType(e) == LEAVE && times.stackPos > 0 {
        start := FetchTop();
      }
    }

    /** The producer's next step: writing e, or publishing what it wrote. */
    method Produce(e: Entry)
      requires Valid() && TimerIndex(e) < MAX_TIMERS
      modifies ring`nPut, ring`overflowed, ring`writing, ring`accepted, ring`published, ring.log
      ensures Valid() && old(ring.accepted) <= ring.accepted
    {
      if ring.writing {
        ring.Publish();
      } else {
        Write(e);
      }
    }

    /** The flip thread's steps around the drain: the mark, the ranges, the end. */
    method AroundDrain()
      requires Valid() && (ring.phase.Draining? ==> ring.phase.rest.Done())
      modifies ring`framePut, ring`nGet, ring`marks, ring`phase, ring.logStart
      ensures Valid()
    {
      if ring.phase == Outside {
        ring.TakeMark();
      } else if ring.phase == Marked {
        ring.BeginDrain();
      } else {
        ring.EndDrain();
      }
    }

    /** One entry drained, told as the part of a run. */
    method DrainStep()
      requires Valid() && ring.phase.Draining? && !ring.phase.rest.Done()
      modifies this`charged, this`opens, this`exact, ring`phase, ring`pos, ring`drained, ring`whole
      modifies times`stackPos, times`faulted, times`entered, times.stack, times.child, times.ticks, times.exclusive
      modifies times.count
      ensures Valid() && Oldest(old(opens), old(ring.pos)) <= Oldest(opens, ring.pos)
      ensures Taken(old(ring.drained), ring.drained, ring.accepted, old(ring.pos), ring.pos)
      ensures Held(old(ring.pos), |ring.accepted|) ==> ring.whole == old(ring.whole)
      ensures Held(Oldest(old(opens), old(ring.pos)), |ring.accepted|) ==> exact == old(exact)
    {
      ghost var drained := ring.drained;
      var e := DrainNext();
      TakenOne(drained, ring.accepted, old(ring.pos), ring.pos, e);
    }

    /** The flip thread's next step: at most one entry drained. */
    method Advance()
      requires Valid()
      modifies this`charged, this`opens, this`exact, ring`framePut, ring`nGet, ring`marks, ring`phase
      modifies ring`pos, ring`drained, ring`whole, ring.logStart
      modifies times`stackPos, times`faulted, times`entered, times.stack, times.child, times.ticks, times.exclusive
      modifies times.count
      ensures Valid() && Oldest(old(opens), old(ring.pos)) <= Oldest(opens, ring.pos)
      ensures Taken(old(ring.drained), ring.drained, ring.accepted, old(ring.pos), ring.pos)
      ensures Held(old(ring.pos), |ring.accepted|) ==> ring.whole == old(ring.whole)
      ensures Held(Oldest(old(opens), old(ring.pos)), |ring.accepted|) ==> exact == old(exact)
    {
      if ring.phase.Draining? && !ring.phase.rest.Done() {
        DrainStep();
      } else {
        AroundDrain();
      }
    }

    /** A step of one of the threads. */
    method OneStep(action: Action)
      requires Valid() && (action.Producer? ==> TimerIndex(action.entry) < MAX_TIMERS)
      modifies this`charged, this`opens, this`exact, ring, ring.log, ring.logStart
      modifies times`stackPos, times`faulted, times`entered, times.stack, times.child, times.ticks, times.exclusive
      modifies times.count
      ensures Valid() && old(ring.accepted) <= ring.accepted
      ensures Oldest(old(opens), old(ring.pos)) <= Oldest(opens, ring.pos)
      ensures Taken(old(ring.drained), ring.drained, ring.accepted, old(ring.pos), ring.pos)
      ensures Held(old(ring.pos), |ring.accepted|) ==> ring.whole == old(ring.whole)
      ensures Held(Oldest(old(opens), old(ring.pos)), |ring.accepted|) ==> exact == old(exact)
    {
      if action.Producer? {
        Produce(action.entry);
      } else {
        Advance();
      }
    }

    /** Steps of the two threads, in any order. */
    method Steps(actions: seq<Action>)
      requires Valid() && forall i :: 0 <= i < |actions| && actions[i].Producer? ==>
                 TimerIndex(actions[i].entry) < MAX_TIMERS
      modifies this`charged, this`opens, this`exact, ring, ring.log, ring.logStart
      modifies times`stackPos, times`faulted, times`entered, times.stack, times.child, times.ticks, times.exclusive
      modifies times.count
      ensures Valid() && old(ring.accepted) <= ring.accepted
      ensures Taken(old(ring.drained), ring.drained, ring.accepted, old(ring.pos), ring.pos)
      ensures Held(old(ring.pos), |ring.accepted|) ==> ring.whole == old(ring.whole)
      ensures Held(Oldest(old(opens), old(ring.pos)), |ring.accepted|) ==> exact == old(exact)
    {
      for i := 0 to |actions|
        invariant Valid() && old(ring.accepted) <= ring.accepted
        invariant Oldest(old(opens), old(ring.pos)) <= Oldest(opens, ring.pos)
        invariant Taken(old(ring.drained), ring.drained, ring.accepted, old(ring.pos), ring.pos)
        invariant Held(old(ring.pos), |ring.accepted|) ==> ring.whole == old(ring.whole)
        invariant Held(Oldest(old(opens), old(ring.pos)), |ring.accepted|) ==> exact == old(exact)
      {
        ghost var accepted, drained, pos := ring.accepted, ring.drained, ring.pos;
        OneStep(actions[i]);
        TakenChain(old(ring.drained), drained, ring.drained, accepted, ring.accepted, old(ring.pos), pos, ring.pos);
      }
    }

    /** Whatever the order in which the two threads take their steps.
        If at most BUFFER_SIZE entries have been accepted since the first entry still to be
        drained, the entries drained are exactly the accepted ones up to where the drain has
        come: from mark to mark, if no flip was under way before and after. If at most
        BUFFER_SIZE have been accepted since the outermost scope then open began, the account
        remains what the entries drained come to. */
    method Interleave(actions: seq<Action>)
      requires Valid() && forall i :: 0 <= i < |actions| && actions[i].Producer? ==>
                 TimerIndex(actions[i].entry) < MAX_TIMERS
      modifies this`charged, this`opens, this`exact, ring, ring.log, ring.logStart
      modifies times`stackPos, times`faulted, times`entered, times.stack, times.child, times.ticks, times.exclusive
      modifies times.count
      ensures Valid() && old(ring.accepted) <= ring.accepted && old(ring.pos) <= ring.pos <= |ring.accepted|
      ensures |ring.accepted| - old(ring.pos) <= BUFFER_SIZE ==>
                ring.drained == old(ring.drained) + ring.accepted[old(ring.pos)..ring.pos]
      ensures old(ring.phase) == Outside ==> old(ring.pos) == old(DrainMark(ring.marks))
      ensures ring.phase == Outside ==> ring.pos == DrainMark(ring.marks)
      ensures times.faulted <==> !Fits(Start(), ring.drained)
      ensures exact && !times.faulted ==> ring.drained <= ring.accepted && times.State() == Run(Start(), ring.drained)
      ensures |ring.accepted| - Oldest(old(opens), old(ring.pos)) <= BUFFER_SIZE ==> exact == old(exact)
    {
      Steps(actions);
      TakenAll(old(ring.drained), ring.drained, ring.accepted, old(ring.pos), ring.pos);
    }

    /** A whole put with room for it, no flip step in between. */
    method Put(e: Entry)
      requires Valid() && !ring.writing && TimerIndex(e) < MAX_TIMERS
      requires |ring.accepted| - ring.marks[|ring.marks| - 1] < BUFFER_SIZE - 1
      modifies ring`nPut, ring`overflowed, ring`writing, ring`accepted, ring`published, ring.log
      ensures Valid() && !ring.writing && ring.accepted == old(ring.accepted) + [e]
    {
      Write(e);
      ring.Publish();
    }
  }
}

/** The accountant that turns a drained log into inclusive and exclusive times per timer. */
module ProfilerTime {
  import opened ProfilerLog

  const STACK_MAX: nat := 32
  const MAX_TIMERS: nat := 1024

  /** Open scopes, the ticks of finished children under each of them (child[0] is outside all
      scopes), and the totals per timer. */
  datatype Account = Account(stack: seq<Entry>, child: seq<int>, ticks: seq<int>, exclusive: seq<int>, count: seq<int>)

  ghost predicate WellFormed(a: Account)
  {
    |a.child| == |a.stack| + 1 && |a.ticks| == |a.exclusive| == |a.count| == MAX_TIMERS
  }

  /** Nothing open, nothing charged. */
  function Start(): (a: Account)
    ensures WellFormed(a)
  {
    var zeros := seq(MAX_TIMERS, _ => 0);
    Account([], [0], zeros, zeros, zeros)
  }

  function AddAt(s: seq<int>, i: nat, x: int): (r: seq<int>)
    requires i < |s|
    ensures |r| == |s|
  {
    s[i := s[i] + x]
  }

  function Enter(a: Account, e: Entry): Account
  {
    a.(stack := a.stack + [e], child := a.child + [0])
  }

  /** Closes the innermost scope, timed from the entry start. */
  function LeaveFrom(a: Account, start: Entry, e: Entry): (r: Account)
    requires WellFormed(a) && TimerIndex(e) < MAX_TIMERS && |a.stack| > 0
    ensures WellFormed(r)
  {
    var n := |a.stack|;
    var ticks, children, t := TickDifference(start, e), a.child[n], TimerIndex(e);
    Account(a.stack[..n - 1], AddAt(a.child[..n], n - 1, ticks),
            AddAt(a.ticks, t, ticks), AddAt(a.exclusive, t, ticks - children), AddAt(a.count, t, 1))
  }

  function Leave(a: Account, e: Entry): (r: Account)
    requires WellFormed(a) && TimerIndex(e) < MAX_TIMERS
    ensures WellFormed(r)
  {
    if |a.stack| == 0 then a else LeaveFrom(a, a.stack[|a.stack| - 1], e)
  }

  function Step(a: Account, e: Entry): (r: Account)
    requires WellFormed(a) && TimerIndex(e) < MAX_TIMERS
    ensures WellFormed(r)
  {
    if LogType(e) == ENTER then Enter(a, e) else if LogType(e) == LEAVE then Leave(a, e) else a
  }

  ghost predicate ValidLog(es: seq<Entry>)
  {
    forall i :: 0 <= i < |es| ==> TimerIndex(es[i]) < MAX_TIMERS
  }

  function Run(a: Account, es: seq<Entry>): (r: Account)
    requires WellFormed(a) && forall i :: 0 <= i < |es| ==> TimerIndex(es[i]) < MAX_TIMERS
    ensures WellFormed(r)
  {
    if |es| == 0 then a else Step(Run(a, es[..|es| - 1]), es[|es| - 1])
  }

  // ----- conservation

  function Sum(s: seq<int>): int
  {
    if |s| == 0 then 0 else Sum(s[..|s| - 1]) + s[|s| - 1]
  }

  lemma {:induction false} SumAddAt(s: seq<int>, i: nat, x: int)
    requires i < |s|
    ensures Sum(AddAt(s, i, x)) == Sum(s) + x
  {
    var n := |s| - 1;
    if i < n {
      SumAddAt(s[..n], i, x);
      assert AddAt(s, i, x)[..n] == AddAt(s[..n], i, x);
    } else {
      assert AddAt(s, i, x)[..n] == s[..n];
    }
  }

  /** Exclusive ticks move between totals and the open scopes' child ticks; none appear or
      vanish in a step. */
  lemma StepConserves(a: Account, e: Entry)
    requires WellFormed(a) && TimerIndex(e) < MAX_TIMERS
    ensures Sum(Step(a, e).exclusive) - Sum(Step(a, e).child) == Sum(a.exclusive) - Sum(a.child)
  {
    var n := |a.stack|;
    if LogType(e) == ENTER {
      assert (a.child + [0])[..|a.child|] == a.child;
    } else if LogType(e) == LEAVE && n > 0 {
      var ticks := TickDifference(a.stack[n - 1], e);
      SumAddAt(a.exclusive, TimerIndex(e), ticks - a.child[n]);
      SumAddAt(a.child[..n], n - 1, ticks);
    }
  }

  /** Over any log the exclusive ticks added equal the change in child ticks. */
  lemma {:induction false} RunConserves(a: Account, es: seq<Entry>)
    requires WellFormed(a) && ValidLog(es)
    ensures Sum(Run(a, es).exclusive) - Sum(a.exclusive) == Sum(Run(a, es).child) - Sum(a.child)
  {
    if |es| > 0 {
      var n := |es| - 1;
      RunConserves(a, es[..n]);
      StepConserves(Run(a, es[..n]), es[n]);
    }
  }

  lemma RunLast(a: Account, es: seq<Entry>)
    requires WellFormed(a) && ValidLog(es) && |es| > 0
    ensures Run(a, es) == Step(Run(a, es[..|es| - 1]), es[|es| - 1])
  {
  }

  lemma {:induction false} RunConcat(a: Account, xs: seq<Entry>, ys: seq<Entry>)
    requires WellFormed(a) && ValidLog(xs) && ValidLog(ys)
    ensures ValidLog(xs + ys) && Run(a, xs + ys) == Run(Run(a, xs), ys)
    decreases |ys|
  {
    if |ys| == 0 {
      assert xs + ys == xs;
    } else {
      var n := |ys| - 1;
      var zs := xs + ys;
      RunConcat(a, xs, ys[..n]);
      assert zs[..|zs| - 1] == xs + ys[..n] && zs[|zs| - 1] == ys[n];
      assert ValidLog(zs);
      RunLast(a, zs);
      RunLast(Run(a, xs), ys);
    }
  }

  // ----- what a properly nested log means

  /** A timed scope: its timer, its two clock readings, and the scopes inside it. */
  datatype Scope = Scope(timer: nat, begin: nat, end: nat, inner: Scopes)
  datatype Scopes = Nil | Cons(head: Scope, tail: Scopes)

  ghost predicate ScopesOk(ss: Scopes)
  {
    ss.Cons? ==> ss.head.timer < MAX_TIMERS && ScopesOk(ss.head.inner) && ScopesOk(ss.tail)
  }

  /** The entries the scopes log. */
  function Flatten(ss: Scopes): seq<Entry>
  {
    match ss
    case Nil => []
    case Cons(s, tail) =>
      [MakeEntry(ENTER, s.timer, s.begin)] + Flatten(s.inner) + [MakeEntry(LEAVE, s.timer, s.end)] + Flatten(tail)
  }

  function Duration(s: Scope): int
  {
    Wrap48(s.end - s.begin)
  }

  /** Total duration of the scopes at this level. */
  function Total(ss: Scopes): int
  {
    match ss
    case Nil => 0
    case Cons(s, tail) => Duration(s) + Total(tail)
  }

  /** Inclusive time, exclusive time and number of scopes of timer t, at any depth. */
  function Inclusive(t: nat, ss: Scopes): int
  {
    match ss
    case Nil => 0
    case Cons(s, tail) => (if s.timer == t then Duration(s) else 0) + Inclusive(t, s.inner) + Inclusive(t, tail)
  }

  function Exclusive(t: nat, ss: Scopes): int
  {
    match ss
    case Nil => 0
    case Cons(s, tail) =>
      (if s.timer == t then Duration(s) - Total(s.inner) else 0) + Exclusive(t, s.inner) + Exclusive(t, tail)
  }

  function Count(t: nat, ss: Scopes): int
  {
    match ss
    case Nil => 0
    case Cons(s, tail) => (if s.timer == t then 1 else 0) + Count(t, s.inner) + Count(t, tail)
  }

  /** The account after the scopes, told from the account before. */
  ghost predicate Charged(a: Account, b: Account, ss: Scopes)
    requires WellFormed(a) && WellFormed(b)
  {
    && b.stack == a.stack && b.child == AddAt(a.child, |a.child| - 1, Total(ss))
    && (forall t :: 0 <= t < MAX_TIMERS ==> b.ticks[t] == a.ticks[t] + Inclusive(t, ss))
    && (forall t :: 0 <= t < MAX_TIMERS ==> b.exclusive[t] == a.exclusive[t] + Exclusive(t, ss))
    && (forall t :: 0 <= t < MAX_TIMERS ==> b.count[t] == a.count[t] + Count(t, ss))
  }

  lemma WrapTicks(begin: nat, end: nat)
    ensures Wrap48(end % TICKS - begin % TICKS) == Wrap48(end - begin)
  {
    assert end - begin == (end % TICKS - begin % TICKS) + TICKS * (end / TICKS - begin / TICKS);
    ModShift(end % TICKS - begin % TICKS, end / TICKS - begin / TICKS);
  }

  /** The duration measured from a scope's two entries. */
  lemma ScopeDuration(s: Scope)
    requires s.timer < MAX_TIMERS
    ensures var e, l := MakeEntry(ENTER, s.timer, s.begin), MakeEntry(LEAVE, s.timer, s.end);
            LogType(e) == ENTER && LogType(l) == LEAVE && TimerIndex(e) == TimerIndex(l) == s.timer
                && TickDifference(e, l) == Duration(s)
  {
    EntryFields(ENTER, s.timer, s.begin);
    EntryFields(LEAVE, s.timer, s.end);
    DifferenceWraps(MakeEntry(ENTER, s.timer, s.begin), MakeEntry(LEAVE, s.timer, s.end));
    WrapTicks(s.begin, s.end);
  }

  /** Closing a scope whose inner scopes have been charged. */
  lemma CloseScope(a: Account, b: Account, s: Scope)
    requires WellFormed(a) && WellFormed(b) && s.timer < MAX_TIMERS
    requires Charged(Enter(a, MakeEntry(ENTER, s.timer, s.begin)), b, s.inner)
    ensures Charged(a, Leave(b, MakeEntry(LEAVE, s.timer, s.end)), Cons(s, Nil))
  {
    ScopeDuration(s);
    var n := |a.stack|;
    assert b.child[..n + 1] == a.child && b.child[n + 1] == Total(s.inner);
    assert b.stack[..n] == a.stack;
  }

  lemma ChargedTwice(a: Account, b: Account, c: Account, s: Scope, tail: Scopes)
    requires WellFormed(a) && WellFormed(b) && WellFormed(c)
    requires Charged(a, b, Cons(s, Nil)) && Charged(b, c, tail)
    ensures Charged(a, c, Cons(s, tail))
  {
    assert Total(Cons(s, tail)) == Total(Cons(s, Nil)) + Total(tail);
    forall t | 0 <= t < MAX_TIMERS
      ensures Inclusive(t, Cons(s, tail)) == Inclusive(t, Cons(s, Nil)) + Inclusive(t, tail)
      ensures Exclusive(t, Cons(s, tail)) == Exclusive(t, Cons(s, Nil)) + Exclusive(t, tail)
      ensures Count(t, Cons(s, tail)) == Count(t, Cons(s, Nil)) + Count(t, tail)
    {
    }
  }

  lemma RunOne(a: Account, e: Entry)
    requires WellFormed(a) && TimerIndex(e) < MAX_TIMERS
    ensures Run(a, [e]) == Step(a, e)
  {
    assert [e][..0] == [];
  }

  /** A properly nested log charges every timer its scopes' durations, net of their children
      for the exclusive time, at whatever depth and however the scopes are arranged. */
  lemma {:induction false} RunScopes(a: Account, ss: Scopes)
    requires WellFormed(a) && ScopesOk(ss)
    ensures ValidLog(Flatten(ss)) && Charged(a, Run(a, Flatten(ss)), ss)
    decreases ss
  {
    match ss
    case Nil =>
    case Cons(s, tail) =>
      var e, l := MakeEntry(ENTER, s.timer, s.begin), MakeEntry(LEAVE, s.timer, s.end);
      ScopeDuration(s);
      var a1 := Enter(a, e);
      RunScopes(a1, s.inner);
      var b := Run(a1, Flatten(s.inner));
      CloseScope(a, b, s);
      RunScopes(Leave(b, l), tail);
      ChargedTwice(a, Leave(b, l), Run(Leave(b, l), Flatten(tail)), s, tail);
      RunScope(a, e, Flatten(s.inner), l, Flatten(tail));
  }

  /** Entering, what happens inside, leaving, and what follows, one after the other. */
  lemma RunScope(a: Account, e: Entry, inner: seq<Entry>, l: Entry, tail: seq<Entry>)
    requires WellFormed(a) && TimerIndex(e) < MAX_TIMERS && TimerIndex(l) < MAX_TIMERS && ValidLog(inner)
    requires ValidLog(tail)
    ensures ValidLog([e] + inner + [l] + tail)
    ensures Run(a, [e] + inner + [l] + tail) == Run(Step(Run(Step(a, e), inner), l), tail)
  {
    RunOne(a, e);
    RunOne(Run(Step(a, e), inner), l);
    RunConcat(a, [e], inner);
    RunConcat(a, [e] + inner, [l]);
    RunConcat(a, [e] + inner + [l], tail);
  }

  /** With no scope open before and after, exclusive times add up to the outermost durations. */
  lemma ExclusiveAddsUp(a: Account, ss: Scopes)
    requires WellFormed(a) && a.stack == [] && ScopesOk(ss)
    ensures ValidLog(Flatten(ss)) && Run(a, Flatten(ss)).stack == []
    ensures Sum(Run(a, Flatten(ss)).exclusive) - Sum(a.exclusive) == Total(ss)
  {
    RunScopes(a, ss);
    RunConserves(a, Flatten(ss));
    SumAddAt(a.child, 0, Total(ss));
  }

  // ----- the depth of the stack

  /** Nesting stays below the stack's size throughout. */
  ghost predicate Fits(a: Account, es: seq<Entry>)
    requires WellFormed(a) && ValidLog(es)
  {
    forall n :: 0 <= n <= |es| ==> |Run(a, es[..n]).stack| < STACK_MAX
  }

  /** One entry more keeps within the stack unless it goes beyond it itself. */
  lemma FitsNext(a: Account, es: seq<Entry>, e: Entry)
    requires WellFormed(a) && ValidLog(es) && TimerIndex(e) < MAX_TIMERS
    ensures ValidLog(es + [e]) && Run(a, es + [e]) == Step(Run(a, es), e)
    ensures Fits(a, es + [e]) <==> Fits(a, es) && |Step(Run(a, es), e).stack| < STACK_MAX
  {
    RunAppend(a, es, e, es + [e]);
    FitsPrefix(a, es, e, es + [e]);
    FitsAppend(a, es, e, es + [e]);
  }

  lemma RunAppend(a: Account, es: seq<Entry>, e: Entry, more: seq<Entry>)
    requires WellFormed(a) && ValidLog(es) && TimerIndex(e) < MAX_TIMERS && more == es + [e]
    ensures ValidLog(more) && Run(a, more) == Step(Run(a, es), e)
  {
    assert more[..|es|] == es;
    RunLast(a, more);
  }

  lemma FitsPrefix(a: Account, es: seq<Entry>, e: Entry, more: seq<Entry>)
    requires WellFormed(a) && ValidLog(es) && ValidLog(more) && more == es + [e]
    ensures Fits(a, more) ==> Fits(a, es) && |Run(a, more).stack| < STACK_MAX
  {
    if Fits(a, more) {
      forall n | 0 <= n <= |es|
        ensures |Run(a, es[..n]).stack| < STACK_MAX
      {
        assert more[..n] == es[..n];
      }
      assert more[..|more|] == more;
    }
  }

  lemma FitsAppend(a: Account, es: seq<Entry>, e: Entry, more: seq<Entry>)
    requires WellFormed(a) && ValidLog(es) && ValidLog(more) && more == es + [e]
    ensures Fits(a, es) && |Run(a, more).stack| < STACK_MAX ==> Fits(a, more)
  {
    if Fits(a, es) && |Run(a, more).stack| < STACK_MAX {
      forall n | 0 <= n <= |more|
        ensures |Run(a, more[..n]).stack| < STACK_MAX
      {
        if n < |more| {
          assert more[..n] == es[..n];
        } else {
          assert more[..n] == more;
        }
      }
    }
  }

  /** Scopes entered and not left pile up. */
  lemma {:induction false} EntersPile(a: Account, es: seq<Entry>)
    requires WellFormed(a) && ValidLog(es) && forall i :: 0 <= i < |es| ==> LogType(es[i]) == ENTER
    ensures |Run(a, es).stack| == |a.stack| + |es|
  {
    if |es| > 0 {
      EntersPile(a, es[..|es| - 1]);
      RunLast(a, es);
    }
  }

  /** STACK_MAX enter entries in a row reach a write outside the stack arrays, fewer do not. */
  lemma EntersTooDeep(es: seq<Entry>)
    requires ValidLog(es) && forall i :: 0 <= i < |es| ==> LogType(es[i]) == ENTER
    ensures Fits(Start(), es) <==> |es| < STACK_MAX
  {
    forall n | 0 <= n <= |es|
      ensures |Run(Start(), es[..n]).stack| == n
    {
      EntersPile(Start(), es[..n]);
    }
    assert es[..|es|] == es;
  }

  /** The depth after an entry depends on the depth before it only. */
  lemma StepDepth(a: Account, b: Account, e: Entry)
    requires WellFormed(a) && WellFormed(b) && TimerIndex(e) < MAX_TIMERS && |a.stack| == |b.stack|
    ensures |Step(a, e).stack| == |Step(b, e).stack|
  {
  }

  // ----- the accountant

  class Accountant {
    const stack: array<nat>
    const child: array<int>
    var stackPos: nat
    const ticks: array<int>
    const exclusive: array<int>
    const count: array<int>

    /** A write outside the stack arrays has been reached; nothing is modelled after it. */
    var faulted: bool

    /** The enter entries of the open scopes, as they were read. */
    ghost var entered: seq<Entry>

    ghost predicate Valid()
      reads this
    {
      && stack.Length == STACK_MAX && child.Length == STACK_MAX && stackPos < STACK_MAX && |entered| == stackPos
      && ticks.Length == MAX_TIMERS && exclusive.Length == MAX_TIMERS && count.Length == MAX_TIMERS
      && child != ticks && child != exclusive && child != count && ticks != exclusive && ticks != count
          && exclusive != count
    }

    ghost function State(): (a: Account)
      requires Valid()
      reads this, child, ticks, exclusive, count
      ensures WellFormed(a)
    {
      Account(entered, child[..stackPos + 1], ticks[..], exclusive[..], count[..])
    }

    /** The slots of the enter entries. */
    ghost function Slots(): seq<nat>
      requires Valid()
      reads this, stack
    {
      stack[..stackPos]
    }

    constructor ()
      ensures Valid() && fresh(stack) && fresh(child) && fresh(ticks) && fresh(exclusive) && fresh(count)
      ensures State() == Start() && Slots() == [] && !faulted
    {
      stack := new nat[STACK_MAX](_ => 0);
      child := new int[STACK_MAX](_ => 0);
      stackPos, faulted := 0, false;
      ticks := new int[MAX_TIMERS](_ => 0);
      exclusive := new int[MAX_TIMERS](_ => 0);
      count := new int[MAX_TIMERS](_ => 0);
      entered := [];
      new;
      assert child[..1] == [0];
      assert ticks[..] == exclusive[..] == count[..] == Start().ticks;
    }

    /** Opens a scope whose enter entry e was read at slot k. The guard on the position lets
        depth STACK_MAX - 1 through, where the child ticks' cell is one beyond the array: that
        write is reached exactly when the scope would make the nesting STACK_MAX deep. */
    method EnterScope(k: nat, e: Entry)
      requires Valid()
      modifies this`stackPos, this`faulted, this`entered, stack, child
      ensures Valid()
      ensures faulted == (old(faulted) || |Enter(old(State()), e).stack| >= STACK_MAX)
      ensures State() == if stackPos == old(stackPos) then old(State()) else Enter(old(State()), e)
      ensures Slots() == if stackPos == old(stackPos) then old(Slots()) else old(Slots()) + [k]
      ensures stackPos == old(stackPos) <==> |Enter(old(State()), e).stack| >= STACK_MAX
    {
      if stackPos < STACK_MAX {
        if stackPos + 1 < child.Length {
          stack[stackPos] := k;
          stackPos := stackPos + 1;
          child[stackPos] := 0;
          entered := entered + [e];
          assert stack[..stackPos] == old(stack[..stackPos]) + [k];
          assert child[..stackPos + 1] == old(child[..stackPos + 1]) + [0];
        } else {
          faulted := true;
        }
      }
    }

    /** Closes the innermost scope, timed from the entry now at its slot. */
    method LeaveScope(start: Entry, e: Entry)
      requires Valid() && TimerIndex(e) < MAX_TIMERS && stackPos > 0
      modifies this`stackPos, this`entered, child, ticks, exclusive, count
      ensures Valid() && State() == LeaveFrom(old(State()), start, e) && Slots() == old(Slots())[..stackPos]
    {
      var t := TickDifference(start, e);
      var children := child[stackPos];
      stackPos := stackPos - 1;
      child[stackPos] := child[stackPos] + t;
      entered := entered[..stackPos];
      var timer := TimerIndex(e);
      ticks[timer] := ticks[timer] + t;
      exclusive[timer] := exclusive[timer] + (t - children);
      count[timer] := count[timer] + 1;
    }
  }
}

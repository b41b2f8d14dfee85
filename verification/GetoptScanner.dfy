/** The resumable scanner itself, and the run of calls up to the one that returns -1. */
module GetoptScanner {
  import opened GetoptGrammar
  import opened Getopt
  import opened GetoptRun
  import opened GetoptOrder

  datatype Ordering = RequireOrder | Permute | ReturnInOrder

  /** The order a first call sets. */
  function OrderOf(optstring: string, posixlyCorrect: bool): Ordering
  {
    if |optstring| > 0 && optstring[0] == '-' then ReturnInOrder
    else if (|optstring| > 0 && optstring[0] == '+') || posixlyCorrect then RequireOrder
    else Permute
  }

  function Strip(optstring: string): string
  {
    if |optstring| > 0 && (optstring[0] == '-' || optstring[0] == '+') then optstring[1..] else optstring
  }

  /** The table search as the loop runs it. */
  method SearchLong(cfg: Config, s: string) returns (m: LongMatch)
    ensures m == Search(cfg, s)
  {
    if cfg.longopts.None? {
      return NoMatch;
    }
    var table, name := cfg.longopts.value, s[..NameLen(s)];
    var found: Option<nat>, ambig := None, false;
    var i := 0;
    while i < |table|
      invariant i <= |table| && (found.Some? ==> found.value < i)
      invariant FindLong(table, name, cfg.longOnly, i, found, ambig) == Search(cfg, s)
    {
      if name <= table[i].name {
        if |name| == |table[i].name| {
          return Unique(i);
        } else if found.None? {
          found := Some(i);
        } else if cfg.longOnly || Differs(table[found.value], table[i]) {
          ambig := true;
        }
      }
      i := i + 1;
    }
    m := if ambig then Ambiguous else if found.Some? then Unique(found.value) else NoMatch;
  }

  class Scanner {
    var optind: nat
    var optarg: Option<string>
    var optopt: int
    var initialized: bool
    var nextchar: string
    var ordering: Ordering
    var first: nat
    var last: nat

    /** What holds between calls once scanning has begun. */
    ghost predicate Running(s: Args, cfg: Config, orig: Args, start: nat)
      reads this
    {
      && initialized && 1 <= start <= optind <= |s| && |s| == |orig|
      && Inside(cfg, s[optind..], nextchar)
      && if ordering == Permute then Sorted(cfg, orig, start, s, first, last, optind)
         else s == orig && first == last == start
    }

    ghost predicate Ready(s: Args, cfg: Config, orig: Args, start: nat)
      reads this
    {
      if initialized then Running(s, cfg, orig, start)
      else s == orig && start == (if optind == 0 then 1 else optind) && start <= |orig|
    }

    /** The answers still to come. */
    ghost function ToCome(s: Args, cfg: Config, start: nat): seq<Answer>
      reads this
    {
      if initialized then if optind <= |s| then Pending(cfg, s[optind..], nextchar) else []
      else if start <= |s| then Parse(cfg, s[start..]) else []
    }

    /** The same where argv is left alone. */
    ghost function ToComeUp(s: Args, cfg: Config, start: nat, inOrder: bool): seq<Answer>
      reads this
    {
      if initialized then if optind <= |s| then PendingUp(cfg, s[optind..], nextchar, inOrder) else []
      else if start <= |s| then ReadUp(cfg, s[start..], inOrder) else []
    }

    /** Where optind is in the end. */
    ghost function Goal(s: Args, cfg: Config, start: nat, inOrder: bool): nat
      reads this
    {
      var from := if initialized then optind else start;
      if from <= |s| then from + Reach(cfg, s[from..], inOrder) else from
    }

    /** An unused scanner; optind 0 asks for the default. */
    constructor (optind0: nat)
      ensures !initialized && optind == optind0
    {
      optind, optarg, optopt, initialized := optind0, None, '?' as int, false;
      nextchar, ordering, first, last := "", Permute, 0, 0;
    }

    method Initialize(optstring: string, posixlyCorrect: bool)
      modifies this
      ensures initialized && optind == (if old(optind) == 0 then 1 else old(optind)) && first == last == optind
      ensures nextchar == ""
      ensures ordering == OrderOf(optstring, posixlyCorrect)
    {
      if optind == 0 {
        optind := 1;
      }
      first, last, nextchar := optind, optind, "";
      if |optstring| > 0 && optstring[0] == '-' {
        ordering := ReturnInOrder;
      } else if |optstring| > 0 && optstring[0] == '+' {
        ordering := RequireOrder;
      } else if posixlyCorrect {
        ordering := RequireOrder;
      } else {
        ordering := Permute;
      }
      initialized := true;
    }

    method Exchange(argv: array<string>)
      requires first <= last <= optind <= argv.Length
      modifies this`first, this`last, argv
      ensures argv[..] == Target(old(argv[..]), old(first), old(last), optind)
      ensures first == old(first) + (optind - old(last)) && last == optind
    {
      Rotate(argv, first, last, optind);
      first := first + (optind - last);
      last := optind;
    }

    method GatherExchange(argv: array<string>, ghost cfg: Config, ghost orig: Args, ghost start: nat)
      requires Sorted(cfg, orig, start, argv[..], first, last, optind)
      modifies this`first, this`last, argv
      ensures Sorted(cfg, orig, start, argv[..], first, optind, optind) && last == optind
      ensures argv[..][optind..] == old(argv[..])[optind..]
    {
      ghost var s, f, l := argv[..], first, last;
      Exchange(argv);
      SortedExchange(cfg, orig, start, s, f, l, optind, argv[..], first);
    }

    /** Brings the options read so far together, before the operands skipped so far. */
    method Gather(argv: array<string>, ghost cfg: Config, ghost orig: Args, ghost start: nat)
      requires Sorted(cfg, orig, start, argv[..], first, last, optind)
      modifies this`first, this`last, argv
      ensures Sorted(cfg, orig, start, argv[..], first, optind, optind)
      ensures argv[..][optind..] == old(argv[..])[optind..]
    {
      ghost var s := argv[..];
      if first != last && last != optind {
        GatherExchange(argv, cfg, orig, start);
      } else if last != optind {
        SortedNoOperands(cfg, orig, start, s, first, last, optind);
        first := optind;
      }
    }

    /** Passes over operands. */
    method SkipOperands(argv: array<string>, ghost cfg: Config, ghost orig: Args, ghost start: nat)
      requires Sorted(cfg, orig, start, argv[..], first, optind, optind)
      modifies this`last, this`optind
      ensures old(optind) <= optind && Sorted(cfg, orig, start, argv[..], first, last, optind) && last == optind
      ensures optind < argv.Length ==> !IsOperand(argv[optind])
      ensures Parse(cfg, argv[optind..]) == Parse(cfg, argv[old(optind)..])
    {
      ghost var s := argv[..];
      ghost var all := Parse(cfg, s[optind..]);
      while optind < argv.Length && IsOperand(argv[optind])
        invariant old(optind) <= optind && Sorted(cfg, orig, start, s, first, optind, optind)
        invariant Parse(cfg, s[optind..]) == all
        decreases argv.Length - optind
      {
        var k := optind;
        optind := k + 1;
        SortedSkip(cfg, orig, start, s, first, k, optind);
      }
      last := optind;
    }

    /** "--" at optind ends the options; everything after it is an operand. */
    method EndOptions(argv: array<string>, ghost cfg: Config, ghost orig: Args, ghost start: nat)
      requires Sorted(cfg, orig, start, argv[..], first, last, optind) && last == optind
      requires optind < argv.Length && argv[optind] == "--"
      modifies this`first, this`last, this`optind, argv
      ensures Final(cfg, orig, start, argv[..], first) && first <= last == optind == argv.Length
    {
      ghost var s := argv[..];
      ghost var operand := first + 1;
      FinalAtDashes(cfg, orig, start, s, first, optind, optind + 1, operand);
      optind := optind + 1;
      if first != last && last != optind {
        Exchange(argv);
      } else if first == last {
        TargetSame(s, first, optind);
        first := optind;
      }
      assert first == operand;
      last := argv.Length;
      optind := argv.Length;
    }

    /** The scan at an element boundary in PERMUTE order: done, or at an option element. */
    method Scan(argv: array<string>, cfg: Config, ghost orig: Args, ghost start: nat) returns (done: bool)
      requires Sorted(cfg, orig, start, argv[..], first, last, optind)
      modifies this`first, this`last, this`optind, this`nextchar, argv
      ensures done ==> Final(cfg, orig, start, argv[..], optind) && old(Parse(cfg, argv[..][optind..])) == []
      ensures !done ==>
                Sorted(cfg, orig, start, argv[..], first, last, optind) && optind < argv.Length
                    && IsOption(argv[optind])
      ensures !done ==>
                nextchar == Body(cfg, argv[optind])
                    && Parse(cfg, argv[..][optind..]) == old(Parse(cfg, argv[..][optind..]))
    {
      Gather(argv, cfg, orig, start);
      SkipOperands(argv, cfg, orig, start);
      if optind != argv.Length && argv[optind] == "--" {
        FinalAtDashes(cfg, orig, start, argv[..], first, optind, optind + 1, first + 1);
        EndOptions(argv, cfg, orig, start);
      } else if optind == argv.Length {
        FinalAtEnd(cfg, orig, start, argv[..], first);
      }
      if optind == argv.Length {
        if first != last {
          optind := first;
        }
        return true;
      }
      nextchar := Body(cfg, argv[optind]);
      done := false;
    }
  
    /** Reads one option at nextchar, moving past the element once it is used up. */
    method ReadOne(argv: array<string>, cfg: Config) returns (ret: int)
      requires optind < argv.Length && IsOption(argv[optind]) && nextchar != ""
      requires Inside(cfg, argv[..][optind..], nextchar)
      modifies this`optind, this`nextchar, this`optarg, this`optopt
      ensures optind <= argv.Length && Inside(cfg, argv[..][optind..], nextchar)
      ensures Pending(cfg, argv[..][old(optind)..], old(nextchar)) == [Answer(ret, optarg)]
                + Pending(cfg, argv[..][optind..], nextchar)
      ensures if nextchar == "" then optind == old(optind) + Extent(cfg, argv[..][old(optind)..])
                else optind == old(optind)
      ensures Read(cfg, argv[..][old(optind)..], old(nextchar), Answer(ret, optarg), nextchar)
    {
      ghost var rest := argv[..][optind..];
      var e, next := argv[optind], if optind + 1 < argv.Length then Some(argv[optind + 1]) else None;
      var m := SearchLong(cfg, nextchar);
      var r := ReadWith(cfg, e, nextchar, next, m);
      assert rest[0] == e && next == Next(rest) && r == ReadOption(cfg, rest[0], nextchar, Next(rest));
      if r.rest == "" {
        PendingReadEnd(cfg, rest, nextchar, r);
        ghost var k := Extent(cfg, rest);
        assert rest[k..] == argv[..][optind + k..];
        optind := optind + 1;
        if r.takes {
          optind := optind + 1;
        }
      } else {
        PendingReadMore(cfg, rest, nextchar, r);
      }
      nextchar, optarg, ret := r.rest, r.optarg, r.ret;
      if r.optopt.Some? {
        optopt := r.optopt.value;
      }
    }

    /** Scans to the next option element, if there is one. */
    method Seek(argv: array<string>, cfg: Config, ghost orig: Args, ghost start: nat) returns (done: bool)
      requires ordering == Permute && Running(argv[..], cfg, orig, start)
      modifies this`first, this`last, this`optind, this`nextchar, argv
      ensures done ==> old(ToCome(argv[..], cfg, start)) == [] && Final(cfg, orig, start, argv[..], optind)
      ensures !done ==> Running(argv[..], cfg, orig, start) && nextchar != ""
      ensures !done ==> old(ToCome(argv[..], cfg, start)) == ToCome(argv[..], cfg, start)
    {
      if nextchar != "" {
        return false;
      }
      done := Scan(argv, cfg, orig, start);
      if !done {
        ghost var rest := argv[..][optind..];
        assert rest[0] == argv[optind];
        PendingStart(cfg, rest);
      }
    }

    /** Reads one option of the current element. */
    method Take(argv: array<string>, cfg: Config, ghost orig: Args, ghost start: nat) returns (ret: int)
      requires ordering == Permute && Running(argv[..], cfg, orig, start) && nextchar != ""
      modifies this`optind, this`nextchar, this`optarg, this`optopt
      ensures Running(argv[..], cfg, orig, start)
      ensures old(ToCome(argv[..], cfg, start)) == [Answer(ret, optarg)] + ToCome(argv[..], cfg, start)
    {
      ghost var s, k := argv[..], optind;
      assert s[k..][0] == argv[k];
      ret := ReadOne(argv, cfg);
      if nextchar == "" {
        SortedRead(cfg, orig, start, s, first, last, k, optind - k, optind);
      }
    }

    /** One call in PERMUTE order. It reports the next answer of the left-to-right reading of
        the original arguments, or, when there is none left, ends with argv sorted. */
    method NextPermute(argv: array<string>, cfg: Config, ghost orig: Args, ghost start: nat)
      returns (ret: int, done: bool)
      requires ordering == Permute && Running(argv[..], cfg, orig, start)
      modifies this, argv
      ensures done ==> ret == -1 && old(ToCome(argv[..], cfg, start)) == [] && Final(cfg, orig, start, argv[..], optind)
      ensures ordering == Permute && (!done ==> Running(argv[..], cfg, orig, start))
      ensures !done ==> old(ToCome(argv[..], cfg, start)) == [Answer(ret, optarg)] + ToCome(argv[..], cfg, start)
    {
      optarg := None;
      done := Seek(argv, cfg, orig, start);
      if done {
        ret := -1;
      } else {
        ret := Take(argv, cfg, orig, start);
      }
    }
  
    /** The end in the other two orders, which leave argv alone: the last element or "--". */
    method AtEnd(argv: array<string>, ghost cfg: Config, ghost orig: Args, ghost start: nat) returns (done: bool)
      requires ordering != Permute && Running(argv[..], cfg, orig, start) && nextchar == ""
      modifies this`optind, this`first, this`last
      ensures var inOrder := ordering == ReturnInOrder;
              done ==>
                  old(ToComeUp(argv[..], cfg, start, inOrder)) == []
                      && optind == old(Goal(argv[..], cfg, start, inOrder))
      ensures !done ==> optind == old(optind) && first == old(first) && last == old(last)
      ensures !done ==> optind < argv.Length && argv[optind] != "--"
    {
      ghost var rest := argv[..][optind..];
      assert optind < argv.Length ==> rest[0] == argv[optind];
      if optind != argv.Length && argv[optind] == "--" {
        optind := optind + 1;
        first, last := optind, argv.Length;
        optind := argv.Length;
      }
      done := optind == argv.Length;
      if done && first != last {
        optind := first;
      }
    }

    /** Reports the operand at optind. */
    method ReportOperand(argv: array<string>, ghost cfg: Config, ghost orig: Args, ghost start: nat)
      requires ordering == ReturnInOrder && Running(argv[..], cfg, orig, start) && nextchar == ""
      requires optind < argv.Length && IsOperand(argv[optind])
      modifies this`optind, this`optarg
      ensures Running(argv[..], cfg, orig, start)
      ensures Goal(argv[..], cfg, start, true) == old(Goal(argv[..], cfg, start, true))
      ensures old(ToComeUp(argv[..], cfg, start, true)) == [Answer(1, optarg)] + ToComeUp(argv[..], cfg, start, true)
    {
      ghost var rest := argv[..][optind..];
      assert rest[0] == argv[optind] && rest[1..] == argv[..][optind + 1..];
      UpOperand(cfg, rest);
      optarg := Some(argv[optind]);
      optind := optind + 1;
    }

    /** Goes into the option element at optind. */
    method OpenElement(argv: array<string>, cfg: Config, ghost orig: Args, ghost start: nat)
      requires ordering != Permute && Running(argv[..], cfg, orig, start) && nextchar == ""
      requires optind < argv.Length && IsOption(argv[optind])
      modifies this`nextchar
      ensures var inOrder := ordering == ReturnInOrder;
              && Running(argv[..], cfg, orig, start) && nextchar != ""
              && ToComeUp(argv[..], cfg, start, inOrder) == old(ToComeUp(argv[..], cfg, start, inOrder))
    {
      ghost var rest := argv[..][optind..];
      assert rest[0] == argv[optind];
      UpStart(cfg, rest, ordering == ReturnInOrder);
      nextchar := Body(cfg, argv[optind]);
    }

    /** An element boundary in these orders: the end, the first operand (REQUIRE_ORDER), an operand
        to report, or an option element. */
    method Boundary(argv: array<string>, cfg: Config, ghost orig: Args, ghost start: nat)
      returns (answered: bool, done: bool)
      requires ordering != Permute && Running(argv[..], cfg, orig, start) && nextchar == ""
      modifies this`optind, this`nextchar, this`optarg, this`first, this`last
      ensures var inOrder := ordering == ReturnInOrder;
              if done then
                && old(ToComeUp(argv[..], cfg, start, inOrder)) == []
                && optind == old(Goal(argv[..], cfg, start, inOrder))
              else
                && Running(argv[..], cfg, orig, start) && (!answered ==> nextchar != "" && optarg == old(optarg))
                && Goal(argv[..], cfg, start, inOrder) == old(Goal(argv[..], cfg, start, inOrder))
                && old(ToComeUp(argv[..], cfg, start, inOrder)) ==
                   (if answered then [Answer(1, optarg)] else []) + ToComeUp(argv[..], cfg, start, inOrder)
    {
      answered := false;
      done := AtEnd(argv, cfg, orig, start);
      if !done {
        if IsOperand(argv[optind]) {
          if ordering == RequireOrder {
            assert argv[..][optind..][0] == argv[optind];
            done := true;
          } else {
            ReportOperand(argv, cfg, orig, start);
            answered := true;
          }
        } else {
          OpenElement(argv, cfg, orig, start);
        }
      }
    }

    /** Reads one option where argv stays as it is. */
    method ReadInPlace(argv: array<string>, cfg: Config, ghost orig: Args, ghost start: nat) returns (ret: int)
      requires ordering != Permute && Running(argv[..], cfg, orig, start) && nextchar != ""
      modifies this`optind, this`nextchar, this`optarg, this`optopt
      ensures Running(argv[..], cfg, orig, start)
      ensures var inOrder := ordering == ReturnInOrder;
              && old(ToComeUp(argv[..], cfg, start, inOrder)) ==
                 [Answer(ret, optarg)] + ToComeUp(argv[..], cfg, start, inOrder)
              && Goal(argv[..], cfg, start, inOrder) == old(Goal(argv[..], cfg, start, inOrder))
    {
      ghost var rest, k, s, inOrder := argv[..][optind..], optind, nextchar, ordering == ReturnInOrder;
      assert rest[0] == argv[optind];
      UpStart(cfg, rest, inOrder);
      ret := ReadOne(argv, cfg);
      UpRead(cfg, rest, s, Answer(ret, optarg), nextchar, inOrder);
      if nextchar == "" {
        assert rest[Extent(cfg, rest)..] == argv[..][optind..];
      }
    }

    /** One call in the other two orders: the next answer of the reading of the arguments, or,
        when there is none left, the end. */
    method NextInPlace(argv: array<string>, cfg: Config, ghost orig: Args, ghost start: nat)
      returns (ret: int, done: bool)
      requires ordering != Permute && Running(argv[..], cfg, orig, start)
      modifies this
      ensures ordering == old(ordering)
      ensures var inOrder := ordering == ReturnInOrder;
              if done then
                && ret == -1 && old(ToComeUp(argv[..], cfg, start, inOrder)) == []
                && optind == old(Goal(argv[..], cfg, start, inOrder))
              else
                && Running(argv[..], cfg, orig, start)
                && old(ToComeUp(argv[..], cfg, start, inOrder)) ==
                   [Answer(ret, optarg)] + ToComeUp(argv[..], cfg, start, inOrder)
                && Goal(argv[..], cfg, start, inOrder) == old(Goal(argv[..], cfg, start, inOrder))
    {
      optarg := None;
      done := false;
      var answered := false;
      if nextchar == "" {
        answered, done := Boundary(argv, cfg, orig, start);
      }
      if done {
        ret := -1;
      } else if answered {
        ret := 1;
      } else {
        ret := ReadInPlace(argv, cfg, orig, start);
      }
    }

    /** The first call sets the order; later ones find it. */
    method Begin(ghost s: Args, optstring: string, posixlyCorrect: bool, ghost cfg: Config, ghost orig: Args,
                 ghost start: nat)
      requires Ready(s, cfg, orig, start)
      modifies this
      ensures Running(s, cfg, orig, start) && ToCome(s, cfg, start) == old(ToCome(s, cfg, start))
      ensures ordering == if old(initialized) then old(ordering) else OrderOf(optstring, posixlyCorrect)
      ensures forall b :: ToComeUp(s, cfg, start, b) == old(ToComeUp(s, cfg, start, b))
      ensures forall b :: Goal(s, cfg, start, b) == old(Goal(s, cfg, start, b))
    {
      if !initialized {
        Initialize(optstring, posixlyCorrect);
        SortedInit(cfg, orig, start);
      }
    }

    /** One call of getopt: in PERMUTE order the next answer of the reading of all arguments, and
        argv sorted when there is none left; in the other orders the next answer of the reading
        up to the first operand or with operands reported, with argv left alone. */
    method NextOption(argv: array<string>, optstring: string, longopts: Option<seq<LongOpt>>, longOnly: bool,
                      posixlyCorrect: bool, ghost orig: Args, ghost start: nat) returns (ret: int, ghost done: bool)
      requires !UsesW(Strip(optstring))
      requires argv.Length > 0 ==> Ready(argv[..], Config(Strip(optstring), longopts, longOnly), orig, start)
      modifies this, argv
      ensures argv.Length == 0 ==> ret == -1 && done
      ensures var cfg := Config(Strip(optstring), longopts, longOnly);
              argv.Length > 0 && ordering == Permute ==>
                if done then
                    ret == -1 && old(ToCome(argv[..], cfg, start)) == [] && Final(cfg, orig, start, argv[..], optind)
                else Running(argv[..], cfg, orig, start)
                     && old(ToCome(argv[..], cfg, start)) == [Answer(ret, optarg)] + ToCome(argv[..], cfg, start)
      ensures var cfg, inOrder := Config(Strip(optstring), longopts, longOnly), ordering == ReturnInOrder;
              argv.Length > 0 && ordering != Permute ==>
                && argv[..] == old(argv[..])
                && if done then
                     && ret == -1 && old(ToComeUp(argv[..], cfg, start, inOrder)) == []
                     && optind == old(Goal(argv[..], cfg, start, inOrder))
                   else
                     && Running(argv[..], cfg, orig, start)
                     && old(ToComeUp(argv[..], cfg, start, inOrder)) ==
                        [Answer(ret, optarg)] + ToComeUp(argv[..], cfg, start, inOrder)
                     && Goal(argv[..], cfg, start, inOrder) == old(Goal(argv[..], cfg, start, inOrder))
      ensures argv.Length > 0 ==>
                ordering == if old(initialized) then old(ordering) else OrderOf(optstring, posixlyCorrect)
    {
      if argv.Length < 1 {
        return -1, true;
      }
      var cfg := Config(Strip(optstring), longopts, longOnly);
      Begin(argv[..], optstring, posixlyCorrect, cfg, orig, start);
      if ordering == Permute {
        ret, done := NextPermute(argv, cfg, orig, start);
      } else {
        ret, done := NextInPlace(argv, cfg, orig, start);
      }
    }
  }

  /** The loop ends when nothing is left, or at an answer that is -1. */
  lemma Ended(answers: seq<Answer>, come: seq<Answer>, all: seq<Answer>, done: bool)
    requires all == answers + come && NoneEnds(answers)
    requires if done then come == [] else |come| > 0 && come[0].ret == -1
    ensures UpToEnd(answers, all) && (answers == all <==> done) && (NoneEnds(all) ==> done)
  {
    if !done {
      assert all[|answers|] == come[0];
    }
  }

  lemma EndPermutes(cfg: Config, orig: Args, start: nat, s: Args, first: nat, last: nat, optind: nat, done: bool)
    requires if done then Final(cfg, orig, start, s, optind) else Sorted(cfg, orig, start, s, first, last, optind)
    ensures multiset(s) == multiset(orig)
  {
    if done {
      FinalIsPermutation(cfg, orig, start, s, optind);
    } else {
      SortedIsPermutation(cfg, orig, start, s, first, last, optind);
    }
  }

  /** The usual loop over getopt, in PERMUTE order: the answers are those of the original
      command line read from left to right, up to one that is -1 and ends the loop early. If none
      is, argv ends up sorted. */
  method ReadAll(argv: array<string>, optstring: string, longopts: Option<seq<LongOpt>>, longOnly: bool)
    returns (answers: seq<Answer>, optind: nat)
    requires argv.Length > 0 && !UsesW(optstring) && Strip(optstring) == optstring
    modifies argv
    ensures var cfg, all := Config(optstring, longopts, longOnly),
              Parse(Config(optstring, longopts, longOnly), old(argv[1..]));
            && UpToEnd(answers, all) && (NoMinusOne(cfg) ==> answers == all)
            && (answers == all ==> Final(cfg, old(argv[..]), 1, argv[..], optind))
    ensures multiset(argv[..]) == multiset(old(argv[..]))
  {
    ghost var cfg, orig := Config(optstring, longopts, longOnly), argv[..];
    assert orig[1..] == old(argv[1..]);
    ParseIfNone(cfg, orig[1..]);
    var sc := new Scanner(1);
    answers := [];
    while true
      invariant fresh(sc) && sc.Ready(argv[..], cfg, orig, 1) && (sc.initialized ==> sc.ordering == Permute)
      invariant answers + sc.ToCome(argv[..], cfg, 1) == Parse(cfg, orig[1..]) && NoneEnds(answers)
      decreases |sc.ToCome(argv[..], cfg, 1)|
    {
      ghost var come := sc.ToCome(argv[..], cfg, 1);
      ghost var done;
      var ret;
      ret, done := sc.NextOption(argv, optstring, longopts, longOnly, false, orig, 1);
      if ret == -1 {
        Ended(answers, come, Parse(cfg, orig[1..]), done);
        EndPermutes(cfg, orig, 1, argv[..], sc.first, sc.last, sc.optind, done);
        break;
      }
      ThreeAnswers(answers, [Answer(ret, sc.optarg)], sc.ToCome(argv[..], cfg, 1));
      answers := answers + [Answer(ret, sc.optarg)];
    }
    optind := sc.optind;
  }

  /** The same loop in the two other orders: the answers are those of the reading up to the first
      operand, or with each operand reported as 1; argv stays as it was. */
  method ReadInPlaceAll(argv: array<string>, optstring: string, longopts: Option<seq<LongOpt>>, longOnly: bool,
                        posixlyCorrect: bool) returns (answers: seq<Answer>, optind: nat)
    requires argv.Length > 0 && !UsesW(Strip(optstring)) && OrderOf(optstring, posixlyCorrect) != Permute
    modifies argv
    ensures argv[..] == old(argv[..])
    ensures var cfg, inOrder := Config(Strip(optstring), longopts, longOnly),
              OrderOf(optstring, posixlyCorrect) == ReturnInOrder;
            var all := ReadUp(cfg, old(argv[1..]), inOrder);
            && UpToEnd(answers, all) && (NoMinusOne(cfg) ==> answers == all)
            && (answers == all ==> optind == 1 + Reach(cfg, old(argv[1..]), inOrder))
  {
    ghost var cfg, orig := Config(Strip(optstring), longopts, longOnly), argv[..];
    ghost var order := OrderOf(optstring, posixlyCorrect);
    ghost var inOrder := order == ReturnInOrder;
    assert orig[1..] == old(argv[1..]);
    ReadUpIfNone(cfg, orig[1..], inOrder);
    var sc := new Scanner(1);
    answers := [];
    while true
      invariant fresh(sc) && argv[..] == orig && sc.Ready(orig, cfg, orig, 1)
      invariant (sc.initialized ==> sc.ordering == order)
      invariant answers + sc.ToComeUp(orig, cfg, 1, inOrder) == ReadUp(cfg, orig[1..], inOrder) && NoneEnds(answers)
      invariant sc.Goal(orig, cfg, 1, inOrder) == 1 + Reach(cfg, orig[1..], inOrder)
      decreases |sc.ToComeUp(orig, cfg, 1, inOrder)|
    {
      ghost var come := sc.ToComeUp(orig, cfg, 1, inOrder);
      ghost var done;
      var ret;
      ret, done := sc.NextOption(argv, optstring, longopts, longOnly, posixlyCorrect, orig, 1);
      if ret == -1 {
        Ended(answers, come, ReadUp(cfg, orig[1..], inOrder), done);
        break;
      }
      ThreeAnswers(answers, [Answer(ret, sc.optarg)], sc.ToComeUp(orig, cfg, 1, inOrder));
      answers := answers + [Answer(ret, sc.optarg)];
    }
    optind := sc.optind;
  }

  lemma ReadUpIfNone(cfg: Config, args: Args, inOrder: bool)
    ensures NoMinusOne(cfg) ==> NoneEnds(ReadUp(cfg, args, inOrder))
  {
    if NoMinusOne(cfg) {
      ReadUpNeverEnds(cfg, args, inOrder);
    }
  }

  lemma ParseIfNone(cfg: Config, args: Args)
    ensures NoMinusOne(cfg) ==> NoneEnds(Parse(cfg, args))
  {
    if NoMinusOne(cfg) {
      ParseNeverEnds(cfg, args);
    }
  }
}

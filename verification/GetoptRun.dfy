/** What the scanner maintains between calls, on values: which parts of argv hold options
    already read, operands already skipped, and elements not yet seen. */
module GetoptRun {
  import opened GetoptGrammar
  import opened Getopt

  predicate IsOption(e: string)
  {
    !IsOperand(e) && e != "--"
  }

  /** argv is s, of which orig[start..] was to be read and optind is the next element:
      options read so far fill s[start..first] and s[last..optind], the operands skipped so
      far fill s[first..last], and nothing from optind on has moved. What is read and what
      remains to be read together make up opts and operands. */
  ghost predicate Layout(opts: Args, operands: Args, orig: Args, start: nat, s: Args, first: nat, last: nat,
                         optind: nat,
                         moreOpts: Args, moreOperands: Args)
  {
    && |s| == |orig| && start <= first <= last <= optind <= |s|
    && s[..start] == orig[..start] && s[optind..] == orig[optind..]
    && opts == s[start..first] + s[last..optind] + moreOpts
    && operands == s[first..last] + moreOperands
  }

  ghost predicate Sorted(cfg: Config, orig: Args, start: nat, s: Args, first: nat, last: nat, optind: nat)
  {
    && start <= |orig| && optind <= |orig|
    && Layout(Options(cfg, orig[start..]), Operands(cfg, orig[start..]), orig, start, s, first, last, optind,
              Options(cfg, orig[optind..]), Operands(cfg, orig[optind..]))
  }

  /** nextchar is inside the option element rest[0], and what follows it decides alone
      whether the element takes the next one. */
  ghost predicate Inside(cfg: Config, rest: Args, nextchar: string)
  {
    nextchar != "" ==>
      |rest| > 0 && IsOption(rest[0])
      && Takes(cfg, rest[0], nextchar, Next(rest)) == Takes(cfg, rest[0], Body(cfg, rest[0]), Next(rest))
  }

  /** The answers still to come. */
  function Pending(cfg: Config, rest: Args, nextchar: string): seq<Answer>
  {
    if nextchar == "" || |rest| == 0 || !IsOption(rest[0]) then Parse(cfg, rest)
    else Answers(cfg, rest[0], nextchar, Next(rest)) + Parse(cfg, rest[Extent(cfg, rest)..])
  }

  lemma SortedInit(cfg: Config, orig: Args, start: nat)
    requires start <= |orig|
    ensures Sorted(cfg, orig, start, orig, start, start, start)
  {
  }

  /** Exchanging the skipped operands with the options read after them. */
  lemma LayoutExchange(opts: Args, operands: Args, orig: Args, start: nat, s: Args, first: nat, last: nat, optind: nat,
                       moreOpts: Args, moreOperands: Args, t: Args, f: nat)
    requires Layout(opts, operands, orig, start, s, first, last, optind, moreOpts, moreOperands)
    requires t == Target(s, first, last, optind) && f == first + (optind - last)
    ensures Layout(opts, operands, orig, start, t, f, optind, optind, moreOpts, moreOperands) && |t| == |s|
    ensures t[optind..] == s[optind..]
  {
    assert t[..start] == s[..start];
    assert t[start..f] == s[start..first] + s[last..optind];
    assert t[f..optind] == s[first..last];
    assert t[optind..] == s[optind..];
    assert t[start..f] + t[optind..optind] == t[start..f];
  }

  /** With no operands skipped there is nothing to exchange. */
  lemma LayoutNoOperands(opts: Args, operands: Args, orig: Args, start: nat, s: Args, first: nat, last: nat,
                         optind: nat,
                         moreOpts: Args, moreOperands: Args)
    requires Layout(opts, operands, orig, start, s, first, last, optind, moreOpts, moreOperands) && first == last
    ensures Layout(opts, operands, orig, start, s, optind, optind, optind, moreOpts, moreOperands)
  {
    assert s[start..first] + s[last..optind] == s[start..optind];
    assert s[start..optind] + s[optind..optind] == s[start..optind];
    assert s[first..last] == s[optind..optind] == [];
  }

  /** Passing over k elements that are options. */
  lemma LayoutRead(opts: Args, operands: Args, orig: Args, start: nat, s: Args, first: nat, last: nat, optind: nat,
                   k: nat,
                   moreOpts: Args, moreOperands: Args)
    requires optind + k <= |s| == |orig|
    requires Layout(opts, operands, orig, start, s, first, last, optind, orig[optind..optind + k] + moreOpts,
               moreOperands)
    ensures Layout(opts, operands, orig, start, s, first, last, optind + k, moreOpts, moreOperands)
  {
    assert s[optind + k..] == s[optind..][k..] && orig[optind + k..] == orig[optind..][k..];
    assert s[optind..][..k] == orig[optind..][..k] == orig[optind..optind + k];
    assert s[last..optind + k] == s[last..optind] + orig[optind..optind + k];
    Four(s[start..first], s[last..optind], orig[optind..optind + k], moreOpts);
  }

  /** Passing over an operand that directly follows those skipped. */
  lemma LayoutSkip(opts: Args, operands: Args, orig: Args, start: nat, s: Args, first: nat, optind: nat,
                   moreOpts: Args, moreOperands: Args)
    requires optind < |s| == |orig|
    requires Layout(opts, operands, orig, start, s, first, optind, optind, moreOpts, [orig[optind]] + moreOperands)
    ensures Layout(opts, operands, orig, start, s, first, optind + 1, optind + 1, moreOpts, moreOperands)
  {
    assert s[optind + 1..] == s[optind..][1..] && orig[optind + 1..] == orig[optind..][1..];
    assert s[optind] == s[optind..][0] == orig[optind];
    assert s[first..optind + 1] == s[first..optind] + [s[optind]];
    assert s[optind..optind] == s[optind + 1..optind + 1] == [];
    assert s[first..optind] + ([s[optind]] + moreOperands) == (s[first..optind] + [s[optind]]) + moreOperands;
  }

  lemma Four(a: Args, b: Args, c: Args, d: Args)
    ensures (a + b) + (c + d) == a + (b + c) + d
  {
  }

  lemma SortedExchange(cfg: Config, orig: Args, start: nat, s: Args, first: nat, last: nat, optind: nat, t: Args,
                       f: nat)
    requires Sorted(cfg, orig, start, s, first, last, optind) && t == Target(s, first, last, optind)
    requires f == first + (optind - last)
    ensures Sorted(cfg, orig, start, t, f, optind, optind) && |t| == |s| && t[optind..] == s[optind..]
  {
    LayoutExchange(Options(cfg, orig[start..]), Operands(cfg, orig[start..]), orig, start, s, first, last, optind,
                   Options(cfg, orig[optind..]), Operands(cfg, orig[optind..]), t, f);
  }

  lemma SortedNoOperands(cfg: Config, orig: Args, start: nat, s: Args, first: nat, last: nat, optind: nat)
    requires Sorted(cfg, orig, start, s, first, last, optind) && first == last
    ensures Sorted(cfg, orig, start, s, optind, optind, optind)
  {
    LayoutNoOperands(Options(cfg, orig[start..]), Operands(cfg, orig[start..]), orig, start, s, first, last, optind,
                     Options(cfg, orig[optind..]), Operands(cfg, orig[optind..]));
  }

  lemma SortedSkip(cfg: Config, orig: Args, start: nat, s: Args, first: nat, optind: nat, next: nat)
    requires Sorted(cfg, orig, start, s, first, optind, optind) && optind < |s| && IsOperand(s[optind])
    requires next == optind + 1
    ensures Sorted(cfg, orig, start, s, first, next, next)
    ensures Parse(cfg, s[optind..]) == Parse(cfg, s[next..])
  {
    assert s[optind] == s[optind..][0] == orig[optind];
    assert orig[optind..][1..] == orig[optind + 1..]
        == s[optind + 1..] by { assert s[optind + 1..] == s[optind..][1..]; }
    LayoutSkip(Options(cfg, orig[start..]), Operands(cfg, orig[start..]), orig, start, s, first, optind,
               Options(cfg, orig[optind + 1..]), Operands(cfg, orig[optind + 1..]));
  }

  /** An option element splits off with its separate argument. */
  lemma OptionsRead(cfg: Config, orig: Args, optind: nat)
    requires optind < |orig| && IsOption(orig[optind])
    ensures var k := Extent(cfg, orig[optind..]);
            && Options(cfg, orig[optind..]) == orig[optind..optind + k] + Options(cfg, orig[optind + k..])
            && Operands(cfg, orig[optind..]) == Operands(cfg, orig[optind + k..])
  {
    var rest := orig[optind..];
    var k := Extent(cfg, rest);
    assert rest[..k] == orig[optind..optind + k] && rest[k..] == orig[optind + k..];
  }

  /** An option element and its separate argument, if any, have been read. */
  lemma SortedRead(cfg: Config, orig: Args, start: nat, s: Args, first: nat, last: nat, optind: nat, k: nat, next: nat)
    requires Sorted(cfg, orig, start, s, first, last, optind) && optind < |s| && IsOption(s[optind])
    requires k == Extent(cfg, s[optind..]) && next == optind + k
    ensures Sorted(cfg, orig, start, s, first, last, next)
  {
    assert s[optind] == s[optind..][0] == orig[optind];
    OptionsRead(cfg, orig, optind);
    LayoutRead(Options(cfg, orig[start..]), Operands(cfg, orig[start..]), orig, start, s, first, last, optind, k,
               Options(cfg, orig[optind + k..]), Operands(cfg, orig[optind + k..]));
  }

  /** argv and optind after the call that returns -1. */
  ghost predicate Final(cfg: Config, orig: Args, start: nat, s: Args, optind: nat)
  {
    start <= |orig|
    && s == orig[..start] + Options(cfg, orig[start..]) + Operands(cfg, orig[start..])
    && optind == start + |Options(cfg, orig[start..])|
  }

  /** The last element has been passed. */
  lemma FinalAtEnd(cfg: Config, orig: Args, start: nat, s: Args, first: nat)
    requires Sorted(cfg, orig, start, s, first, |s|, |s|)
    ensures Final(cfg, orig, start, s, first)
  {
    assert orig[|s|..] == [];
    assert s[|s|..|s|] == [];
    assert Options(cfg, orig[start..]) == s[start..first];
    assert Operands(cfg, orig[start..]) == s[first..];
    assert s == s[..start] + s[start..first] + s[first..];
  }

  /** "--" at optind: the exchange puts it before the operands skipped so far. */
  lemma FinalAtDashes(cfg: Config, orig: Args, start: nat, s: Args, first: nat, optind: nat, next: nat, operand: nat)
    requires Sorted(cfg, orig, start, s, first, optind, optind) && optind < |s| && s[optind] == "--"
    requires next == optind + 1 && operand == first + 1
    ensures Final(cfg, orig, start, Target(s, first, optind, next), operand)
    ensures Parse(cfg, s[optind..]) == []
  {
    var rest := orig[optind..];
    assert rest[0] == s[optind..][0];
    var t := Target(s, first, optind, optind + 1);
    assert s[optind..optind] == [] && s[optind..optind + 1] == [s[optind]];
    assert rest[1..] == s[optind + 1..] by { assert rest[1..] == s[optind..][1..]; }
    assert Options(cfg, orig[start..]) == s[start..first] + [s[optind]];
    assert Operands(cfg, orig[start..]) == s[first..optind] + s[optind + 1..];
    assert t == s[..start] + (s[start..first] + [s[optind]]) + (s[first..optind] + s[optind + 1..]) by {
      assert s[..first] == s[..start] + s[start..first];
    }
  }

  // ----- reading one option inside an element

  /** One reading consumes one answer and leaves the element unfinished ... */
  lemma PendingReadMore(cfg: Config, rest: Args, nextchar: string, r: Reading)
    requires nextchar != "" && |rest| > 0 && IsOption(rest[0]) && Inside(cfg, rest, nextchar)
    requires r == ReadOption(cfg, rest[0], nextchar, Next(rest)) && r.rest != ""
    ensures Inside(cfg, rest, r.rest)
    ensures Pending(cfg, rest, nextchar) == [Answer(r.ret, r.optarg)] + Pending(cfg, rest, r.rest)
  {
    var more, later := Parse(cfg, rest[Extent(cfg, rest)..]), Answers(cfg, rest[0], r.rest, Next(rest));
    ThreeAnswers([Answer(r.ret, r.optarg)], later, more);
  }

  /** ... or finishes it, along with the argument it takes. */
  lemma PendingReadEnd(cfg: Config, rest: Args, nextchar: string, r: Reading)
    requires nextchar != "" && |rest| > 0 && IsOption(rest[0]) && Inside(cfg, rest, nextchar)
    requires r == ReadOption(cfg, rest[0], nextchar, Next(rest)) && r.rest == ""
    ensures Extent(cfg, rest) == if r.takes then 2 else 1
    ensures Pending(cfg, rest, nextchar) == [Answer(r.ret, r.optarg)] + Parse(cfg, rest[Extent(cfg, rest)..])
  {
    assert !Takes(cfg, rest[0], r.rest, Next(rest));
    var more, later := Parse(cfg, rest[Extent(cfg, rest)..]), Answers(cfg, rest[0], r.rest, Next(rest));
    assert later == [];
    assert [Answer(r.ret, r.optarg)] + [] == [Answer(r.ret, r.optarg)];
  }

  lemma ThreeAnswers(a: seq<Answer>, b: seq<Answer>, c: seq<Answer>)
    ensures (a + b) + c == a + (b + c)
  {
  }

  lemma PendingStart(cfg: Config, rest: Args)
    requires |rest| > 0 && IsOption(rest[0])
    ensures Inside(cfg, rest, Body(cfg, rest[0])) && Pending(cfg, rest, Body(cfg, rest[0])) == Parse(cfg, rest)
  {
  }

  lemma LayoutIsPermutation(opts: Args, operands: Args, orig: Args, start: nat, s: Args, first: nat, last: nat,
                            optind: nat,
                            moreOpts: Args, moreOperands: Args)
    requires Layout(opts, operands, orig, start, s, first, last, optind, moreOpts, moreOperands)
    requires multiset(opts + operands) == multiset(orig[start..])
    requires multiset(moreOpts + moreOperands) == multiset(orig[optind..])
    ensures multiset(s) == multiset(orig)
  {
    assert s == s[..start] + s[start..first] + s[first..last] + s[last..optind] + s[optind..];
    assert orig == orig[..start] + orig[start..];
  }

  /** Whatever has been exchanged so far, no element is lost or invented. */
  lemma SortedIsPermutation(cfg: Config, orig: Args, start: nat, s: Args, first: nat, last: nat, optind: nat)
    requires Sorted(cfg, orig, start, s, first, last, optind)
    ensures multiset(s) == multiset(orig)
  {
    SplitIsPermutation(cfg, orig[start..]);
    SplitIsPermutation(cfg, orig[optind..]);
    LayoutIsPermutation(Options(cfg, orig[start..]), Operands(cfg, orig[start..]), orig, start, s, first, last, optind,
                        Options(cfg, orig[optind..]), Operands(cfg, orig[optind..]));
  }

  lemma FinalIsPermutation(cfg: Config, orig: Args, start: nat, s: Args, optind: nat)
    requires Final(cfg, orig, start, s, optind)
    ensures multiset(s) == multiset(orig)
  {
    SplitIsPermutation(cfg, orig[start..]);
    assert orig == orig[..start] + orig[start..];
    assert s == orig[..start] + (Options(cfg, orig[start..]) + Operands(cfg, orig[start..]));
  }
}

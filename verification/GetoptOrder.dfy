/** The two orders that leave argv alone: reading stops at the first operand, or goes on and
    reports operands as arguments of an option with value 1. */
module GetoptOrder {
  import opened GetoptGrammar
  import opened Getopt
  import opened GetoptRun

  /** The answers of such a reading; inOrder tells that operands are reported. */
  function ReadUp(cfg: Config, args: Args, inOrder: bool): seq<Answer>
    decreases |args|
  {
    if |args| == 0 || args[0] == "--" then []
    else if IsOperand(args[0]) then
      if inOrder then [Answer(1, Some(args[0]))] + ReadUp(cfg, args[1..], inOrder) else []
    else Answers(cfg, args[0], Body(cfg, args[0]), Next(args)) + ReadUp(cfg, args[Extent(cfg, args)..], inOrder)
  }

  /** How many elements it passes. */
  function Reach(cfg: Config, args: Args, inOrder: bool): (n: nat)
    ensures n <= |args|
    decreases |args|
  {
    if |args| == 0 then 0
    else if args[0] == "--" then 1
    else if IsOperand(args[0]) then if inOrder then 1 + Reach(cfg, args[1..], inOrder) else 0
    else Extent(cfg, args) + Reach(cfg, args[Extent(cfg, args)..], inOrder)
  }

  /** The answers still to come, inside an element or between two. */
  function PendingUp(cfg: Config, rest: Args, nextchar: string, inOrder: bool): seq<Answer>
  {
    if nextchar == "" || |rest| == 0 || !IsOption(rest[0]) then ReadUp(cfg, rest, inOrder)
    else Answers(cfg, rest[0], nextchar, Next(rest)) + ReadUp(cfg, rest[Extent(cfg, rest)..], inOrder)
  }

  lemma UpOperand(cfg: Config, args: Args)
    requires |args| > 0 && IsOperand(args[0])
    ensures ReadUp(cfg, args, true) == [Answer(1, Some(args[0]))] + ReadUp(cfg, args[1..], true)
    ensures Reach(cfg, args, true) == 1 + Reach(cfg, args[1..], true)
    ensures ReadUp(cfg, args, false) == [] && Reach(cfg, args, false) == 0
  {
  }

  lemma UpStart(cfg: Config, rest: Args, inOrder: bool)
    requires |rest| > 0 && IsOption(rest[0])
    ensures Inside(cfg, rest, Body(cfg, rest[0]))
    ensures PendingUp(cfg, rest, Body(cfg, rest[0]), inOrder) == ReadUp(cfg, rest, inOrder)
    ensures Reach(cfg, rest, inOrder) == Extent(cfg, rest) + Reach(cfg, rest[Extent(cfg, rest)..], inOrder)
  {
  }

  /** One option read at nextchar of the element rest[0], leaving after of it. */
  ghost predicate Read(cfg: Config, rest: Args, nextchar: string, answer: Answer, after: string)
  {
    && nextchar != "" && |rest| > 0 && IsOption(rest[0])
    && var r := ReadOption(cfg, rest[0], nextchar, Next(rest));
    && answer == Answer(r.ret, r.optarg) && after == r.rest
  }

  lemma AnswersRead(cfg: Config, rest: Args, nextchar: string, answer: Answer, after: string)
    requires Read(cfg, rest, nextchar, answer, after)
    ensures Answers(cfg, rest[0], nextchar, Next(rest)) == [answer] + Answers(cfg, rest[0], after, Next(rest))
    ensures after == "" ==> Answers(cfg, rest[0], after, Next(rest)) == []
  {
  }

  /** One answer is taken off. */
  lemma UpRead(cfg: Config, rest: Args, nextchar: string, answer: Answer, after: string, inOrder: bool)
    requires Read(cfg, rest, nextchar, answer, after)
    ensures PendingUp(cfg, rest, nextchar, inOrder) ==
            [answer] + if after == "" then ReadUp(cfg, rest[Extent(cfg, rest)..], inOrder)
                       else PendingUp(cfg, rest, after, inOrder)
  {
    AnswersRead(cfg, rest, nextchar, answer, after);
    ThreeAnswers([answer], Answers(cfg, rest[0], after, Next(rest)), ReadUp(cfg, rest[Extent(cfg, rest)..], inOrder));
  }

  // ----- answers a caller could take for the end

  ghost predicate NoneEnds(answers: seq<Answer>)
  {
    forall i :: 0 <= i < |answers| ==> answers[i].ret != -1
  }

  lemma {:induction false} AnswersNeverEnd(cfg: Config, e: string, s: string, next: Option<string>)
    requires NoMinusOne(cfg) && !IsOperand(e)
    ensures NoneEnds(Answers(cfg, e, s, next))
    decreases |s|
  {
    if |s| > 0 {
      NeverMinusOne(cfg, e, s, next);
      AnswersNeverEnd(cfg, e, ReadOption(cfg, e, s, next).rest, next);
    }
  }

  lemma {:induction false} ParseNeverEnds(cfg: Config, args: Args)
    requires NoMinusOne(cfg)
    ensures NoneEnds(Parse(cfg, args))
    decreases |args|
  {
    if |args| > 0 {
      if IsOperand(args[0]) {
        ParseNeverEnds(cfg, args[1..]);
      } else if args[0] != "--" {
        AnswersNeverEnd(cfg, args[0], Body(cfg, args[0]), Next(args));
        ParseNeverEnds(cfg, args[Extent(cfg, args)..]);
      }
    }
  }

  lemma {:induction false} ReadUpNeverEnds(cfg: Config, args: Args, inOrder: bool)
    requires NoMinusOne(cfg)
    ensures NoneEnds(ReadUp(cfg, args, inOrder))
    decreases |args|
  {
    if |args| > 0 && args[0] != "--" {
      if IsOperand(args[0]) {
        ReadUpNeverEnds(cfg, args[1..], inOrder);
      } else {
        AnswersNeverEnd(cfg, args[0], Body(cfg, args[0]), Next(args));
        ReadUpNeverEnds(cfg, args[Extent(cfg, args)..], inOrder);
      }
    }
  }

  /** The answers a caller sees that stops at -1. */
  ghost predicate UpToEnd(answers: seq<Answer>, all: seq<Answer>)
  {
    answers <= all && NoneEnds(answers) && (|answers| < |all| ==> all[|answers|].ret == -1)
  }
}

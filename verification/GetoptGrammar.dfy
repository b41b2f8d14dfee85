/** What command-line elements mean to getopt, independently of any scanning state: how an
    option element is read, how many elements it uses up, and how a whole argument list splits
    into options and operands. */
module GetoptGrammar {

  datatype Option<+T> = None | Some(value: T)

  /** An entry of the long-option table; flag is the address to store through, 0 for none. */
  datatype LongOpt = LongOpt(name: string, hasArg: int, flag: int, val: int)

  /** optstring is given without its leading '-' or '+'. */
  datatype Config = Config(optstring: string, longopts: Option<seq<LongOpt>>, longOnly: bool)

  /** One call's answer: the return value and the argument it reports. */
  datatype Answer = Answer(ret: int, optarg: Option<string>)

  /** What reading one option at `rest` of an element does: the answer, what remains of the
      element, and whether the argument is the element that follows. */
  datatype Reading = Reading(ret: int, optarg: Option<string>, rest: string, takes: bool, optopt: Option<int>)

  // ----- single elements

  predicate IsOperand(e: string)
  {
    |e| < 2 || e[0] != '-'
  }

  /** Where reading of an option element starts. */
  function Body(cfg: Config, e: string): (s: string)
    requires !IsOperand(e) && e != "--"
    ensures |s| > 0
  {
    if cfg.longopts.Some? && e[1] == '-' then e[2..] else e[1..]
  }

  /** First position of c in s. */
  function Find(s: string, c: char): (r: Option<nat>)
    ensures r.Some? ==> r.value < |s| && s[r.value] == c && c !in s[..r.value]
    ensures r.None? ==> c !in s
  {
    if |s| == 0 then None
    else if s[0] == c then Some(0)
    else
      var t := Find(s[1..], c);
      if t.None? then None else Some(t.value + 1)
  }

  /** The option name: everything before the first '='. */
  function NameLen(s: string): (n: nat)
    ensures n <= |s|
  {
    var p := Find(s, '=');
    if p.Some? then p.value else |s|
  }

  datatype LongMatch = NoMatch | Ambiguous | Unique(i: nat)

  predicate Differs(a: LongOpt, b: LongOpt)
  {
    a.hasArg != b.hasArg || a.flag != b.flag || a.val != b.val
  }

  /** The table search from entry i on, with the first abbreviation found so far. */
  function FindLong(table: seq<LongOpt>, name: string, longOnly: bool, i: nat, found: Option<nat>,
                    ambig: bool): (m: LongMatch)
    requires i <= |table| && (found.Some? ==> found.value < i)
    ensures m.Unique? ==> m.i < |table|
    decreases |table| - i
  {
    if i == |table| then
      if ambig then Ambiguous else if found.Some? then Unique(found.value) else NoMatch
    else if !(name <= table[i].name) then FindLong(table, name, longOnly, i + 1, found, ambig)
    else if |name| == |table[i].name| then Unique(i)
    else if found.None? then FindLong(table, name, longOnly, i + 1, Some(i), ambig)
    else FindLong(table, name, longOnly, i + 1, found, ambig || longOnly || Differs(table[found.value], table[i]))
  }

  /** Some entry after a that is abbreviated by name and behaves differently, below limit. */
  ghost predicate Clash(table: seq<LongOpt>, name: string, longOnly: bool, a: nat, limit: nat)
    requires a < |table| && limit <= |table|
  {
    exists k :: a < k < limit && name <= table[k].name && (longOnly || Differs(table[a], table[k]))
  }

  /** a is the first of the entries below limit that name abbreviates. */
  ghost predicate FirstAbbreviated(table: seq<LongOpt>, name: string, a: nat, limit: nat)
    requires a < limit <= |table|
  {
    name <= table[a].name && forall k :: 0 <= k < a ==> !(name <= table[k].name)
  }

  /** No entry below limit is named exactly so. */
  ghost predicate NoExact(table: seq<LongOpt>, name: string, limit: nat)
    requires limit <= |table|
  {
    forall k :: 0 <= k < limit ==> name != table[k].name
  }

  ghost predicate Searched(table: seq<LongOpt>, name: string, longOnly: bool, i: nat, found: Option<nat>, ambig: bool)
    requires i <= |table|
  {
    && NoExact(table, name, i)
    && if found.Some? then
        found.value < i && FirstAbbreviated(table, name, found.value, i)
            && ambig == Clash(table, name, longOnly, found.value, i)
       else !ambig && forall k :: 0 <= k < i ==> !(name <= table[k].name)
  }

  lemma SearchStep(table: seq<LongOpt>, name: string, longOnly: bool, i: nat, a: nat)
    requires a < i < |table| && name != table[i].name
    requires Searched(table, name, longOnly, i, Some(a), Clash(table, name, longOnly, a, i))
    ensures Searched(table, name, longOnly, i + 1, Some(a),
                     Clash(table, name, longOnly, a, i)
                         || (name <= table[i].name && (longOnly || Differs(table[a], table[i]))))
  {
  }

  /** What the search means: an exact name wins; otherwise the first abbreviation, unless
      another abbreviated entry behaves differently. */
  lemma {:induction false} FindLongMeans(table: seq<LongOpt>, name: string, longOnly: bool, i: nat,
                                         found: Option<nat>, ambig: bool)
    requires i <= |table| && Searched(table, name, longOnly, i, found, ambig)
    ensures match FindLong(table, name, longOnly, i, found, ambig)
            case NoMatch => forall k :: 0 <= k < |table| ==> !(name <= table[k].name)
            case Ambiguous =>
              NoExact(table, name, |table|)
              && exists a :: 0 <= a < |table| && FirstAbbreviated(table, name, a, |table|)
                  && Clash(table, name, longOnly, a, |table|)
            case Unique(a) =>
              if name == table[a].name then NoExact(table, name, a)
              else (&& NoExact(table, name, |table|) && FirstAbbreviated(table, name, a, |table|)
                    && !Clash(table, name, longOnly, a, |table|))
    decreases |table| - i
  {
    if i < |table| {
      if name <= table[i].name && |name| == |table[i].name| {
        assert name == table[i].name;
      } else if found.Some? {
        SearchStep(table, name, longOnly, i, found.value);
        FindLongMeans(table, name, longOnly, i + 1, found,
                      ambig || (name <= table[i].name && (longOnly || Differs(table[found.value], table[i]))));
      } else {
        FindLongMeans(table, name, longOnly, i + 1, if name <= table[i].name then Some(i) else None, false);
      }
    }
  }

  const QUESTION: int := '?' as int
  const COLON: int := ':' as int

  /** What a missing argument is reported as. */
  function Missing(cfg: Config): int
  {
    if |cfg.optstring| > 0 && cfg.optstring[0] == ':' then COLON else QUESTION
  }

  /** Whether the long-option table is consulted for this element. */
  predicate TriesLong(cfg: Config, e: string)
    requires !IsOperand(e)
  {
    cfg.longopts.Some? && (e[1] == '-' || (cfg.longOnly && (|e| > 2 || Find(cfg.optstring, e[1]).None?)))
  }

  /** A long option, found at entry p; s is what follows the dashes. */
  function ReadLong(cfg: Config, p: LongOpt, s: string, next: Option<string>): (r: Reading)
    ensures r.rest == "" && (r.takes ==> next.Some? && r.optarg == next)
  {
    var n := NameLen(s);
    var ret := if p.flag != 0 then 0 else p.val;
    if n < |s| then
      if p.hasArg != 0 then Reading(ret, Some(s[n + 1..]), "", false, None)
      else Reading(QUESTION, None, "", false, Some(p.val))
    else if p.hasArg == 1 then
      if next.Some? then Reading(ret, next, "", true, None)
      else Reading(Missing(cfg), None, "", false, Some(p.val))
    else Reading(ret, None, "", false, None)
  }

  /** A short option: the first character of s. */
  function ReadShort(cfg: Config, s: string, next: Option<string>): (r: Reading)
    requires |s| > 0
    ensures |r.rest| < |s| && (r.takes ==> r.rest == "" && next.Some? && r.optarg == next)
  {
    var c, rest := s[0], s[1..];
    var o := cfg.optstring;
    var t := Find(o, c);
    if t.None? || c == ':' || c == ';' then Reading(QUESTION, None, rest, false, Some(c as int))
    else if t.value + 1 < |o| && o[t.value + 1] == ':' then
      if t.value + 2 < |o| && o[t.value + 2] == ':' then
        Reading(c as int, if rest != "" then Some(rest) else None, "", false, None)
      else if rest != "" then Reading(c as int, Some(rest), "", false, None)
      else if next.Some? then Reading(c as int, next, "", true, None)
      else Reading(Missing(cfg), None, "", false, Some(c as int))
    else Reading(c as int, None, rest, false, None)
  }

  /** One option, read at s inside element e, given what the table search found; next is
      the element after e. */
  function ReadWith(cfg: Config, e: string, s: string, next: Option<string>, found: LongMatch): (r: Reading)
    requires !IsOperand(e) && |s| > 0
    requires found.Unique? ==> cfg.longopts.Some? && found.i < |cfg.longopts.value|
    ensures |r.rest| < |s| && (r.takes ==> r.rest == "" && next.Some? && r.optarg == next)
  {
    if TriesLong(cfg, e) then
      match found
      case Ambiguous => Reading(QUESTION, None, "", false, Some(0))
      case Unique(i) => ReadLong(cfg, cfg.longopts.value[i], s, next)
      case NoMatch =>
        if !cfg.longOnly || e[1] == '-' || Find(cfg.optstring, s[0]).None? then
            Reading(QUESTION, None, "", false, Some(0))
        else ReadShort(cfg, s, next)
    else ReadShort(cfg, s, next)
  }

  function Search(cfg: Config, s: string): (m: LongMatch)
    ensures m.Unique? ==> cfg.longopts.Some? && m.i < |cfg.longopts.value|
  {
    if cfg.longopts.None? then NoMatch
    else FindLong(cfg.longopts.value, s[..NameLen(s)], cfg.longOnly, 0, None, false)
  }

  function ReadOption(cfg: Config, e: string, s: string, next: Option<string>): (r: Reading)
    requires !IsOperand(e) && |s| > 0
    ensures |r.rest| < |s| && (r.takes ==> r.rest == "" && next.Some? && r.optarg == next)
  {
    ReadWith(cfg, e, s, next, Search(cfg, s))
  }

  /** No long option returns -1, which callers take for the end of the options. */
  predicate NoMinusOne(cfg: Config)
  {
    cfg.longopts.Some? ==> forall i :: 0 <= i < |cfg.longopts.value| ==> cfg.longopts.value[i].val != -1
  }

  lemma NeverMinusOne(cfg: Config, e: string, s: string, next: Option<string>)
    requires NoMinusOne(cfg) && !IsOperand(e) && |s| > 0
    ensures ReadOption(cfg, e, s, next).ret != -1
  {
  }

  /** The 'W;' extension in an option string. */
  predicate UsesW(optstring: string)
  {
    var t := Find(optstring, 'W');
    t.Some? && t.value + 1 < |optstring| && optstring[t.value + 1] == ';'
  }

  // ----- whole elements

  /** Whether what remains of an element ends by taking the next element as an argument. */
  function Takes(cfg: Config, e: string, s: string, next: Option<string>): (t: bool)
    requires !IsOperand(e)
    ensures t ==> next.Some?
    decreases |s|
  {
    if |s| == 0 then false
    else
      var r := ReadOption(cfg, e, s, next);
      r.takes || Takes(cfg, e, r.rest, next)
  }

  /** The answers for what remains of an element. */
  function Answers(cfg: Config, e: string, s: string, next: Option<string>): seq<Answer>
    requires !IsOperand(e)
    decreases |s|
  {
    if |s| == 0 then []
    else
      var r := ReadOption(cfg, e, s, next);
      [Answer(r.ret, r.optarg)] + Answers(cfg, e, r.rest, next)
  }

  function Next(args: seq<string>): Option<string>
  {
    if |args| > 1 then Some(args[1]) else None
  }

  /** How many elements the option element args[0] accounts for. */
  function Extent(cfg: Config, args: seq<string>): (k: nat)
    requires |args| > 0 && !IsOperand(args[0]) && args[0] != "--"
    ensures 1 <= k <= 2 && k <= |args|
  {
    if Takes(cfg, args[0], Body(cfg, args[0]), Next(args)) then 2 else 1
  }

  // ----- argument lists

  /** Options with their separate arguments, and any "--", in order. */
  function Options(cfg: Config, args: seq<string>): (o: seq<string>)
    ensures |o| <= |args|
    decreases |args|
  {
    if |args| == 0 then []
    else if IsOperand(args[0]) then Options(cfg, args[1..])
    else if args[0] == "--" then [args[0]]
    else
      var k := Extent(cfg, args);
      args[..k] + Options(cfg, args[k..])
  }

  /** Operands, in order. */
  function Operands(cfg: Config, args: seq<string>): (p: seq<string>)
    ensures |p| <= |args|
    decreases |args|
  {
    if |args| == 0 then []
    else if IsOperand(args[0]) then [args[0]] + Operands(cfg, args[1..])
    else if args[0] == "--" then args[1..]
    else Operands(cfg, args[Extent(cfg, args)..])
  }

  /** All the answers a left-to-right reading gives. */
  function Parse(cfg: Config, args: seq<string>): seq<Answer>
    decreases |args|
  {
    if |args| == 0 then []
    else if IsOperand(args[0]) then Parse(cfg, args[1..])
    else if args[0] == "--" then []
    else Answers(cfg, args[0], Body(cfg, args[0]), Next(args)) + Parse(cfg, args[Extent(cfg, args)..])
  }

  /** Nothing is lost or invented by the split. */
  lemma {:induction false} SplitIsPermutation(cfg: Config, args: seq<string>)
    ensures multiset(Options(cfg, args) + Operands(cfg, args)) == multiset(args)
    decreases |args|
  {
    if |args| > 0 {
      if IsOperand(args[0]) || args[0] == "--" {
        assert args == [args[0]] + args[1..];
        if IsOperand(args[0]) {
          SplitIsPermutation(cfg, args[1..]);
        }
      } else {
        var k := Extent(cfg, args);
        assert args == args[..k] + args[k..];
        SplitIsPermutation(cfg, args[k..]);
      }
    }
  }
}

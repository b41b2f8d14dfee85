/** How options are spelled, and that every spelling is read as meant: clusters of short options,
    arguments attached or in the next element, long options by name or abbreviation. */
module GetoptSpelling {
  import opened GetoptGrammar
  import opened Getopt
  import opened GetoptRun

  // ----- declarations

  /** What an option string says of its arguments. */
  datatype Kind = NoArgument | Required | Optional

  /** The option string declares c: its first occurrence is followed by no colon, one or two. */
  ghost predicate Declared(optstring: string, c: char, kind: Kind)
  {
    c != ':' && c != ';' && c != '-' &&
    exists before, after :: optstring == before + [c] + after && c !in before && KindOf(after) == kind
  }

  function KindOf(after: string): Kind
  {
    if |after| > 0 && after[0] == ':' then if |after| > 1 && after[1] == ':' then Optional else Required
    else NoArgument
  }

  /** The first occurrence is the one found. */
  lemma {:induction false} FindDeclared(o: string, c: char, before: string, after: string)
    requires o == before + [c] + after && c !in before
    ensures Find(o, c) == Some(|before|)
    decreases |before|
  {
    if |before| > 0 {
      assert o[0] == before[0] && o[1..] == before[1..] + [c] + after;
      FindDeclared(o[1..], c, before[1..], after);
    }
  }

  /** What reading the first character of s does, by its kind. */
  lemma ShortRead(cfg: Config, c: char, kind: Kind, s: string, next: Option<string>)
    requires Declared(cfg.optstring, c, kind) && |s| > 0 && s[0] == c
    ensures var r, rest := ReadShort(cfg, s, next), s[1..];
            match kind
            case NoArgument => r == Reading(c as int, None, rest, false, None)
            case Optional => r == Reading(c as int, if rest != "" then Some(rest) else None, "", false, None)
            case Required =>
              && (rest != "" ==> r == Reading(c as int, Some(rest), "", false, None))
              && (rest == "" && next.Some? ==> r == Reading(c as int, next, "", true, None))
              && (rest == "" && next.None? ==> r == Reading(Missing(cfg), None, "", false, Some(c as int)))
  {
    var o := cfg.optstring;
    var before, after :| o == before + [c] + after && c !in before && KindOf(after) == kind;
    FindDeclared(o, c, before, after);
    assert o[|before| + 1..] == after;
    assert |after| > 0 ==> o[|before| + 1] == after[0];
    assert |after| > 1 ==> o[|before| + 2] == after[1];
  }

  /** A character the option string does not declare. */
  lemma ShortUnknown(cfg: Config, s: string, next: Option<string>)
    requires |s| > 0 && (s[0] !in cfg.optstring || s[0] == ':' || s[0] == ';')
    ensures ReadShort(cfg, s, next) == Reading(QUESTION, None, s[1..], false, Some(s[0] as int))
  {
  }

  // ----- short elements

  /** Only single letters are looked for in such an element. */
  predicate ShortOnly(cfg: Config, e: string)
  {
    && |e| >= 2 && e[0] == '-' && e[1] != '-'
    && (cfg.longopts.None? || !cfg.longOnly || (|e| == 2 && e[1] in cfg.optstring))
  }

  /** Where one dash may begin a long option, letters are looked for in elements of one letter. */
  predicate Letters(cfg: Config, n: nat)
  {
    cfg.longopts.None? || !cfg.longOnly || n == 1
  }

  lemma DeclaredIn(optstring: string, c: char, kind: Kind)
    requires Declared(optstring, c, kind)
    ensures c in optstring
  {
    var before, after :| optstring == before + [c] + after && c !in before && KindOf(after) == kind;
    assert optstring[|before|] == c;
  }

  ghost predicate Flags(cfg: Config, flags: string)
  {
    forall i :: 0 <= i < |flags| ==> Declared(cfg.optstring, flags[i], NoArgument)
  }

  function FlagAnswers(flags: string): (r: seq<Answer>)
    ensures |r| == |flags|
  {
    seq(|flags|, i requires 0 <= i < |flags| => Answer(flags[i] as int, None))
  }

  lemma FlagAnswersHead(flags: string)
    requires |flags| > 0
    ensures FlagAnswers(flags) == [Answer(flags[0] as int, None)] + FlagAnswers(flags[1..])
  {
  }

  lemma FlagRead(cfg: Config, e: string, c: char, all: string, rest: string, next: Option<string>)
    requires ShortOnly(cfg, e) && Declared(cfg.optstring, c, NoArgument) && |all| > 0 && all[0] == c && all[1..] == rest
    ensures Answers(cfg, e, all, next) == [Answer(c as int, None)] + Answers(cfg, e, rest, next)
    ensures Takes(cfg, e, all, next) == Takes(cfg, e, rest, next)
  {
    ShortRead(cfg, c, NoArgument, all, next);
  }

  /** Options without arguments may be written in one element, in front of anything. */
  lemma {:induction false} FlagsRead(cfg: Config, e: string, flags: string, s: string, next: Option<string>)
    requires ShortOnly(cfg, e) && Flags(cfg, flags)
    ensures Answers(cfg, e, flags + s, next) == FlagAnswers(flags) + Answers(cfg, e, s, next)
    ensures Takes(cfg, e, flags + s, next) == Takes(cfg, e, s, next)
    decreases |flags|
  {
    if |flags| == 0 {
      assert flags + s == s && FlagAnswers(flags) == [];
    } else {
      var all, rest := flags + s, flags[1..];
      assert all[0] == flags[0] && all[1..] == rest + s;
      FlagRead(cfg, e, flags[0], all, rest + s, next);
      FlagsRead(cfg, e, rest, s, next);
      FlagAnswersHead(flags);
      ThreeAnswers([Answer(flags[0] as int, None)], FlagAnswers(rest), Answers(cfg, e, s, next));
    }
  }

  /** One option read at the end of an element. */
  lemma LastRead(cfg: Config, e: string, s: string, next: Option<string>, r: Reading)
    requires !IsOperand(e) && |s| > 0 && r == ReadOption(cfg, e, s, next) && r.rest == ""
    ensures Answers(cfg, e, s, next) == [Answer(r.ret, r.optarg)] && Takes(cfg, e, s, next) == r.takes
  {
    assert Answers(cfg, e, "", next) == [];
    assert [Answer(r.ret, r.optarg)] + [] == [Answer(r.ret, r.optarg)];
  }

  // ----- an element at the head of the arguments

  /** What the arguments come to when an option element and k - 1 more are read as answers. */
  ghost predicate ReadAs(cfg: Config, head: Args, rest: Args, answers: seq<Answer>)
  {
    && Parse(cfg, head + rest) == answers + Parse(cfg, rest)
    && Options(cfg, head + rest) == head + Options(cfg, rest)
    && Operands(cfg, head + rest) == Operands(cfg, rest)
  }

  lemma ElementRead(cfg: Config, head: Args, rest: Args, answers: seq<Answer>)
    requires 1 <= |head| <= 2 && IsOption(head[0])
    requires var e, next := head[0], Next(head + rest);
             && Answers(cfg, e, Body(cfg, e), next) == answers
             && Takes(cfg, e, Body(cfg, e), next) == (|head| == 2)
    ensures ReadAs(cfg, head, rest, answers)
  {
    var args := head + rest;
    assert args[0] == head[0];
    assert Extent(cfg, args) == |head|;
    assert args[|head|..] == rest && args[..|head|] == head;
  }

  // ----- short options

  /** The element of a cluster that ends in s. */
  function Dash(flags: string, s: string): (e: string)
    ensures |e| == 1 + |flags| + |s|
  {
    "-" + flags + s
  }

  lemma DashShort(cfg: Config, flags: string, s: string)
    requires |flags| + |s| > 0 && Flags(cfg, flags) && (flags == "" ==> s[0] != '-')
    requires Letters(cfg, |flags| + |s|)
    requires (flags == "" && cfg.longOnly ==> cfg.longopts.None? || s[0] in cfg.optstring)
    ensures var e := Dash(flags, s); IsOption(e) && ShortOnly(cfg, e) && Body(cfg, e) == flags + s
  {
    var e := Dash(flags, s);
    assert e[0] == '-' && e[1..] == flags + s;
    if flags != "" {
      assert e[1] == flags[0] && Declared(cfg.optstring, flags[0], NoArgument);
      DeclaredIn(cfg.optstring, flags[0], NoArgument);
    } else {
      assert e[1] == s[0];
    }
  }

  /** A cluster whose last letter, with what follows it in the element, is read as r. */
  lemma ClusterRead(cfg: Config, flags: string, s: string, head: Args, rest: Args, r: Reading)
    requires |s| > 0 && Flags(cfg, flags) && s[0] != '-' && Letters(cfg, |flags| + |s|)
    requires cfg.longOnly ==> cfg.longopts.None? || s[0] in cfg.optstring
    requires 1 <= |head| <= 2 && head[0] == Dash(flags, s)
    requires r == ReadShort(cfg, s, Next(head + rest)) && r.rest == "" && r.takes == (|head| == 2)
    ensures ReadAs(cfg, head, rest, FlagAnswers(flags) + [Answer(r.ret, r.optarg)])
  {
    var e, next := head[0], Next(head + rest);
    DashShort(cfg, flags, s);
    FlagsRead(cfg, e, flags, s, next);
    LastRead(cfg, e, s, next, r);
    ElementRead(cfg, head, rest, FlagAnswers(flags) + [Answer(r.ret, r.optarg)]);
  }

  /** -abc: options without arguments. */
  lemma FlagsBack(cfg: Config, flags: string, rest: Args)
    requires flags != "" && Flags(cfg, flags) && Letters(cfg, |flags|)
    ensures ReadAs(cfg, [Dash(flags, "")], rest, FlagAnswers(flags))
  {
    var head := [Dash(flags, "")];
    var e, next := head[0], Next(head + rest);
    DashShort(cfg, flags, "");
    FlagsRead(cfg, e, flags, "", next);
    assert FlagAnswers(flags) + Answers(cfg, e, "", next) == FlagAnswers(flags);
    ElementRead(cfg, head, rest, FlagAnswers(flags));
  }

  /** -abcARG: an argument attached to the last option. */
  lemma AttachedBack(cfg: Config, flags: string, c: char, kind: Kind, a: string, rest: Args)
    requires Flags(cfg, flags) && Declared(cfg.optstring, c, kind) && kind != NoArgument && a != ""
    requires Letters(cfg, |flags| + 1 + |a|)
    ensures ReadAs(cfg, [Dash(flags, [c] + a)], rest, FlagAnswers(flags) + [Answer(c as int, Some(a))])
  {
    var head, s := [Dash(flags, [c] + a)], [c] + a;
    assert s[1..] == a;
    DeclaredIn(cfg.optstring, c, kind);
    ShortRead(cfg, c, kind, s, Next(head + rest));
    ClusterRead(cfg, flags, s, head, rest, Reading(c as int, Some(a), "", false, None));
  }

  /** -abc ARG: a required argument in the next element, whatever that looks like. */
  lemma ApartBack(cfg: Config, flags: string, c: char, a: string, rest: Args)
    requires Flags(cfg, flags) && Declared(cfg.optstring, c, Required)
    requires Letters(cfg, |flags| + 1)
    ensures ReadAs(cfg, [Dash(flags, [c]), a], rest, FlagAnswers(flags) + [Answer(c as int, Some(a))])
  {
    var head := [Dash(flags, [c]), a];
    assert (head + rest)[1] == a;
    DeclaredIn(cfg.optstring, c, Required);
    ShortRead(cfg, c, Required, [c], Next(head + rest));
    ClusterRead(cfg, flags, [c], head, rest, Reading(c as int, Some(a), "", true, None));
  }

  /** -abc: an optional argument left out, whatever comes next. */
  lemma BareBack(cfg: Config, flags: string, c: char, rest: Args)
    requires Flags(cfg, flags) && Declared(cfg.optstring, c, Optional)
    requires Letters(cfg, |flags| + 1)
    ensures ReadAs(cfg, [Dash(flags, [c])], rest, FlagAnswers(flags) + [Answer(c as int, None)])
  {
    var head := [Dash(flags, [c])];
    DeclaredIn(cfg.optstring, c, Optional);
    ShortRead(cfg, c, Optional, [c], Next(head + rest));
    ClusterRead(cfg, flags, [c], head, rest, Reading(c as int, None, "", false, None));
  }

  /** -abc at the very end, its required argument missing: ':' or '?' by how the option string
      begins. */
  lemma MissingBack(cfg: Config, flags: string, c: char)
    requires Flags(cfg, flags) && Declared(cfg.optstring, c, Required)
    requires Letters(cfg, |flags| + 1)
    ensures var ret := if cfg.optstring[0] == ':' then ':' as int else '?' as int;
            ReadAs(cfg, [Dash(flags, [c])], [], FlagAnswers(flags) + [Answer(ret, None)])
  {
    var head := [Dash(flags, [c])];
    assert head + [] == head;
    DeclaredIn(cfg.optstring, c, Required);
    ShortRead(cfg, c, Required, [c], Next(head + []));
    ClusterRead(cfg, flags, [c], head, [], Reading(Missing(cfg), None, "", false, Some(c as int)));
  }

  /** -abu with a letter the option string does not know: '?' for that letter. */
  lemma UnknownBack(cfg: Config, flags: string, u: char, rest: Args)
    requires Flags(cfg, flags) && u != '-' && (u !in cfg.optstring || u == ':' || u == ';')
    requires cfg.longopts.None? || !cfg.longOnly
    ensures ReadAs(cfg, [Dash(flags, [u])], rest, FlagAnswers(flags) + [Answer('?' as int, None)])
  {
    var head := [Dash(flags, [u])];
    ShortUnknown(cfg, [u], Next(head + rest));
    ClusterRead(cfg, flags, [u], head, rest, Reading('?' as int, None, "", false, Some(u as int)));
  }

  // ----- long options

  /** name selects entry i of the table: its whole name, at its first occurrence; or, if no entry
      has that name, the first entry it abbreviates, no other such entry behaving differently. */
  ghost predicate Selects(table: seq<LongOpt>, name: string, longOnly: bool, i: nat)
  {
    && i < |table| && name <= table[i].name
    && if name == table[i].name then NoExact(table, name, i)
       else (&& NoExact(table, name, |table|) && FirstAbbreviated(table, name, i, |table|)
             && !Clash(table, name, longOnly, i, |table|))
  }

  lemma FindSelected(table: seq<LongOpt>, name: string, longOnly: bool, i: nat)
    requires Selects(table, name, longOnly, i)
    ensures FindLong(table, name, longOnly, 0, None, false) == Unique(i)
  {
    FindLongMeans(table, name, longOnly, 0, None, false);
  }

  /** No entry is abbreviated, or several that behave differently and none is named so. */
  ghost predicate SelectsNone(table: seq<LongOpt>, name: string, longOnly: bool)
  {
    || (forall k :: 0 <= k < |table| ==> !(name <= table[k].name))
    || (NoExact(table, name, |table|) && exists i :: 0 <= i < |table| && FirstAbbreviated(table, name, i, |table|)
                                                     && Clash(table, name, longOnly, i, |table|))
  }

  lemma FindNone(table: seq<LongOpt>, name: string, longOnly: bool)
    requires SelectsNone(table, name, longOnly)
    ensures !FindLong(table, name, longOnly, 0, None, false).Unique?
  {
    FindLongMeans(table, name, longOnly, 0, None, false);
  }

  /** The name before an equals sign, or the whole. */
  lemma NameBefore(name: string, a: string)
    requires '=' !in name
    ensures NameLen(name) == |name| && NameLen(name + "=" + a) == |name| && (name + "=" + a)[..|name|] == name
    ensures (name + "=" + a)[|name| + 1..] == a
  {
    FindDeclared(name + "=" + a, '=', name, a);
  }

  /** A long option is written with two dashes, or one where that is allowed. */
  predicate Dashes(cfg: Config, dd: string, name: string)
  {
    && cfg.longopts.Some? && name != "" && '=' !in name
    && (dd == "--" || (dd == "-" && cfg.longOnly && |name| > 1 && name[0] != '-'))
  }

  lemma LongElement(cfg: Config, dd: string, name: string, s: string)
    requires Dashes(cfg, dd, name) && name <= s
    ensures var e := dd + s; IsOption(e) && TriesLong(cfg, e) && Body(cfg, e) == s && |s| > 0
  {
    var e := dd + s;
    assert s[0] == name[0];
    assert e[0] == '-' && e[|dd|..] == s;
    assert dd == "-" ==> e[1] == s[0];
  }

  /** What an entry returns. */
  function Value(p: LongOpt): int
  {
    if p.flag != 0 then 0 else p.val
  }

  /** An element whose name selects entry p, read as r. */
  lemma LongRead(cfg: Config, dd: string, name: string, s: string, i: nat, head: Args, rest: Args, r: Reading)
    requires Dashes(cfg, dd, name) && name <= s && s[..NameLen(s)] == name
    requires Selects(cfg.longopts.value, name, cfg.longOnly, i) && 1 <= |head| <= 2 && head[0] == dd + s
    requires r == ReadLong(cfg, cfg.longopts.value[i], s, Next(head + rest)) && r.takes == (|head| == 2)
    ensures ReadAs(cfg, head, rest, [Answer(r.ret, r.optarg)])
  {
    LongElement(cfg, dd, name, s);
    FindSelected(cfg.longopts.value, name, cfg.longOnly, i);
    LastRead(cfg, head[0], s, Next(head + rest), r);
    ElementRead(cfg, head, rest, [Answer(r.ret, r.optarg)]);
  }

  /** --name=ARG */
  lemma LongEqualsBack(cfg: Config, dd: string, name: string, i: nat, a: string, rest: Args)
    requires Dashes(cfg, dd, name) && Selects(cfg.longopts.value, name, cfg.longOnly, i)
    ensures var p := cfg.longopts.value[i];
            ReadAs(cfg, [dd + (name + "=" + a)], rest,
                   [if p.hasArg != 0 then Answer(Value(p), Some(a)) else Answer('?' as int, None)])
  {
    var head, s, p := [dd + (name + "=" + a)], name + "=" + a, cfg.longopts.value[i];
    NameBefore(name, a);
    LongRead(cfg, dd, name, s, i, head, rest, ReadLong(cfg, p, s, Next(head + rest)));
  }

  /** --name ARG, where an argument is required. */
  lemma LongApartBack(cfg: Config, dd: string, name: string, i: nat, a: string, rest: Args)
    requires Dashes(cfg, dd, name) && Selects(cfg.longopts.value, name, cfg.longOnly, i)
    requires cfg.longopts.value[i].hasArg == 1
    ensures ReadAs(cfg, [dd + name, a], rest, [Answer(Value(cfg.longopts.value[i]), Some(a))])
  {
    var head, p := [dd + name, a], cfg.longopts.value[i];
    assert (head + rest)[1] == a;
    NameBefore(name, "");
    LongRead(cfg, dd, name, name, i, head, rest, ReadLong(cfg, p, name, Next(head + rest)));
  }

  /** --name, where no argument is required. */
  lemma LongBareBack(cfg: Config, dd: string, name: string, i: nat, rest: Args)
    requires Dashes(cfg, dd, name) && Selects(cfg.longopts.value, name, cfg.longOnly, i)
    requires cfg.longopts.value[i].hasArg != 1
    ensures ReadAs(cfg, [dd + name], rest, [Answer(Value(cfg.longopts.value[i]), None)])
  {
    var head, p := [dd + name], cfg.longopts.value[i];
    NameBefore(name, "");
    LongRead(cfg, dd, name, name, i, head, rest, ReadLong(cfg, p, name, Next(head + rest)));
  }

  /** --name at the very end, its required argument missing. */
  lemma LongMissingBack(cfg: Config, dd: string, name: string, i: nat)
    requires Dashes(cfg, dd, name) && Selects(cfg.longopts.value, name, cfg.longOnly, i)
    requires cfg.longopts.value[i].hasArg == 1
    ensures var colon := |cfg.optstring| > 0 && cfg.optstring[0] == ':';
            ReadAs(cfg, [dd + name], [], [Answer(if colon then ':' as int else '?' as int, None)])
  {
    var head, p := [dd + name], cfg.longopts.value[i];
    assert head + [] == head;
    NameBefore(name, "");
    LongRead(cfg, dd, name, name, i, head, [], ReadLong(cfg, p, name, Next(head + [])));
  }

  /** --name, with or without an argument, that selects no entry: '?'. */
  lemma LongUnknownBack(cfg: Config, name: string, s: string, rest: Args)
    requires Dashes(cfg, "--", name) && SelectsNone(cfg.longopts.value, name, cfg.longOnly)
    requires name <= s && s[..NameLen(s)] == name
    ensures ReadAs(cfg, ["--" + s], rest, [Answer('?' as int, None)])
  {
    var head := ["--" + s];
    LongElement(cfg, "--", name, s);
    FindNone(cfg.longopts.value, name, cfg.longOnly);
    assert head[0][1] == '-';
    LastRead(cfg, head[0], s, Next(head + rest), ReadOption(cfg, head[0], s, Next(head + rest)));
    ElementRead(cfg, head, rest, [Answer('?' as int, None)]);
  }

  // ----- whole command lines

  /** What a user means, and how it is written. */
  datatype Item =
    | Operand(x: string)
    | Plain(flags: string)
    | Attached(flags: string, c: char, a: string)
    | Apart(flags: string, c: char, a: string)
    | Bare(flags: string, c: char)
    | LongEquals(dd: string, name: string, i: nat, a: string)
    | LongApart(dd: string, name: string, i: nat, a: string)
    | LongBare(dd: string, name: string, i: nat)

  ghost predicate ShortLegal(cfg: Config, flags: string, n: nat)
  {
    Flags(cfg, flags) && Letters(cfg, |flags| + n)
  }

  ghost predicate LongLegal(cfg: Config, dd: string, name: string, i: nat)
  {
    Dashes(cfg, dd, name) && Selects(cfg.longopts.value, name, cfg.longOnly, i)
  }

  /** The item is declared so. */
  ghost predicate Legal(cfg: Config, it: Item)
  {
    match it
    case Operand(x) => x == "" || x == "-" || x[0] != '-'
    case Plain(flags) => ShortLegal(cfg, flags, 0) && flags != ""
    case Attached(flags, c, a) =>
      && ShortLegal(cfg, flags, 1 + |a|) && a != ""
      && (Declared(cfg.optstring, c, Required) || Declared(cfg.optstring, c, Optional))
    case Apart(flags, c, a) => ShortLegal(cfg, flags, 1) && Declared(cfg.optstring, c, Required)
    case Bare(flags, c) => ShortLegal(cfg, flags, 1) && Declared(cfg.optstring, c, Optional)
    case LongEquals(dd, name, i, a) => LongLegal(cfg, dd, name, i) && cfg.longopts.value[i].hasArg != 0
    case LongApart(dd, name, i, a) => LongLegal(cfg, dd, name, i) && cfg.longopts.value[i].hasArg == 1
    case LongBare(dd, name, i) => LongLegal(cfg, dd, name, i) && cfg.longopts.value[i].hasArg != 1
  }

  /** Its elements on the command line. */
  function Elements(it: Item): Args
  {
    match it
    case Operand(x) => [x]
    case Plain(flags) => [Dash(flags, "")]
    case Attached(flags, c, a) => [Dash(flags, [c] + a)]
    case Apart(flags, c, a) => [Dash(flags, [c]), a]
    case Bare(flags, c) => [Dash(flags, [c])]
    case LongEquals(dd, name, i, a) => [dd + (name + "=" + a)]
    case LongApart(dd, name, i, a) => [dd + name, a]
    case LongBare(dd, name, i) => [dd + name]
  }

  /** What getopt should report for it. */
  ghost function Meaning(cfg: Config, it: Item): seq<Answer>
    requires Legal(cfg, it)
  {
    match it
    case Operand(x) => []
    case Plain(flags) => FlagAnswers(flags)
    case Attached(flags, c, a) => FlagAnswers(flags) + [Answer(c as int, Some(a))]
    case Apart(flags, c, a) => FlagAnswers(flags) + [Answer(c as int, Some(a))]
    case Bare(flags, c) => FlagAnswers(flags) + [Answer(c as int, None)]
    case LongEquals(dd, name, i, a) => [Answer(Value(cfg.longopts.value[i]), Some(a))]
    case LongApart(dd, name, i, a) => [Answer(Value(cfg.longopts.value[i]), Some(a))]
    case LongBare(dd, name, i) => [Answer(Value(cfg.longopts.value[i]), None)]
  }

  ghost predicate AllLegal(cfg: Config, items: seq<Item>)
  {
    forall k :: 0 <= k < |items| ==> Legal(cfg, items[k])
  }

  function Spell(items: seq<Item>): Args
  {
    if |items| == 0 then [] else Elements(items[0]) + Spell(items[1..])
  }

  ghost function Meanings(cfg: Config, items: seq<Item>): seq<Answer>
    requires AllLegal(cfg, items)
  {
    if |items| == 0 then [] else Meaning(cfg, items[0]) + Meanings(cfg, items[1..])
  }

  /** The elements that are options with their arguments, and the operands. */
  function OptionElements(items: seq<Item>): Args
  {
    if |items| == 0 then []
    else (if items[0].Operand? then [] else Elements(items[0])) + OptionElements(items[1..])
  }

  function OperandElements(items: seq<Item>): Args
  {
    if |items| == 0 then []
    else (if items[0].Operand? then [items[0].x] else []) + OperandElements(items[1..])
  }

  lemma OptionBack(cfg: Config, it: Item, rest: Args)
    requires Legal(cfg, it) && !it.Operand?
    ensures ReadAs(cfg, Elements(it), rest, Meaning(cfg, it))
  {
    match it
    case Plain(flags) => FlagsBack(cfg, flags, rest);
    case Attached(flags, c, a) =>
      if Declared(cfg.optstring, c, Required) {
        AttachedBack(cfg, flags, c, Required, a, rest);
      } else {
        AttachedBack(cfg, flags, c, Optional, a, rest);
      }
    case Apart(flags, c, a) => ApartBack(cfg, flags, c, a, rest);
    case Bare(flags, c) => BareBack(cfg, flags, c, rest);
    case LongEquals(dd, name, i, a) => LongEqualsBack(cfg, dd, name, i, a, rest);
    case LongApart(dd, name, i, a) => LongApartBack(cfg, dd, name, i, a, rest);
    case LongBare(dd, name, i) => LongBareBack(cfg, dd, name, i, rest);
  }

  lemma OperandBack(cfg: Config, x: string, rest: Args)
    requires x == "" || x == "-" || x[0] != '-'
    ensures Parse(cfg, [x] + rest) == Parse(cfg, rest) && Options(cfg, [x] + rest) == Options(cfg, rest)
    ensures Operands(cfg, [x] + rest) == [x] + Operands(cfg, rest)
  {
    assert ([x] + rest)[1..] == rest;
  }

  /** "--" ends the options. */
  lemma DashesBack(cfg: Config, rest: Args)
    ensures Parse(cfg, ["--"] + rest) == [] && Options(cfg, ["--"] + rest) == ["--"]
    ensures Operands(cfg, ["--"] + rest) == rest
  {
    assert (["--"] + rest)[1..] == rest;
  }

  /** The line is read as these answers, options and operands, in front of any rest. */
  ghost predicate SpelledAs(cfg: Config, line: Args, rest: Args, answers: seq<Answer>, options: Args, operands: Args)
  {
    && Parse(cfg, line + rest) == answers + Parse(cfg, rest)
    && Options(cfg, line + rest) == options + Options(cfg, rest)
    && Operands(cfg, line + rest) == operands + Operands(cfg, rest)
  }

  lemma ConcatArgs(a: Args, b: Args, c: Args)
    ensures a + b + c == a + (b + c)
  {
  }

  lemma SpelledCons(cfg: Config, head: Args, tail: Args, rest: Args, a1: seq<Answer>, a2: seq<Answer>,
                    o1: Args, o2: Args, p1: Args, p2: Args)
    requires SpelledAs(cfg, head, tail + rest, a1, o1, p1) && SpelledAs(cfg, tail, rest, a2, o2, p2)
    ensures SpelledAs(cfg, head + tail, rest, a1 + a2, o1 + o2, p1 + p2)
  {
    ConcatArgs(head, tail, rest);
    ThreeAnswers(a1, a2, Parse(cfg, rest));
    ConcatArgs(o1, o2, Options(cfg, rest));
    ConcatArgs(p1, p2, Operands(cfg, rest));
  }

  lemma ItemBack(cfg: Config, it: Item, rest: Args)
    requires Legal(cfg, it)
    ensures SpelledAs(cfg, Elements(it), rest, Meaning(cfg, it), if it.Operand? then [] else Elements(it),
                      if it.Operand? then [it.x] else [])
  {
    if it.Operand? {
      OperandBack(cfg, it.x, rest);
    } else {
      OptionBack(cfg, it, rest);
    }
  }

  /** Every command line spelled from declared options and operands, in any order and any of the
      spellings, is read as meant, whatever arguments follow. */
  lemma {:induction false} SpellBack(cfg: Config, items: seq<Item>, rest: Args)
    requires AllLegal(cfg, items)
    ensures SpelledAs(cfg, Spell(items), rest, Meanings(cfg, items), OptionElements(items), OperandElements(items))
    decreases |items|
  {
    if |items| == 0 {
      assert [] + rest == rest;
    } else {
      var it, more := items[0], items[1..];
      SpellBack(cfg, more, rest);
      ItemBack(cfg, it, Spell(more) + rest);
      SpelledCons(cfg, Elements(it), Spell(more), rest, Meaning(cfg, it), Meanings(cfg, more),
                  if it.Operand? then [] else Elements(it), OptionElements(more),
                  if it.Operand? then [it.x] else [], OperandElements(more));
    }
  }

  /** A whole line, with "--" and operands after it. */
  lemma LineBack(cfg: Config, items: seq<Item>, operands: Args)
    requires AllLegal(cfg, items)
    ensures var args := Spell(items) + (["--"] + operands);
            && Parse(cfg, args) == Meanings(cfg, items)
            && Options(cfg, args) == OptionElements(items) + ["--"]
            && Operands(cfg, args) == OperandElements(items) + operands
  {
    SpellBack(cfg, items, ["--"] + operands);
    DashesBack(cfg, operands);
    assert Meanings(cfg, items) + [] == Meanings(cfg, items);
  }
}

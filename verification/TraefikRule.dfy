// The Traefik v3 rule language the platform writes its router rules in: syntax,
// a parser over the rule text (`&&` binds tighter than `||`), a printer, and
// the meaning of a rule for a request. Traefik drops a router whose rule does not
// parse, so such a rule answers nothing. Matcher names are letters and arguments
// are quoted with backticks, as everything the platform writes is.

module TraefikRule {
  import opened Text

  datatype Expr =
    | Matcher(name: string, args: seq<string>)
    | Not(e: Expr)
    | And(l: Expr, r: Expr)
    | Or(l: Expr, r: Expr)

  // How loosely an expression may be written where it stands.
  datatype Level = Disj | Conj | Unit

  // Traefik v3 takes one parameter per Host matcher and a name and a value per
  // Header matcher; a rule with any other count is rejected whole.
  predicate ArityOk(name: string, n: nat) {
    (name == "Host" ==> n == 1) && (name == "Header" ==> n == 2)
  }

  predicate WordOk(name: string) {
    name != "" && forall i | 0 <= i < |name| :: IsLetter(name[i])
  }

  predicate Wf(e: Expr) {
    match e
    case Matcher(name, args) =>
      WordOk(name) && ArityOk(name, |args|) && forall a | a in args :: '`' !in a
    case Not(x) => Wf(x)
    case And(l, r) => Wf(l) && Wf(r)
    case Or(l, r) => Wf(l) && Wf(r)
  }

  // ----- printing -----

  function Quote(a: string): string {
    "`" + a + "`"
  }

  function PrintArgs(args: seq<string>): string {
    if args == [] then ""
    else if |args| == 1 then Quote(args[0])
    else Quote(args[0]) + ", " + PrintArgs(args[1..])
  }

  function Print(e: Expr, at: Level): string {
    match e
    case Matcher(name, args) => name + "(" + PrintArgs(args) + ")"
    case Not(x) => "!" + Print(x, Unit)
    case And(l, r) =>
      var t := Print(l, Unit) + " && " + Print(r, Conj);
      if at.Unit? then "(" + t + ")" else t
    case Or(l, r) =>
      var t := Print(l, Conj) + " || " + Print(r, Disj);
      if at.Disj? then t else "(" + t + ")"
  }

  // ----- parsing -----

  // Whitespace between the tokens of a rule.
  predicate IsBlank(c: char) {
    c == ' ' || c == '\t' || c == '\n' || c == '\r'
  }

  function SkipBlanks(s: string): (r: string)
    ensures |r| <= |s|
  {
    if s == "" || !IsBlank(s[0]) then s else SkipBlanks(s[1..])
  }

  type Parsed<T> = Option<(T, string)>

  // The length of the run of letters at the start of the text.
  function Word(s: string): (n: nat)
    ensures n <= |s|
  {
    if s == "" || !IsLetter(s[0]) then 0 else 1 + Word(s[1..])
  }

  function WithFirst(a: string, more: Parsed<seq<string>>): Parsed<seq<string>> {
    if more.None? then None else Some(([a] + more.value.0, more.value.1))
  }

  // The rest of an argument list, after the opening parenthesis or a comma.
  function ParseArgs(s: string): (r: Parsed<seq<string>>)
    ensures r.Some? ==> |r.value.1| < |s|
    decreases |s|
  {
    if s == "" || s[0] != '`' then None
    else
      var n := IndexOf(s[1..], '`');
      if n == |s[1..]| then None else ParseArgsTail(s[1..][..n], SkipBlanks(s[1..][n + 1..]))
  }

  function ParseArgsTail(arg: string, t: string): (r: Parsed<seq<string>>)
    ensures r.Some? ==> |r.value.1| < |t|
    decreases |t|
  {
    if t == "" then None
    else if t[0] == ')' then Some(([arg], t[1..]))
    else if t[0] == ',' then WithFirst(arg, ParseArgs(SkipBlanks(t[1..])))
    else None
  }

  function ParseArgList(t: string): (r: Parsed<seq<string>>)
    ensures r.Some? ==> |r.value.1| < |t|
  {
    if t != "" && t[0] == ')' then Some(([], t[1..])) else ParseArgs(t)
  }

  function Named(name: string, args: Parsed<seq<string>>): Parsed<Expr> {
    if args.None? || !ArityOk(name, |args.value.0|) then None
    else Some((Matcher(name, args.value.0), args.value.1))
  }

  function ParseMatcher(s: string): (r: Parsed<Expr>)
    ensures r.Some? ==> |r.value.1| < |s|
  {
    var n := Word(s);
    if n == 0 || n == |s| || s[n] != '(' then None
    else Named(s[..n], ParseArgList(SkipBlanks(s[n + 1..])))
  }

  function Negated(x: Parsed<Expr>): Parsed<Expr> {
    if x.None? then None else Some((Not(x.value.0), x.value.1))
  }

  function Closed(x: Parsed<Expr>): (r: Parsed<Expr>)
    ensures r.Some? ==> x.Some? && |r.value.1| < |x.value.1|
  {
    if x.None? then None
    else
      var t := SkipBlanks(x.value.1);
      if t == "" || t[0] != ')' then None else Some((x.value.0, t[1..]))
  }

  // What follows the operator `op` when the text after `x` goes on with it.
  function AfterOp(x: Parsed<Expr>, op: string): (r: Option<string>)
    ensures r.Some? ==> x.Some? && |r.value| <= |x.value.1|
  {
    if x.None? then None
    else
      var t := SkipBlanks(x.value.1);
      if op <= t then Some(SkipBlanks(t[|op|..])) else None
  }

  function Both(x: Parsed<Expr>, y: Parsed<Expr>): Parsed<Expr>
  {
    if x.None? || y.None? then None else Some((And(x.value.0, y.value.0), y.value.1))
  }

  function Either(x: Parsed<Expr>, y: Parsed<Expr>): Parsed<Expr> {
    if x.None? || y.None? then None else Some((Or(x.value.0, y.value.0), y.value.1))
  }

  function ParseUnit(s: string): (r: Parsed<Expr>)
    ensures r.Some? ==> |r.value.1| < |s|
    decreases |s|, 0
  {
    if s == "" then None
    else if s[0] == '!' then Negated(ParseUnit(SkipBlanks(s[1..])))
    else if s[0] == '(' then Closed(ParseOr(SkipBlanks(s[1..])))
    else ParseMatcher(s)
  }

  function ParseAnd(s: string): (r: Parsed<Expr>)
    ensures r.Some? ==> |r.value.1| < |s|
    decreases |s|, 1
  {
    var x := ParseUnit(s);
    var more := AfterOp(x, "&&");
    if more.None? then x else Both(x, ParseAnd(more.value))
  }

  function ParseOr(s: string): (r: Parsed<Expr>)
    ensures r.Some? ==> |r.value.1| < |s|
    decreases |s|, 2
  {
    var x := ParseAnd(s);
    var more := AfterOp(x, "||");
    if more.None? then x else Either(x, ParseOr(more.value))
  }

  // The rule as Traefik reads it, or None when Traefik drops the router.
  function ParseRule(rule: string): Option<Expr> {
    var x := ParseOr(SkipBlanks(rule));
    if x.Some? && SkipBlanks(x.value.1) == "" then Some(x.value.0) else None
  }

  // ----- meaning -----

  // `holds` is the set of matchers other than Host and Header (PathPrefix, Method,
  // ...) that the request satisfies.
  datatype Request = Request(host: string,
                             headers: set<(string, string)>,
                             holds: set<(string, seq<string>)>)

  predicate Eval(e: Expr, q: Request) {
    match e
    case Matcher(name, args) =>
      if name == "Host" && |args| == 1 then q.host == args[0]
      else if name == "Header" && |args| == 2 then (args[0], args[1]) in q.headers
      else (name, args) in q.holds
    case Not(x) => !Eval(x, q)
    case And(l, r) => Eval(l, q) && Eval(r, q)
    case Or(l, r) => Eval(l, q) || Eval(r, q)
  }

  // A router whose rule does not parse answers nothing.
  predicate Matches(rule: string, q: Request) {
    var e := ParseRule(rule);
    e.Some? && Eval(e.value, q)
  }

  // ----- the parser inverts the printer -----

  lemma SkipOne(s: string)
    requires s == "" || !IsBlank(s[0])
    ensures SkipBlanks(" " + s) == s
  {
    assert (" " + s)[1..] == s;
  }

  lemma {:induction false} WordOf(name: string, rest: string)
    requires forall i | 0 <= i < |name| :: IsLetter(name[i])
    requires rest == "" || !IsLetter(rest[0])
    ensures Word(name + rest) == |name|
  {
    if name == "" {
      assert name + rest == rest;
    } else {
      assert (name + rest)[1..] == name[1..] + rest;
      WordOf(name[1..], rest);
    }
  }

  // One step of ParseArgs over a quoted argument followed by `after`.
  lemma ParseArgsStep(a: string, after: string)
    requires '`' !in a && SkipBlanks(after) == after
    ensures ParseArgs("`" + (a + ("`" + after))) == ParseArgsTail(a, after)
  {
    var s := "`" + (a + ("`" + after));
    assert s[1..] == a + ("`" + after);
    IndexOfAfter(a, "`" + after, '`');
    assert s[1..][..|a|] == a;
    assert s[1..][|a| + 1..] == after;
  }

  lemma ArgsLast(a: string, rest: string)
    ensures Quote(a) + ")" + rest == "`" + (a + ("`" + (")" + rest)))
  {
    Assoc("`" + a, "`", ")");
    Assoc("`" + a, "`" + ")", rest);
    Assoc("`", a, "`" + ")" + rest);
    Assoc("`", ")", rest);
  }

  lemma ArgsMore(a: string, printed: string, rest: string)
    ensures Quote(a) + ", " + printed + ")" + rest == "`" + (a + ("`" + ("," + (" " + (printed + ")" + rest)))))
  {
    var tail := printed + ")" + rest;
    Assoc("`" + a, "`", ", ");
    Assoc("`" + a, "`" + ", ", printed);
    Assoc("`" + a, "`" + ", " + printed, ")");
    Assoc("`" + a, "`" + ", " + printed + ")", rest);
    Assoc("`", a, "`" + ", " + printed + ")" + rest);
    Assoc("`", ", ", printed);
    Assoc("`", ", " + printed, ")");
    Assoc("`", ", " + printed + ")", rest);
    Assoc(", ", printed, ")");
    Assoc(", ", printed + ")", rest);
    assert ", " == "," + " ";
    Assoc(",", " ", tail);
  }

  lemma {:induction false} ParsePrintedArgs(args: seq<string>, rest: string)
    requires args != []
    requires forall a | a in args :: '`' !in a
    ensures ParseArgs(PrintArgs(args) + ")" + rest) == Some((args, rest))
  {
    var a := args[0];
    if |args| == 1 {
      ArgsLast(a, rest);
      ParseArgsStep(a, ")" + rest);
      assert args == [a];
      assert (")" + rest)[1..] == rest;
    } else {
      var tail := PrintArgs(args[1..]) + ")" + rest;
      ArgsMore(a, PrintArgs(args[1..]), rest);
      ParseArgsStep(a, "," + (" " + tail));
      assert ("," + (" " + tail))[1..] == " " + tail;
      SkipOne(tail);
      ParsePrintedArgs(args[1..], rest);
      assert args == [a] + args[1..];
    }
  }

  lemma ParseMatcherStep(name: string, tail: string)
    requires WordOk(name) && SkipBlanks(tail) == tail
    ensures ParseMatcher(name + ("(" + tail)) == Named(name, ParseArgList(tail))
  {
    var s := name + ("(" + tail);
    WordOf(name, "(" + tail);
    assert s[..|name|] == name && s[|name| + 1..] == tail;
  }

  lemma ParsePrintedMatcher(name: string, args: seq<string>, rest: string)
    requires Wf(Matcher(name, args))
    ensures ParseMatcher(name + ("(" + (PrintArgs(args) + ")" + rest))) == Some((Matcher(name, args), rest))
  {
    var tail := PrintArgs(args) + ")" + rest;
    if args == [] {
      assert tail == ")" + rest && tail[1..] == rest;
    } else {
      ParsePrintedArgs(args, rest);
    }
    ParseMatcherStep(name, tail);
  }

  lemma PrintedHead(e: Expr, at: Level, rest: string)
    requires Wf(e)
    ensures Print(e, at) != "" && !IsSpace(Print(e, at)[0]) && Print(e, at)[0] != '&'
    ensures SkipBlanks(Print(e, at) + rest) == Print(e, at) + rest
  {}

  // Whatever follows a printed term is left alone, as long as it does not go on
  // with an operator that binds at least as tightly.
  predicate Stops(rest: string, at: Level) {
    (at.Unit? || !("&&" <= SkipBlanks(rest))) && (at.Disj? ==> !("||" <= SkipBlanks(rest)))
  }

  function ParseAt(s: string, at: Level): Option<(Expr, string)> {
    match at
    case Disj => ParseOr(s)
    case Conj => ParseAnd(s)
    case Unit => ParseUnit(s)
  }

  // A complete unit stands at every looser level too.
  lemma Loosen(s: string, e: Expr, rest: string, at: Level)
    requires ParseUnit(s) == Some((e, rest)) && Stops(rest, at)
    ensures ParseAt(s, at) == Some((e, rest))
  {
    if !at.Unit? {
      assert ParseAnd(s) == Some((e, rest));
    }
  }

  lemma AfterOpIs(e: Expr, op: string, tail: string)
    requires op == "&&" || op == "||"
    requires SkipBlanks(tail) == tail
    ensures AfterOp(Some((e, " " + (op + (" " + tail)))), op) == Some(tail)
  {
    SkipOne(op + (" " + tail));
    assert (op + (" " + tail))[2..] == " " + tail;
  }

  lemma AndStep(s: string, l: Expr, tail: string)
    requires ParseUnit(s) == Some((l, " " + ("&&" + (" " + tail))))
    requires SkipBlanks(tail) == tail
    ensures ParseAnd(s) == Both(ParseUnit(s), ParseAnd(tail))
  {
    AfterOpIs(l, "&&", tail);
  }

  lemma OrStep(s: string, l: Expr, tail: string)
    requires ParseAnd(s) == Some((l, " " + ("||" + (" " + tail))))
    requires SkipBlanks(tail) == tail
    ensures ParseOr(s) == Either(ParseAnd(s), ParseOr(tail))
  {
    AfterOpIs(l, "||", tail);
  }

  lemma BinaryShape(a: string, op: string, b: string, rest: string)
    requires op == " && " || op == " || "
    ensures a + op + b + rest == a + (" " + (op[1..3] + (" " + (b + rest))))
  {
    Assoc(a, op, b);
    Assoc(a, op + b, rest);
    Assoc(op, b, rest);
    assert op == " " + (op[1..3] + " ");
    Assoc(" ", op[1..3] + " ", b + rest);
    Assoc(op[1..3], " ", b + rest);
  }

  lemma ParenShape(t: string, rest: string)
    ensures "(" + t + ")" + rest == "(" + (t + (")" + rest))
  {
    Assoc("(", t, ")");
    Assoc("(", t + ")", rest);
    Assoc(t, ")", rest);
  }

  lemma MatcherShape(name: string, args: string, rest: string)
    ensures name + "(" + args + ")" + rest == name + ("(" + (args + ")" + rest))
  {
    Assoc(name, "(", args);
    Assoc(name, "(" + args, ")");
    Assoc(name, "(" + args + ")", rest);
    Assoc("(", args, ")");
    Assoc("(", args + ")", rest);
  }

  lemma {:induction false} ParsePrintedAnd(e: Expr, rest: string)
    requires e.And? && Wf(e) && Stops(rest, Conj)
    ensures ParseAnd(Print(e, Conj) + rest) == Some((e, rest))
    decreases e, 0
  {
    var tail := Print(e.r, Conj) + rest;
    BinaryShape(Print(e.l, Unit), " && ", Print(e.r, Conj), rest);
    assert " && "[1..3] == "&&";
    ParsePrinted(e.l, Unit, " " + ("&&" + (" " + tail)));
    ParsePrinted(e.r, Conj, rest);
    PrintedHead(e.r, Conj, rest);
    AndStep(Print(e, Conj) + rest, e.l, tail);
  }

  lemma {:induction false} ParsePrintedOr(e: Expr, rest: string)
    requires e.Or? && Wf(e) && Stops(rest, Disj)
    ensures ParseOr(Print(e, Disj) + rest) == Some((e, rest))
    decreases e, 0
  {
    var tail := Print(e.r, Disj) + rest;
    BinaryShape(Print(e.l, Conj), " || ", Print(e.r, Disj), rest);
    assert " || "[1..3] == "||";
    ParsePrinted(e.l, Conj, " " + ("||" + (" " + tail)));
    ParsePrinted(e.r, Disj, rest);
    PrintedHead(e.r, Disj, rest);
    OrStep(Print(e, Disj) + rest, e.l, tail);
  }

  lemma {:induction false} ParsePrintedUnit(e: Expr, rest: string)
    requires Wf(e)
    ensures ParseUnit(Print(e, Unit) + rest) == Some((e, rest))
    decreases e, 1
  {
    match e {
      case Matcher(name, args) =>
        MatcherShape(name, PrintArgs(args), rest);
        assert IsLetter(name[0]);
        ParsePrintedMatcher(name, args, rest);
      case Not(x) =>
        ParsePrinted(x, Unit, rest);
        PrintedHead(x, Unit, rest);
        Assoc("!", Print(x, Unit), rest);
      case And(l, r) =>
        ParenShape(Print(e, Conj), rest);
        ParsePrintedAnd(e, ")" + rest);
        PrintedHead(e, Conj, ")" + rest);
      case Or(l, r) =>
        ParenShape(Print(e, Disj), rest);
        ParsePrintedOr(e, ")" + rest);
        PrintedHead(e, Disj, ")" + rest);
    }
  }

  lemma {:induction false} ParsePrinted(e: Expr, at: Level, rest: string)
    requires Wf(e) && Stops(rest, at)
    ensures ParseAt(Print(e, at) + rest, at) == Some((e, rest))
    decreases e, 2
  {
    if e.And? && !at.Unit? {
      ParsePrintedAnd(e, rest);
    } else if e.Or? && at.Disj? {
      ParsePrintedOr(e, rest);
    } else {
      ParsePrintedUnit(e, rest);
      Loosen(Print(e, Unit) + rest, e, rest, at);
    }
  }

  // Parsing a printed rule gives the rule back, so a printed text means what its
  // expression means.
  lemma PrintedMeaning(e: Expr, q: Request)
    requires Wf(e)
    ensures ParseRule(Print(e, Disj)) == Some(e)
    ensures Matches(Print(e, Disj), q) == Eval(e, q)
  {
    ParsePrinted(e, Disj, "");
    PrintedHead(e, Disj, "");
    assert Print(e, Disj) + "" == Print(e, Disj);
  }

  // ----- what else is a rule -----

  // The space, the tab and the line ends, by their codes.
  predicate Gap(c: char) {
    c as int == 32 || c as int == 9 || c as int == 10 || c as int == 13
  }

  // What is skipped between tokens is such characters, and all of them.
  lemma {:induction false} BlanksExactly(s: string) returns (lead: string)
    ensures s == lead + SkipBlanks(s)
    ensures forall i | 0 <= i < |lead| :: Gap(lead[i])
    ensures SkipBlanks(s) != "" ==> !Gap(SkipBlanks(s)[0])
  {
    if s == "" || !IsBlank(s[0]) {
      lead := "";
    } else {
      var more := BlanksExactly(s[1..]);
      lead := [s[0]] + more;
      Assoc([s[0]], more, SkipBlanks(s[1..]));
      assert s == [s[0]] + s[1..];
    }
  }

  lemma {:induction false} WordLetters(s: string)
    ensures forall i | 0 <= i < Word(s) :: IsLetter(s[i])
  {
    if s != "" && IsLetter(s[0]) {
      WordLetters(s[1..]);
    }
  }

  lemma {:induction false} ArgsWf(s: string)
    ensures ParseArgs(s).Some? ==> s[0] == '`' && forall a | a in ParseArgs(s).value.0 :: '`' !in a
    decreases |s|
  {
    if s != "" && s[0] == '`' {
      var n := IndexOf(s[1..], '`');
      if n < |s[1..]| {
        var t := SkipBlanks(s[1..][n + 1..]);
        assert '`' !in s[1..][..n];
        if t != "" && t[0] == ',' {
          ArgsWf(SkipBlanks(t[1..]));
        }
      }
    }
  }

  lemma MatcherWf(s: string)
    ensures ParseMatcher(s).Some? ==> Wf(ParseMatcher(s).value.0)
  {
    var n := Word(s);
    WordLetters(s);
    if n < |s| {
      ArgsWf(SkipBlanks(s[n + 1..]));
    }
  }

  lemma {:induction false} UnitWf(s: string)
    ensures ParseUnit(s).Some? ==> Wf(ParseUnit(s).value.0)
    decreases |s|, 0
  {
    if s != "" {
      if s[0] == '!' {
        UnitWf(SkipBlanks(s[1..]));
      } else if s[0] == '(' {
        OrWf(SkipBlanks(s[1..]));
      } else {
        MatcherWf(s);
      }
    }
  }

  lemma {:induction false} AndWf(s: string)
    ensures ParseAnd(s).Some? ==> Wf(ParseAnd(s).value.0)
    decreases |s|, 1
  {
    UnitWf(s);
    var more := AfterOp(ParseUnit(s), "&&");
    if more.Some? {
      AndWf(more.value);
    }
  }

  lemma {:induction false} OrWf(s: string)
    ensures ParseOr(s).Some? ==> Wf(ParseOr(s).value.0)
    decreases |s|, 2
  {
    AndWf(s);
    var more := AfterOp(ParseAnd(s), "||");
    if more.Some? {
      OrWf(more.value);
    }
  }

  // Whatever text is accepted is a rule: names are letters, Host has one argument and
  // Header two, and no argument holds a backtick.
  predicate Proper(e: Expr) {
    match e
    case Matcher(name, args) =>
      && name != "" && (forall i | 0 <= i < |name| :: 'a' <= name[i] <= 'z' || 'A' <= name[i] <= 'Z')
      && (name == "Host" ==> |args| == 1) && (name == "Header" ==> |args| == 2)
      && (forall a | a in args :: '`' !in a)
    case Not(x) => Proper(x)
    case And(l, r) => Proper(l) && Proper(r)
    case Or(l, r) => Proper(l) && Proper(r)
  }

  lemma {:induction false} WfIsProper(e: Expr)
    ensures Wf(e) <==> Proper(e)
  {
    match e
    case Matcher(_, _) =>
    case Not(x) => WfIsProper(x);
    case And(l, r) =>
      WfIsProper(l);
      WfIsProper(r);
    case Or(l, r) =>
      WfIsProper(l);
      WfIsProper(r);
  }

  lemma AcceptedIsProper(rule: string)
    ensures ParseRule(rule).Some? ==> Proper(ParseRule(rule).value)
  {
    OrWf(SkipBlanks(rule));
    if ParseRule(rule).Some? {
      WfIsProper(ParseRule(rule).value);
    }
  }

  // Anything after a complete rule but blanks makes it no rule.
  lemma TrailingTextRejected(e: Expr, tail: string)
    requires Proper(e) && tail != "" && !Gap(tail[0]) && tail[0] != '&' && tail[0] != '|'
    ensures ParseRule(Print(e, Disj) + tail) == None
  {
    WfIsProper(e);
    assert SkipBlanks(tail) == tail;
    ParsePrinted(e, Disj, tail);
    PrintedHead(e, Disj, tail);
  }

  // What a single matcher asks for.
  lemma MatcherMeans(name: string, args: seq<string>, q: Request)
    requires Proper(Matcher(name, args))
    ensures name == "Host" ==> (Eval(Matcher(name, args), q) <==> q.host == args[0])
    ensures name == "Header" ==> (Eval(Matcher(name, args), q) <==> (args[0], args[1]) in q.headers)
    ensures name != "Host" && name != "Header" ==> (Eval(Matcher(name, args), q) <==> (name, args) in q.holds)
  {}
}

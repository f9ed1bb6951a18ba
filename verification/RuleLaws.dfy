// Laws of the textual rule rewriting: when writing twice is writing once, when
// un-scoping undoes scoping, and what becomes of a rule that is not a plain
// conjunction around one host term. Each law that holds only outside some family
// of rules is stated with that family as its exact condition.

module RuleLaws {
  import opened Text
  import opened TraefikRule
  import opened HostRewrite

  // ----- repeated writes -----

  // Only the last host list counts, so adding and removing a domain are the same
  // operation, and writing the same list twice changes nothing.
  lemma ScopedLastHostsWin(c: Conditions, earlier: seq<string>, hosts: seq<string>)
    requires Readable(c) && HostsOk(earlier) && HostsOk(hosts)
    ensures ScopedRule(ScopedRule(RuleText(All(c)), earlier), hosts) == ScopedRule(RuleText(All(c)), hosts)
  {
    ScopedRefines(c, earlier);
    ScopedRefines(ScopedConds(c, earlier), hosts);
    ScopedRefines(c, hosts);
  }

  // Un-scoping forgets an earlier scoping, whatever hosts that one listed, unless
  // the rule was nothing but the marker.
  lemma UnscopedOfScoped(c: Conditions, earlier: seq<string>, hosts: seq<string>)
    requires Readable(c) && HostsOk(earlier) && HostsOk(hosts)
    ensures UnscopedRule(ScopedRule(RuleText(All(c)), earlier), hosts) == UnscopedRule(RuleText(All(c)), hosts)
            <==> !OnlyMarkers(c)
  {
    UnscopedAfterScoping(c, earlier, hosts);
    UnscopedRefines(c, hosts);
    UnscopedOfScopedConds(c, earlier, hosts);
    if OnlyMarkers(c) {
      assert All(UnscopedConds(c, hosts)) == [HostExpr(hosts), Marker];
      MarkerIsLeft(hosts);
    }
  }

  lemma UnscopedAfterScoping(c: Conditions, earlier: seq<string>, hosts: seq<string>)
    requires Readable(c) && HostsOk(earlier) && HostsOk(hosts)
    ensures UnscopedRule(ScopedRule(RuleText(All(c)), earlier), hosts) == RuleText(All(UnscopedConds(ScopedConds(c, earlier), hosts)))
  {
    ScopedRefines(c, earlier);
    UnscopedRefines(ScopedConds(c, earlier), hosts);
  }

  lemma UnscopedOfScopedConds(c: Conditions, earlier: seq<string>, hosts: seq<string>)
    requires Readable(c) && HostsOk(earlier) && HostsOk(hosts)
    ensures !OnlyMarkers(c) ==> UnscopedConds(ScopedConds(c, earlier), hosts) == UnscopedConds(c, hosts)
    ensures OnlyMarkers(c) ==> All(UnscopedConds(ScopedConds(c, earlier), hosts)) == [HostExpr(hosts)]
  {
    var d := Rehosted(c, earlier);
    var e := ScopedConds(c, earlier);
    DropAppended(d.after);
    assert DropMarkers(e.after) == DropMarkers(d.after);
    assert DropMarkers([]) == [];
    assert e.hosts == Some(earlier) && e.before == d.before && !OnlyMarkers(e);
    assert UnscopedConds(e, hosts) == Conditions(DropMarkers(d.before), Some(hosts), DropMarkers(d.after));
    if c.hosts.None? {
      assert d.before == [] && d.after == c.before;
      DropMarkersOnly(c.before);
    }
  }

  lemma DropAppended(ts: seq<Expr>)
    ensures DropMarkers(ts + [Marker]) == DropMarkers(ts)
  {
    DropConcat(ts, [Marker]);
    assert DropMarkers([Marker]) == [];
  }

  lemma DropMarkersOnly(ts: seq<Expr>)
    ensures DropMarkers(ts) == [] <==> forall t | t in ts :: t == Marker
  {
    if DropMarkers(ts) != [] {
      assert DropMarkers(ts)[0] in ts;
    } else {
      assert forall t | t in ts :: t !in DropMarkers(ts);
    }
  }

  lemma MarkerIsLeft(hosts: seq<string>)
    requires HostsOk(hosts)
    ensures RuleText([HostExpr(hosts), Marker]) != RuleText([HostExpr(hosts)])
  {
    assert [HostExpr(hosts)] + [Marker] == [HostExpr(hosts), Marker];
    AppendCondition([HostExpr(hosts)], Marker);
  }

  // A second un-scoping changes nothing, unless the rule was nothing but the
  // marker: that one needs two writes.
  lemma UnscopedIdempotent(c: Conditions, hosts: seq<string>)
    requires Readable(c) && HostsOk(hosts)
    ensures UnscopedRule(UnscopedRule(RuleText(All(c)), hosts), hosts) == UnscopedRule(RuleText(All(c)), hosts)
            <==> !OnlyMarkers(c)
  {
    var d := UnscopedConds(c, hosts);
    UnscopedRefines(c, hosts);
    UnscopedRefines(d, hosts);
    if OnlyMarkers(c) {
      assert d.after == [Marker] && DropMarkers([Marker]) == [];
      assert All(d) == [HostExpr(hosts), Marker];
      assert All(UnscopedConds(d, hosts)) == [HostExpr(hosts)];
    } else {
      DropTwice(c.before);
      DropTwice(c.after);
    }
  }

  lemma {:induction false} DropTwice(ts: seq<Expr>)
    ensures DropMarkers(DropMarkers(ts)) == DropMarkers(ts)
  {
    if ts != [] {
      DropTwice(ts[1..]);
      DropConcat(if ts[0] == Marker then [] else [ts[0]], DropMarkers(ts[1..]));
      assert DropMarkers([]) == [];
    }
  }

  // ----- a marker that is only part of a condition -----

  lemma NegatedMarkerText()
    ensures Print(Not(Marker), Unit) == "!" + MARKER && Contains("!" + MARKER, MARKER)
  {
    MarkerText();
    assert At(MARKER, MARKER, 0);
    AtConcat("!", MARKER, MARKER, 0);
    assert At("!" + MARKER, MARKER, 1);
  }

  lemma NestedMarkerText()
    ensures RuleText([HostExpr(["a"])] + [Not(Marker)]) == "Host(`a`) && !" + MARKER
  {
    NegatedMarkerText();
    AppendCondition([HostExpr(["a"])], Not(Marker));
    assert "Host(`a`) && !" == "Host(`a`)" + " && " + "!";
    Assoc("Host(`a`)" + " && ", "!", MARKER);
  }

  // The rule answers a request without the header, though it was scoped.
  lemma NestedMarkerExample(q: Request)
    requires q.host == "a" && (HEADER_NAME, HEADER_TOKEN) !in q.headers
    ensures Matches(ScopedRule("Host(`a`) && !" + MARKER, ["a"]), q)
  {
    var c := Conditions([], Some(["a"]), [Not(Marker)]);
    NestedMarkerText();
    NegatedMarkerText();
    MarkerWf();
    assert All(c) == [HostExpr(["a"])] + [Not(Marker)];
    assert Others(c) == [Not(Marker)];
    assert Others(c)[0] in Others(c);
    ScopedMeaning(c, ["a"], q);
    assert Eval(Not(Marker), q);
  }

  // ----- text that looks like a host term inside an earlier argument -----

  // The arguments before the one in question, with their separators.
  function ArgsLead(args: seq<string>): string {
    if args == [] then "" else Quote(args[0]) + ", " + ArgsLead(args[1..])
  }

  // The rule text up to and including the quote that opens the next argument.
  function UpToArgument(before: seq<Expr>, name: string, args: seq<string>): string {
    LeadText(before) + (name + ("(" + (ArgsLead(args) + "`")))
  }

  lemma {:induction false} TrimToTick(u: string, s: string) returns (k: nat)
    requires u != "" && u[|u| - 1] == '`'
    ensures k < |u| && TrimLeft(u + s) == u[k..] + s
  {
    if IsSpace(u[0]) {
      assert (u + s)[1..] == u[1..] + s;
      var j := TrimToTick(u[1..], s);
      k := j + 1;
      assert u[1..][j..] == u[k..];
    } else {
      k := 0;
    }
  }

  lemma CallBeforeTick(u: string, s: string)
    requires u != "" && u[|u| - 1] == '`' && "Host(" <= u + s
    ensures Contains(u, "Host(")
  {
    var all := u + s;
    assert At(all, "Host(", 0);
    assert all[|u| - 1] == '`';
    assert |u| > 5;
    assert all[..5] == u[..5];
    assert At(u, "Host(", 0);
  }

  lemma NoMatchBeforeTick(u: string, s: string)
    requires u != "" && u[|u| - 1] == '`' && !Contains(u, "Host(")
    ensures MatchHost(u + s).None?
  {
    if "Host(" <= u + s {
      CallBeforeTick(u, s);
    }
    if MatchGroup(u + s).Some? {
      assert u[0] == '(';
      var v := u[1..];
      assert (u + s)[1..] == v + s;
      var k := TrimToTick(v, s);
      assert "Host(" <= "Host(`";
      assert "Host(" <= v[k..] + s;
      CallBeforeTick(v[k..], s);
      ContainsSuffix(v, k, "Host(");
      ContainsSuffix(u, 1, "Host(");
    }
  }

  lemma {:induction false} FindPastTick(u: string, s: string)
    requires u == "" || u[|u| - 1] == '`'
    requires !Contains(u, "Host(") && FindHost(s).Some?
    ensures FindHost(u + s) == Some((u + FindHost(s).value.0, FindHost(s).value.1))
  {
    if u == "" {
      assert u + s == s && FindHost(s).Some?;
      assert u + FindHost(s).value.0 == FindHost(s).value.0;
    } else {
      NoMatchBeforeTick(u, s);
      assert (u + s)[1..] == u[1..] + s;
      if Contains(u[1..], "Host(") {
        ContainsSuffix(u, 1, "Host(");
      }
      FindPastTick(u[1..], s);
      Assoc([u[0]], u[1..], FindHost(s).value.0);
      assert u == [u[0]] + u[1..];
    }
  }

  lemma {:induction false} FindNoLater(s: string, i: nat)
    requires i <= |s| && MatchHost(s[i..]).Some?
    ensures FindHost(s).Some?
    ensures FindHost(s).value.0 <= s && |FindHost(s).value.0| <= i
  {
    if MatchHost(s).None? {
      assert s != "" && s[i..] == s[1..][i - 1..];
      FindNoLater(s[1..], i - 1);
      var x := FindHost(s[1..]).value.0;
      assert x == s[1..][..|x|];
      assert [s[0]] + x == s[..|x| + 1];
    }
  }

  lemma {:induction false} IndexBounded(s: string, c: char, i: nat)
    requires i < |s| && s[i] == c
    ensures IndexOf(s, c) <= i
  {
    if s[0] != c {
      IndexBounded(s[1..], c, i - 1);
    }
  }

  // A matcher opens where its text is followed by a closing parenthesis.
  lemma OpensBefore(s: string, i: nat, k: nat)
    requires At(s, "Host(", i) && i + 5 <= k < |s| && s[k] == ')'
    ensures MatchHost(s[i..]).Some?
  {
    assert s[i..][..5] == s[i..i + 5];
    var t := s[i..][5..];
    assert t[k - i - 5] == ')';
    IndexBounded(t, ')', k - i - 5);
  }

  // The search stops inside the argument that holds the text.
  lemma FindInArgument(u: string, arg: string, rest: string) returns (x: string, post: string)
    requires u == "" || u[|u| - 1] == '`'
    requires !Contains(u, "Host(") && Contains(arg, "Host(")
    requires ')' in rest
    ensures x <= arg && FindHost(u + (arg + rest)) == Some((u + x, post))
  {
    var s := arg + rest;
    var i: nat :| i <= |arg| && At(arg, "Host(", i);
    AtConcat(arg, rest, "Host(", i);
    var j: nat :| j < |rest| && rest[j] == ')';
    OpensBefore(s, i, |arg| + j);
    FindNoLater(s, i);
    FindPastTick(u, s);
    x, post := FindHost(s).value.0, FindHost(s).value.1;
    assert x == s[..|x|] == arg[..|x|];
  }

  // After an argument a comma or a closing parenthesis must follow.
  lemma ArgsBroken(y: string, after: string)
    requires '`' !in y && after != "" && !IsSpace(after[0]) && after[0] != ',' && after[0] != ')'
    ensures ParseArgs("`" + (y + ("`" + after))) == None
  {
    ParseArgsStep(y, after);
  }

  lemma {:induction false} ArgsLeadBroken(args: seq<string>, s: string)
    requires forall a | a in args :: '`' !in a
    requires s != "" && s[0] == '`' && ParseArgs(s) == None
    ensures ParseArgs(ArgsLead(args) + s) == None
    ensures (ArgsLead(args) + s)[0] == '`'
  {
    if args == [] {
      assert ArgsLead(args) + s == s;
    } else {
      var a := args[0];
      var more := ArgsLead(args[1..]) + s;
      ArgsLeadBroken(args[1..], s);
      var after := "," + (" " + more);
      assert ArgsLead(args) + s == "`" + (a + ("`" + after)) by {
        Assoc("`" + a, "`", ", ");
        Assoc("`" + a, "`" + ", ", ArgsLead(args[1..]));
        Assoc("`" + a, "`" + ", " + ArgsLead(args[1..]), s);
        Assoc("`", a, "`" + ", " + ArgsLead(args[1..]) + s);
        Assoc("`", ", ", ArgsLead(args[1..]));
        Assoc("`", ", " + ArgsLead(args[1..]), s);
        Assoc(", ", ArgsLead(args[1..]), s);
        assert ", " == "," + " ";
        Assoc(",", " ", more);
      }
      ParseArgsStep(a, after);
      assert after[1..] == " " + more;
      SkipOne(more);
    }
  }

  lemma MatcherBroken(name: string, s: string)
    requires WordOk(name) && s != "" && s[0] == '`' && ParseArgs(s) == None
    ensures ParseUnit(name + ("(" + s)) == None
    ensures SkipBlanks(name + ("(" + s)) == name + ("(" + s)
  {
    ParseMatcherStep(name, s);
    assert IsLetter(name[0]) && (name + ("(" + s))[0] == name[0];
  }

  lemma {:induction false} LeadBroken(before: seq<Expr>, s: string)
    requires AllWf(before) && SkipBlanks(s) == s && ParseUnit(s) == None
    ensures ParseAnd(LeadText(before) + s) == None
    ensures SkipBlanks(LeadText(before) + s) == LeadText(before) + s
  {
    if before == [] {
      assert LeadText(before) + s == s;
    } else {
      var t := before[0];
      var more := LeadText(before[1..]) + s;
      LeadBroken(before[1..], s);
      LeadShape(before, s);
      ParsePrinted(t, Unit, " " + ("&&" + (" " + more)));
      PrintedHead(t, Unit, " " + ("&&" + (" " + more)));
      AndStep(LeadText(before) + s, t, more);
    }
  }

  lemma LeadShape(before: seq<Expr>, s: string)
    requires before != []
    ensures LeadText(before) + s == Print(before[0], Unit) + (" " + ("&&" + (" " + (LeadText(before[1..]) + s))))
  {
    var p := Print(before[0], Unit);
    var more := LeadText(before[1..]) + s;
    if before[1..] == [] {
      assert TailText(before[1..]) == "" && p + "" == p && more == s;
      Assoc(p, " && ", s);
    } else {
      TailIsText(before[1..]);
      Assoc(p, " && ", RuleText(before[1..]));
      Assoc(p + " && ", RuleText(before[1..]), " && ");
      Assoc(p + " && ", LeadText(before[1..]), s);
      Assoc(p, " && ", more);
    }
    assert " && " == " " + ("&&" + " ");
    Assoc(" ", "&&" + " ", more);
    Assoc("&&", " ", more);
  }

  lemma HostTermOpens(hosts: seq<string>) returns (opening: string, after: string)
    requires HostsOk(hosts)
    ensures HostTerm(hosts) == opening + ("`" + after)
    ensures '`' !in opening && after != "" && !IsSpace(after[0]) && after[0] != ',' && after[0] != ')'
  {
    var h := hosts[0];
    assert HostOk(h);
    if |hosts| == 1 {
      HostCallShape(h, "");
      opening, after := "Host(", h + "`)";
      assert HostTerm(hosts) == "Host(`" + h + "`)";
      assert "Host(`" == "Host(" + "`";
      Assoc("Host(`", h, "`)");
      Assoc("Host(", "`", h + "`)");
    } else {
      var rest := " || " + HostCalls(hosts[1..]) + ")";
      opening, after := "(Host(", h + ("`)" + rest);
      Assoc(HostCall(h), " || ", HostCalls(hosts[1..]));
      Assoc("(", HostCalls(hosts), ")");
      Assoc(HostCall(h), " || " + HostCalls(hosts[1..]), ")");
      HostCallShape(h, rest);
      assert "Host(`" == "Host(" + "`" && "(Host(" == "(" + "Host(";
      Assoc("Host(", "`", after);
      Assoc("(", "Host(", "`" + after);
    }
    assert after[0] == h[0];
  }

  // A rule with the text `Host(` in a quoted argument in front of its host term.
  predicate EarlierText(before: seq<Expr>, name: string, args: seq<string>, arg: string, rest: string) {
    && AllWf(before) && WordOk(name) && (forall a | a in args :: '`' !in a) && '`' !in arg
    && ')' in rest
    && !Contains(UpToArgument(before, name, args), "Host(") && Contains(arg, "Host(")
  }

  // Whatever stands after it, a host term put in place of that text leaves a rule
  // that does not parse.
  lemma HostInArgument(before: seq<Expr>, name: string, args: seq<string>, x: string, post: string, hosts: seq<string>)
    requires AllWf(before) && WordOk(name) && (forall a | a in args :: '`' !in a) && '`' !in x
    requires HostsOk(hosts)
    ensures ParseRule(UpToArgument(before, name, args) + x + HostTerm(hosts) + post) == None
  {
    var u := UpToArgument(before, name, args);
    var opening, after := HostTermOpens(hosts);
    var y := x + opening;
    var s := "`" + (y + ("`" + (after + post)));
    ArgsBroken(y, after + post);
    ArgsLeadBroken(args, s);
    MatcherBroken(name, ArgsLead(args) + s);
    LeadBroken(before, name + ("(" + (ArgsLead(args) + s)));
    var l, a := LeadText(before), ArgsLead(args);
    assert u + x + HostTerm(hosts) + post == l + (name + ("(" + (a + s))) by {
      Assoc(u, x, opening + ("`" + after));
      Assoc(x, opening, "`" + after);
      Assoc(u, y + ("`" + after), post);
      Assoc(y, "`" + after, post);
      Assoc("`", after, post);
      var z := y + ("`" + (after + post));
      Assoc(l, name + ("(" + (a + "`")), z);
      Assoc(name, "(" + (a + "`"), z);
      Assoc("(", a + "`", z);
      Assoc(a, "`", z);
    }
  }

  // When a quoted argument in front of the host term holds the text `Host(`, the
  // rewriting cuts the rule there: Traefik cannot parse what is written and drops
  // the router, so the backend answers nothing. Un-scoping first takes out the
  // marker's text, so there the rule is one without it.
  lemma EarlierTextBreaksRule(before: seq<Expr>, name: string, args: seq<string>, arg: string,
                              rest: string, hosts: seq<string>)
    requires EarlierText(before, name, args, arg, rest) && HostsOk(hosts)
    ensures var rule := UpToArgument(before, name, args) + (arg + rest);
            && ParseRule(ScopedRule(rule, hosts)) == None
            && (!Contains(rule, MARKER) ==> ParseRule(UnscopedRule(rule, hosts)) == None)
  {
    var u := UpToArgument(before, name, args);
    var rule := u + (arg + rest);
    var x, post := FindInArgument(u, arg, rest);
    assert forall i | 0 <= i < |x| :: x[i] == arg[i];
    HostInArgument(before, name, args, x, post, hosts);
    HostInArgument(before, name, args, x, post + " && " + MARKER, hosts);
    Assoc(u + x + HostTerm(hosts), post, " && ");
    Assoc(u + x + HostTerm(hosts), post + " && ", MARKER);
    if !Contains(rule, MARKER) {
      UnmarkedUntouched(rule);
    }
  }

  lemma UnmarkedUntouched(rule: string)
    requires !Contains(rule, MARKER)
    ensures Replace(Replace(rule, " && " + MARKER, ""), MARKER + " && ", "") == rule
  {
    forall i | At(rule, " && " + MARKER, i) ensures At(rule, MARKER, i + 4) {
      assert (" && " + MARKER)[4..] == MARKER;
      assert rule[i + 4..i + 4 + |MARKER|] == rule[i..i + 4 + |MARKER|][4..];
    }
    ReplaceNothing(rule, " && " + MARKER, "");
    NoPattern(rule);
    ReplaceNothing(rule, MARKER + " && ", "");
  }
}

// How the platform rewrites a backend's router rule: the host group is replaced
// textually and the marker condition added or removed. The rewriting works on
// characters; here it is shown to work on the rule's list of conditions.

module HostRewrite {
  import opened Text
  import opened TraefikRule

  const HEADER_NAME := "X-Pironman-Backend"
  const HEADER_TOKEN := "1"
  const MARKER := "Header(`X-Pironman-Backend`, `1`)"

  // ----- the text the platform writes -----

  function HostCall(host: string): string {
    "Host(`" + host + "`)"
  }

  function HostCalls(hosts: seq<string>): string {
    if hosts == [] then ""
    else if |hosts| == 1 then HostCall(hosts[0])
    else HostCall(hosts[0]) + " || " + HostCalls(hosts[1..])
  }

  // One Host() per hostname, grouped when there is more than one.
  function HostTerm(hosts: seq<string>): string {
    if |hosts| == 1 then HostCalls(hosts) else "(" + HostCalls(hosts) + ")"
  }

  // ----- the search for the host term of a rule -----
  //
  // A match is reported as the text that follows it.

  // Host(`...`)
  function MatchCall(s: string): (r: Option<string>)
    ensures r.Some? ==> |r.value| < |s|
  {
    if "Host(`" <= s then
      var t := s[6..];
      var n := IndexOf(t, '`');
      if n + 1 < |t| && t[n + 1] == ')' then Some(t[n + 2..]) else None
    else None
  }

  // The further alternatives of a group, up to its closing parenthesis.
  function MatchGroupTail(s: string): (r: Option<string>)
    ensures r.Some? ==> |r.value| < |s|
    decreases |s|
  {
    var t := TrimLeft(s);
    if "||" <= t then
      var next := MatchCall(TrimLeft(t[2..]));
      if next.None? then None else MatchGroupTail(next.value)
    else if t != "" && t[0] == ')' then Some(t[1..])
    else None
  }

  function MatchGroup(s: string): (r: Option<string>)
    ensures r.Some? ==> |r.value| < |s|
  {
    if s == "" || s[0] != '(' then None
    else
      var first := MatchCall(TrimLeft(s[1..]));
      if first.None? then None else MatchGroupTail(first.value)
  }

  // Host(...) up to the first closing parenthesis.
  function MatchBare(s: string): (r: Option<string>)
    ensures r.Some? ==> |r.value| < |s|
  {
    if "Host(" <= s then
      var t := s[5..];
      var n := IndexOf(t, ')');
      if n < |t| then Some(t[n + 1..]) else None
    else None
  }

  function MatchHost(s: string): (r: Option<string>)
    ensures r.Some? ==> |r.value| < |s|
  {
    var g := MatchGroup(s);
    if g.Some? then g else MatchBare(s)
  }

  // The leftmost host term: the text before it and the text after it.
  function FindHost(s: string): (r: Option<(string, string)>)
    ensures r.Some? ==> |r.value.0| + |r.value.1| < |s|
    decreases |s|
  {
    var here := MatchHost(s);
    if here.Some? then Some(("", here.value))
    else if s == "" then None
    else Shifted(s[0], FindHost(s[1..]))
  }

  function Shifted(c: char, found: Option<(string, string)>): Option<(string, string)> {
    if found.None? then None else Some(([c] + found.value.0, found.value.1))
  }

  function RewriteHosts(rule: string, hosts: seq<string>): string {
    var found := FindHost(rule);
    if found.Some? then found.value.0 + HostTerm(hosts) + found.value.1
    else if rule == "" then HostTerm(hosts)
    else HostTerm(hosts) + " && " + rule
  }

  // Every occurrence of `pat` replaced, left to right, without overlap.
  function Replace(s: string, pat: string, sub: string): string
    requires pat != ""
    decreases |s|
  {
    if s == "" then ""
    else if pat <= s then sub + Replace(s[|pat|..], pat, sub)
    else [s[0]] + Replace(s[1..], pat, sub)
  }

  // The rule of a backend the static host fronts.
  function ScopedRule(rule: string, hosts: seq<string>): string {
    var v := RewriteHosts(rule, hosts);
    if Contains(v, MARKER) then v else v + " && " + MARKER
  }

  // The rule of a backend that answers its own hostname.
  function UnscopedRule(rule: string, hosts: seq<string>): string {
    var v := Replace(Replace(rule, " && " + MARKER, ""), MARKER + " && ", "");
    RewriteHosts(v, hosts)
  }

  // ----- rules as lists of conditions -----

  const Marker := Matcher("Header", [HEADER_NAME, HEADER_TOKEN])

  predicate HostOk(h: string) {
    h != "" && forall i | 0 <= i < |h| :: IsLetter(h[i]) || IsDigit(h[i]) || h[i] == '-' || h[i] == '.'
  }

  predicate HostsOk(hosts: seq<string>) {
    hosts != [] && forall h | h in hosts :: HostOk(h)
  }

  function HostExpr(hosts: seq<string>): Expr
    requires hosts != []
  {
    var first := Matcher("Host", [hosts[0]]);
    if |hosts| == 1 then first else Or(first, HostExpr(hosts[1..]))
  }

  // ` && t` for each of the remaining conditions.
  function TailText(ts: seq<Expr>): string {
    if ts == [] then "" else " && " + Print(ts[0], Unit) + TailText(ts[1..])
  }

  // The conditions joined with `&&`.
  function RuleText(ts: seq<Expr>): string {
    if ts == [] then "" else Print(ts[0], Unit) + TailText(ts[1..])
  }

  function ConjExpr(ts: seq<Expr>): Expr
    requires ts != []
  {
    if |ts| == 1 then ts[0] else And(ts[0], ConjExpr(ts[1..]))
  }

  predicate AllWf(ts: seq<Expr>) {
    forall t | t in ts :: Wf(t)
  }

  predicate AllHold(ts: seq<Expr>, q: Request) {
    forall t | t in ts :: Eval(t, q)
  }

  // ----- what a conjunction means -----

  lemma {:induction false} ConjHolds(ts: seq<Expr>, q: Request)
    requires ts != []
    ensures Eval(ConjExpr(ts), q) == AllHold(ts, q)
  {
    if |ts| > 1 {
      ConjHolds(ts[1..], q);
      assert ts == [ts[0]] + ts[1..];
    }
  }

  lemma {:induction false} ParseConj(ts: seq<Expr>)
    requires ts != [] && AllWf(ts)
    ensures ParseAnd(RuleText(ts)) == Some((ConjExpr(ts), ""))
    ensures SkipBlanks(RuleText(ts)) == RuleText(ts)
  {
    var t := ts[0];
    var tail := TailText(ts[1..]);
    PrintedHead(t, Unit, tail);
    if |ts| == 1 {
      assert tail == "";
      ParsePrinted(t, Unit, "");
      Loosen(RuleText(ts), t, "", Conj);
    } else {
      var rest := RuleText(ts[1..]);
      assert ts[1..][1..] == ts[1..][1..];
      TailIsText(ts[1..]);
      ParseConj(ts[1..]);
      ParsePrinted(t, Unit, " " + ("&&" + (" " + rest)));
      AndStep(RuleText(ts), t, rest);
    }
  }

  lemma TailIsText(ts: seq<Expr>)
    requires ts != []
    ensures TailText(ts) == " " + ("&&" + (" " + RuleText(ts)))
    ensures TailText(ts) == " && " + RuleText(ts)
  {
    Assoc(" && ", Print(ts[0], Unit), TailText(ts[1..]));
    assert " && " == " " + ("&&" + " ");
    Assoc(" ", "&&" + " ", RuleText(ts));
    Assoc("&&", " ", RuleText(ts));
  }

  // A rule text holds of a request exactly when every condition does.
  lemma RuleMeaning(ts: seq<Expr>, q: Request)
    requires ts != [] && AllWf(ts)
    ensures Matches(RuleText(ts), q) == AllHold(ts, q)
  {
    ParseConj(ts);
    ConjHolds(ts, q);
    assert SkipBlanks("") == "";
  }

  lemma {:induction false} HostMeaning(hosts: seq<string>, q: Request)
    requires hosts != []
    ensures Eval(HostExpr(hosts), q) == (q.host in hosts)
  {
    if |hosts| > 1 {
      HostMeaning(hosts[1..], q);
      assert hosts == [hosts[0]] + hosts[1..];
    }
  }

  lemma {:induction false} HostExprWf(hosts: seq<string>)
    requires HostsOk(hosts)
    ensures Wf(HostExpr(hosts))
  {
    assert HostOk(hosts[0]);
    assert forall i | 0 <= i < 4 :: IsLetter("Host"[i]);
    if |hosts| > 1 {
      HostExprWf(hosts[1..]);
    }
  }

  lemma {:induction false} HostCallsPrinted(hosts: seq<string>)
    requires hosts != []
    ensures HostCalls(hosts) == Print(HostExpr(hosts), Disj)
  {
    var h := hosts[0];
    assert "Host(`" == "Host" + "(" + "`" && "`)" == "`" + ")";
    assert HostCall(h) == "Host" + "(" + Quote(h) + ")";
    assert PrintArgs([h]) == Quote(h);
    if |hosts| > 1 {
      HostCallsPrinted(hosts[1..]);
    }
  }

  // The host term the platform writes is the printed host condition.
  lemma HostTermPrinted(hosts: seq<string>)
    requires hosts != []
    ensures HostTerm(hosts) == Print(HostExpr(hosts), Unit)
  {
    HostCallsPrinted(hosts);
  }

  // ----- where the search finds the host term -----

  lemma PrefixAt(s: string, k: nat, p: string, q: string)
    requires k <= |s| && q <= s[k..] && p <= q
    ensures At(s, p, k) && Contains(s, p)
  {
    assert s[k..][..|p|] == q[..|p|] == p;
    assert s[k..k + |p|] == s[k..][..|p|];
    assert At(s, p, k);
  }

  lemma MatchNeedsCall(s: string)
    requires MatchHost(s).Some?
    ensures Contains(s, "Host(")
  {
    if MatchGroup(s).Some? {
      var k := TrimmedAt(s[1..]);
      PrefixAt(s[1..], k, "Host(", "Host(`");
      ContainsSuffix(s, 1, "Host(");
    } else {
      PrefixAt(s, 0, "Host(", "Host(");
    }
  }

  lemma {:induction false} FindHostNeedsCall(s: string)
    ensures FindHost(s).Some? ==> Contains(s, "Host(")
    decreases |s|
  {
    if MatchHost(s).Some? {
      MatchNeedsCall(s);
    } else if s != "" {
      FindHostNeedsCall(s[1..]);
      if FindHost(s[1..]).Some? {
        ContainsSuffix(s, 1, "Host(");
      }
    }
  }

  // Trimming drops a prefix.
  lemma {:induction false} TrimmedAt(s: string) returns (k: nat)
    ensures k <= |s| && TrimLeft(s) == s[k..]
  {
    if s == "" || !IsSpace(s[0]) {
      k := 0;
    } else {
      var j := TrimmedAt(s[1..]);
      k := j + 1;
      assert s[1..][j..] == s[k..];
    }
  }

  // The text of conditions that come before another one.
  predicate Leads(u: string) {
    u != "" && u[|u| - 1] == ' ' && (|u| >= 2 ==> u[|u| - 2] == '&')
  }

  lemma {:induction false} TrimLeads(u: string, s: string) returns (k: nat)
    requires |u| >= 2 && Leads(u)
    ensures k <= |u| - 2 && TrimLeft(u + s) == u[k..] + s
  {
    if IsSpace(u[0]) {
      assert (u + s)[1..] == u[1..] + s;
      if |u| == 2 {
        assert false;
      }
      var j := TrimLeads(u[1..], s);
      k := j + 1;
      assert u[1..][j..] == u[k..];
    } else {
      k := 0;
    }
  }

  lemma CallPastLead(u: string, s: string, call: string)
    requires Leads(u)
    requires call == "Host(" || (call == "Host(`" && |u| >= 2)
    requires call <= u + s
    ensures Contains(u, "Host(")
  {
    var all := u + s;
    assert At(all, call, 0);
    assert all[|u| - 1] == u[|u| - 1] == ' ';
    assert |u| >= 5;
    PrefixAt(u, 0, "Host(", call[..5]);
  }

  lemma ContainsSuffix(u: string, k: nat, p: string)
    requires k <= |u| && Contains(u[k..], p)
    ensures Contains(u, p)
  {
    var i :| 0 <= i <= |u[k..]| && At(u[k..], p, i);
    assert u == u[..k] + u[k..];
    AtConcat(u[..k], u[k..], p, i);
    assert At(u, p, k + i);
  }

  lemma NoMatchInLead(u: string, s: string)
    requires Leads(u) && !Contains(u, "Host(")
    ensures MatchHost(u + s).None?
  {
    if "Host(" <= u + s {
      CallPastLead(u, s, "Host(");
    }
    if MatchGroup(u + s).Some? {
      assert u[0] == '(' && |u| >= 2;
      var v := u[1..];
      assert (u + s)[1..] == v + s;
      if |v| == 1 {
        assert false;
      }
      var k := TrimLeads(v, s);
      CallPastLead(v[k..], s, "Host(`");
      ContainsSuffix(v, k, "Host(");
      ContainsSuffix(u, 1, "Host(");
    }
  }

  lemma {:induction false} FindPastLead(u: string, s: string)
    requires u == "" || Leads(u)
    requires !Contains(u, "Host(")
    requires MatchHost(s).Some?
    ensures FindHost(u + s) == Some((u, MatchHost(s).value))
  {
    if u == "" {
      assert u + s == s;
    } else {
      NoMatchInLead(u, s);
      assert (u + s)[1..] == u[1..] + s;
      if Contains(u[1..], "Host(") {
        ContainsSuffix(u, 1, "Host(");
      }
      FindPastLead(u[1..], s);
      assert u == [u[0]] + u[1..];
    }
  }

  // ----- the host term is matched whole -----

  lemma MatchCallOf(h: string, s: string)
    requires '`' !in h
    ensures MatchCall("Host(`" + (h + ("`)" + s))) == Some(s)
  {
    var all := "Host(`" + (h + ("`)" + s));
    assert all[6..] == h + ("`)" + s);
    IndexOfAfter(h, "`)" + s, '`');
    assert (h + ("`)" + s))[|h| + 2..] == s;
  }

  lemma HostCallShape(h: string, s: string)
    ensures HostCall(h) + s == "Host(`" + (h + ("`)" + s))
  {
    Assoc("Host(`", h, "`)");
    Assoc("Host(`", h + "`)", s);
    Assoc(h, "`)", s);
  }

  lemma {:induction false} MatchGroupRest(hosts: seq<string>, s: string)
    requires HostsOk(hosts)
    ensures |hosts| == 1 ==> HostCalls(hosts) + (")" + s) == HostCall(hosts[0]) + (")" + s)
    ensures MatchCall(HostCalls(hosts) + (")" + s)).Some?
    ensures MatchGroupTail(MatchCall(HostCalls(hosts) + (")" + s)).value) == Some(s)
  {
    var h := hosts[0];
    assert HostOk(h);
    if |hosts| == 1 {
      HostCallShape(h, ")" + s);
      MatchCallOf(h, ")" + s);
      assert (")" + s)[1..] == s;
    } else {
      var rest := HostCalls(hosts[1..]) + (")" + s);
      Assoc(HostCall(h), " || ", HostCalls(hosts[1..]));
      Assoc(HostCall(h), " || " + HostCalls(hosts[1..]), ")" + s);
      Assoc(" || ", HostCalls(hosts[1..]), ")" + s);
      HostCallShape(h, " || " + rest);
      MatchCallOf(h, " || " + rest);
      MatchGroupRest(hosts[1..], s);
      GroupTailStep(rest);
    }
  }

  lemma GroupTailStep(rest: string)
    requires MatchCall(rest).Some?
    ensures MatchGroupTail(" || " + rest) == MatchGroupTail(MatchCall(rest).value)
  {
    assert rest[0] == 'H';
    var t := "||" + (" " + rest);
    assert " || " + rest == " " + t;
    TrimOne(t);
    assert t[2..] == " " + rest;
    TrimOne(rest);
  }

  lemma MatchSingle(h: string, s: string)
    requires HostOk(h)
    ensures MatchHost(HostCall(h) + s) == Some(s)
  {
    var quoted := "`" + h + "`";
    var t := quoted + (")" + s);
    assert HostCall(h) + s == "Host(" + t;
    assert ("Host(" + t)[5..] == t;
    IndexOfAfter(quoted, ")" + s, ')');
    assert t[|quoted| + 1..] == s;
    assert ("Host(" + t)[0] == 'H';
  }

  lemma MatchHostTerm(hosts: seq<string>, s: string)
    requires HostsOk(hosts)
    ensures MatchHost(HostTerm(hosts) + s) == Some(s)
  {
    if |hosts| == 1 {
      assert HostOk(hosts[0]);
      MatchSingle(hosts[0], s);
    } else {
      MatchGroupRest(hosts, s);
      Assoc("(", HostCalls(hosts), ")");
      Assoc("(", HostCalls(hosts) + ")", s);
      Assoc(HostCalls(hosts), ")", s);
    }
  }

  // ----- conditions split at the host term -----

  // A rule as a conjunction with at most one host term; without one, every
  // condition is in `before`.
  datatype Conditions = Conditions(before: seq<Expr>, hosts: Option<seq<string>>, after: seq<Expr>)

  function All(c: Conditions): seq<Expr>
    requires c.hosts.Some? ==> c.hosts.value != []
  {
    if c.hosts.Some? then c.before + [HostExpr(c.hosts.value)] + c.after else c.before
  }

  // The other conditions of the rule.
  function Others(c: Conditions): seq<Expr> {
    if c.hosts.Some? then c.before + c.after else c.before
  }

  predicate CondsOk(c: Conditions) {
    && (c.hosts.Some? ==> HostsOk(c.hosts.value))
    && (c.hosts.None? ==> c.after == [])
    && AllWf(c.before) && AllWf(c.after)
  }

  // No condition in front of the host term has text that looks like one.
  predicate NothingEarlier(c: Conditions) {
    Lacks(c.before, "Host(")
  }

  predicate Lacks(ts: seq<Expr>, p: string) {
    forall t | t in ts :: !Contains(Print(t, Unit), p)
  }

  function Rehosted(c: Conditions, hosts: seq<string>): Conditions {
    if c.hosts.Some? then c.(hosts := Some(hosts)) else Conditions([], Some(hosts), c.before)
  }

  lemma {:induction false} TailConcat(a: seq<Expr>, b: seq<Expr>)
    ensures TailText(a + b) == TailText(a) + TailText(b)
  {
    if a == [] {
      assert a + b == b;
    } else {
      TailConcat(a[1..], b);
      assert (a + b)[1..] == a[1..] + b;
      Assoc(" && " + Print(a[0], Unit), TailText(a[1..]), TailText(b));
    }
  }

  // The rule text around its host term.
  function LeadText(before: seq<Expr>): string {
    if before == [] then "" else RuleText(before) + " && "
  }

  lemma AroundHost(before: seq<Expr>, hosts: seq<string>, after: seq<Expr>)
    requires hosts != []
    ensures RuleText(before + [HostExpr(hosts)] + after) == LeadText(before) + (HostTerm(hosts) + TailText(after))
  {
    var h := HostExpr(hosts);
    var all := before + [h] + after;
    HostTermPrinted(hosts);
    if before == [] {
      assert all == [h] + after && all[1..] == after;
    } else {
      assert all[1..] == before[1..] + ([h] + after);
      TailConcat(before[1..], [h] + after);
      assert ([h] + after)[1..] == after;
      Assoc(" && ", HostTerm(hosts), TailText(after));
      Assoc(Print(before[0], Unit), TailText(before[1..]), " && " + (HostTerm(hosts) + TailText(after)));
      Assoc(RuleText(before), " && ", HostTerm(hosts) + TailText(after));
    }
  }

  // Text without '&' that neither starts nor ends with a space cannot lie across
  // the ` && ` between two conditions.
  predicate Compact(p: string) {
    p != "" && p[0] != ' ' && p[|p| - 1] != ' ' && '&' !in p
  }

  lemma NotAcross(a: string, b: string, p: string, i: int)
    requires Compact(p) && At(a + " && " + b, p, i)
    ensures i + |p| <= |a| || i >= |a| + 4
  {
    var s := a + " && " + b;
    assert s[|a|] == ' ' && s[|a| + 1] == '&' && s[|a| + 2] == '&' && s[|a| + 3] == ' ';
  }

  // What occurs in `a && b` occurs in one of the two.
  lemma OccursInOne(a: string, b: string, p: string, i: int)
    requires Compact(p) && At(a + " && " + b, p, i)
    ensures At(a, p, i) || At(b, p, i - |a| - 4)
  {
    NotAcross(a, b, p, i);
    AtConcat(a, " && " + b, p, i);
    Assoc(a, " && ", b);
    AtConcat(a + " && ", b, p, i);
  }

  lemma OccursInBoth(a: string, b: string, p: string)
    requires Compact(p)
    ensures Contains(a + " && " + b, p) <==> Contains(a, p) || Contains(b, p)
  {
    var s := a + " && " + b;
    forall i | At(a, p, i) ensures At(s, p, i) {
      AtConcat(a, " && ", p, i);
      AtConcat(a + " && ", b, p, i);
    }
    forall i | At(b, p, i) ensures At(s, p, |a| + 4 + i) {
      AtConcat(a + " && ", b, p, i);
    }
    forall i | At(s, p, i) ensures At(a, p, i) || At(b, p, i - |a| - 4) {
      OccursInOne(a, b, p, i);
    }
    if Contains(b, p) {
      var i :| 0 <= i <= |b| && At(b, p, i);
      assert At(s, p, |a| + 4 + i);
    }
  }

  // A text that cannot lie across ` && ` occurs in a rule when it occurs in one
  // of its conditions.
  lemma {:induction false} OccursInRule(ts: seq<Expr>, p: string)
    requires Compact(p)
    ensures Contains(RuleText(ts), p) <==> exists t | t in ts :: Contains(Print(t, Unit), p)
  {
    if ts != [] {
      var first := Print(ts[0], Unit);
      assert ts == [ts[0]] + ts[1..];
      if |ts| == 1 {
        assert RuleText(ts) == first;
      } else {
        OccursInRule(ts[1..], p);
        TailIsText(ts[1..]);
        Assoc(first, " && ", RuleText(ts[1..]));
        OccursInBoth(first, RuleText(ts[1..]), p);
      }
      assert ts[0] in ts && forall t | t in ts[1..] :: t in ts;
    }
  }

  lemma LeadQuiet(before: seq<Expr>)
    requires Lacks(before, "Host(")
    ensures LeadText(before) == "" || Leads(LeadText(before))
    ensures !Contains(LeadText(before), "Host(")
  {
    var u := LeadText(before);
    OccursInRule(before, "Host(");
    if before != [] {
      assert u == RuleText(before) + " && " + "";
      forall i | At(u, "Host(", i) ensures At(RuleText(before), "Host(", i) {
        OccursInOne(RuleText(before), "", "Host(", i);
      }
    }
  }

  // Rewriting the host term in the text is replacing it in the conjunction, and
  // every other condition is left alone.
  lemma RewriteRefines(c: Conditions, hosts: seq<string>)
    requires CondsOk(c) && NothingEarlier(c) && HostsOk(hosts)
    ensures RewriteHosts(RuleText(All(c)), hosts) == RuleText(All(Rehosted(c, hosts)))
  {
    if c.hosts.Some? {
      var rest := TailText(c.after);
      AroundHost(c.before, c.hosts.value, c.after);
      AroundHost(c.before, hosts, c.after);
      LeadQuiet(c.before);
      MatchHostTerm(c.hosts.value, rest);
      FindPastLead(LeadText(c.before), HostTerm(c.hosts.value) + rest);
      Assoc(LeadText(c.before), HostTerm(hosts), rest);
    } else {
      FindHostNeedsCall(RuleText(c.before));
      OccursInRule(c.before, "Host(");
      AroundHost([], hosts, c.before);
      if c.before == [] {
        assert [] + [HostExpr(hosts)] + c.before == [HostExpr(hosts)];
      } else {
        TextNonEmpty(c.before);
        TailIsText(c.before);
        Assoc(HostTerm(hosts), " && ", RuleText(c.before));
      }
    }
  }

  lemma TextNonEmpty(ts: seq<Expr>)
    requires ts != [] && AllWf(ts)
    ensures RuleText(ts) != ""
  {
    PrintedHead(ts[0], Unit, "");
  }

  // ----- the marker condition -----

  // The marker text only appears as the marker condition itself.
  predicate Plain(t: Expr) {
    t == Marker || !Contains(Print(t, Unit), MARKER)
  }

  predicate AllPlain(ts: seq<Expr>) {
    forall t | t in ts :: Plain(t)
  }

  // A rule whose text the platform's rewriting reads as a list of conditions.
  predicate Readable(c: Conditions) {
    CondsOk(c) && NothingEarlier(c) && AllPlain(c.before) && AllPlain(c.after)
  }

  lemma MarkerText()
    ensures Print(Marker, Unit) == MARKER
  {
    var args := [HEADER_NAME, HEADER_TOKEN];
    assert args[1..] == [HEADER_TOKEN];
    assert PrintArgs(args) == Quote(HEADER_NAME) + ", " + Quote(HEADER_TOKEN);
  }

  lemma MarkerWf()
    ensures Wf(Marker)
  {
    forall i | 0 <= i < 6 ensures IsLetter("Header"[i]) {}
  }

  lemma MarkerPrinted()
    ensures Print(Marker, Unit) == MARKER && Wf(Marker) && Compact(MARKER)
  {
    MarkerText();
    MarkerWf();
  }

  lemma {:induction false} HostTextHasNoComma(hosts: seq<string>)
    requires HostsOk(hosts)
    ensures ',' !in HostTerm(hosts) && ',' !in HostCalls(hosts)
  {
    assert HostOk(hosts[0]);
    if |hosts| > 1 {
      HostTextHasNoComma(hosts[1..]);
    }
  }

  lemma MarkerHasComma(text: string, i: int)
    requires At(text, MARKER, i)
    ensures ',' in text
  {
    assert text[i + 27] == MARKER[27] == ',';
  }

  lemma MarkerNeedsComma(text: string)
    ensures Contains(text, MARKER) ==> ',' in text
  {
    if i :| 0 <= i <= |text| && At(text, MARKER, i) {
      MarkerHasComma(text, i);
    }
  }

  lemma HostExprPlain(hosts: seq<string>)
    requires HostsOk(hosts)
    ensures Plain(HostExpr(hosts)) && HostExpr(hosts) != Marker
  {
    HostTextHasNoComma(hosts);
    HostTermPrinted(hosts);
    MarkerNeedsComma(HostTerm(hosts));
  }

  lemma AllPlainAndWf(c: Conditions)
    requires Readable(c)
    ensures AllPlain(All(c)) && AllWf(All(c))
    ensures Marker in All(c) <==> Marker in Others(c)
  {
    if c.hosts.Some? {
      HostExprPlain(c.hosts.value);
      HostExprWf(c.hosts.value);
    }
  }

  lemma MarkerInRule(ts: seq<Expr>)
    requires AllPlain(ts)
    ensures Contains(RuleText(ts), MARKER) <==> Marker in ts
  {
    MarkerPrinted();
    OccursInRule(ts, MARKER);
    assert At(MARKER, MARKER, 0);
    assert Contains(Print(Marker, Unit), MARKER);
  }

  function ScopedConds(c: Conditions, hosts: seq<string>): Conditions {
    var d := Rehosted(c, hosts);
    if Marker in Others(d) then d else d.(after := d.after + [Marker])
  }

  lemma ScopedAll(c: Conditions, hosts: seq<string>)
    requires Readable(c) && HostsOk(hosts)
    ensures var d := Rehosted(c, hosts);
            All(ScopedConds(c, hosts)) == if Marker in Others(d) then All(d) else All(d) + [Marker]
    ensures Readable(Rehosted(c, hosts)) && Readable(ScopedConds(c, hosts))
  {
    RewriteRefines(c, hosts);
    MarkerWf();
    var d := Rehosted(c, hosts);
    assert d.before + [HostExpr(hosts)] + (d.after + [Marker]) == d.before + [HostExpr(hosts)] + d.after + [Marker];
  }

  // What `scoped` does to the text of a rule is what ScopedConds does to its
  // conditions.
  lemma ScopedRefines(c: Conditions, hosts: seq<string>)
    requires Readable(c) && HostsOk(hosts)
    ensures ScopedRule(RuleText(All(c)), hosts) == RuleText(All(ScopedConds(c, hosts)))
    ensures Readable(ScopedConds(c, hosts))
  {
    var d := Rehosted(c, hosts);
    RewriteRefines(c, hosts);
    ScopedAll(c, hosts);
    AllPlainAndWf(d);
    MarkerInRule(All(d));
    MarkerText();
    AppendCondition(All(d), Marker);
  }

  lemma AppendCondition(ts: seq<Expr>, t: Expr)
    requires ts != []
    ensures RuleText(ts + [t]) == RuleText(ts) + " && " + Print(t, Unit)
  {
    assert (ts + [t])[1..] == ts[1..] + [t];
    TailConcat(ts[1..], [t]);
    assert TailText([t]) == " && " + Print(t, Unit);
    Assoc(Print(ts[0], Unit), TailText(ts[1..]), " && " + Print(t, Unit));
    Assoc(RuleText(ts), " && ", Print(t, Unit));
  }

  lemma MarkerMeaning(q: Request)
    ensures AllHold([Marker], q) <==> (HEADER_NAME, HEADER_TOKEN) in q.headers
  {
    assert Eval(Marker, q) == ((HEADER_NAME, HEADER_TOKEN) in q.headers);
    assert Marker in [Marker];
  }

  lemma RuleWithHosts(d: Conditions, q: Request)
    requires Readable(d) && d.hosts.Some?
    ensures Matches(RuleText(All(d)), q) <==> q.host in d.hosts.value && AllHold(Others(d), q)
  {
    AllPlainAndWf(d);
    RuleMeaning(All(d), q);
    HostMeaning(d.hosts.value, q);
  }

  // No condition is the marker, but the marker's text stands inside one: a
  // negation, a group, or an argument that spells it out.
  predicate Nested(c: Conditions) {
    Marker !in Others(c) && exists t | t in Others(c) :: Contains(Print(t, Unit), MARKER)
  }

  // The search for the marker text finds a nested one too, and then adds nothing.
  lemma ScopedText(c: Conditions, hosts: seq<string>)
    requires CondsOk(c) && NothingEarlier(c) && HostsOk(hosts)
    ensures var all := All(Rehosted(c, hosts));
            ScopedRule(RuleText(All(c)), hosts) == RuleText(if Marker in Others(c) || Nested(c) then all else all + [Marker])
  {
    var all := All(Rehosted(c, hosts));
    RewriteRefines(c, hosts);
    MarkerPrinted();
    HostExprPlain(hosts);
    assert forall t :: t in all <==> t == HostExpr(hosts) || t in Others(c);
    OccursInRule(all, MARKER);
    assert At(MARKER, MARKER, 0);
    AppendCondition(all, Marker);
  }

  // The scoped rule answers exactly the requests for one of the hosts that meet
  // every other condition and carry the marker header; the header is not asked
  // for exactly when the marker is only nested in the other conditions.
  lemma ScopedMeaning(c: Conditions, hosts: seq<string>, q: Request)
    requires CondsOk(c) && NothingEarlier(c) && HostsOk(hosts)
    ensures Matches(ScopedRule(RuleText(All(c)), hosts), q) <==>
            q.host in hosts && AllHold(Others(c), q) && (Nested(c) || (HEADER_NAME, HEADER_TOKEN) in q.headers)
  {
    var all := All(Rehosted(c, hosts));
    var ts := if Marker in Others(c) || Nested(c) then all else all + [Marker];
    ScopedText(c, hosts);
    MarkerWf();
    HostExprWf(hosts);
    assert forall t :: t in all <==> t == HostExpr(hosts) || t in Others(c);
    RuleMeaning(ts, q);
    HostMeaning(hosts, q);
    MarkerMeaning(q);
    assert Marker in [Marker];
  }

  // ----- removing the marker -----

  function DropMarkers(ts: seq<Expr>): (r: seq<Expr>)
    ensures Marker !in r
    ensures forall t :: t in r <==> t in ts && t != Marker
  {
    if ts == [] then [] else (if ts[0] == Marker then [] else [ts[0]]) + DropMarkers(ts[1..])
  }

  // Every condition is the marker, so there is no other one to join it to.
  predicate OnlyMarkers(c: Conditions) {
    c.hosts.None? && c.before != [] && forall t | t in c.before :: t == Marker
  }

  function Unmarked(c: Conditions): Conditions {
    if OnlyMarkers(c) then c.(before := [Marker])
    else Conditions(DropMarkers(c.before), c.hosts, DropMarkers(c.after))
  }

  function UnscopedConds(c: Conditions, hosts: seq<string>): Conditions {
    Rehosted(Unmarked(c), hosts)
  }

  // Text in which no occurrence starts is copied.
  lemma {:induction false} ReplaceSkips(a: string, b: string, pat: string, sub: string)
    requires pat != ""
    requires forall i | 0 <= i < |a| :: !At(a + b, pat, i)
    ensures Replace(a + b, pat, sub) == a + Replace(b, pat, sub)
  {
    if a == "" {
      assert a + b == b;
    } else {
      assert !At(a + b, pat, 0);
      assert a + b == [a[0]] + (a[1..] + b);
      forall i | 0 <= i < |a[1..]| ensures !At(a[1..] + b, pat, i) {
        assert !At(a + b, pat, i + 1);
        AtConcat([a[0]], a[1..] + b, pat, i);
      }
      ReplaceSkips(a[1..], b, pat, sub);
      Assoc([a[0]], a[1..], Replace(b, pat, sub));
    }
  }

  lemma ReplaceNothing(s: string, pat: string, sub: string)
    requires pat != "" && !Contains(s, pat)
    ensures Replace(s, pat, sub) == s
  {
    assert s + "" == s;
    ReplaceSkips(s, "", pat, sub);
  }

  lemma WithinFirst(t: Expr, us: seq<Expr>, i: int)
    requires At(Print(t, Unit) + TailText(us), MARKER, i) && i < |Print(t, Unit)| + 4
    ensures i + |MARKER| <= |Print(t, Unit)| && Contains(Print(t, Unit), MARKER)
  {
    MarkerPrinted();
    var p := Print(t, Unit);
    if us == [] {
      assert p + TailText(us) == p;
    } else {
      TailIsText(us);
      Assoc(p, " && ", RuleText(us));
      NotAcross(p, RuleText(us), MARKER, i);
      AtConcat(p, TailText(us), MARKER, i);
    }
    assert At(p, MARKER, i);
  }

  lemma InsideFirst(t: Expr, us: seq<Expr>, i: int)
    requires At(Print(t, Unit) + TailText(us), " && " + MARKER, i) && i < |Print(t, Unit)|
    ensures Contains(Print(t, Unit), MARKER)
    ensures Print(t, Unit) != MARKER
  {
    WithinFirst(t, us, i + 4);
  }

  // No ` && marker` starts inside a condition.
  lemma NoneInside(t: Expr, us: seq<Expr>)
    requires Plain(t)
    ensures forall i | 0 <= i < |Print(t, Unit)| :: !At(Print(t, Unit) + TailText(us), " && " + MARKER, i)
  {
    MarkerPrinted();
    var p := Print(t, Unit);
    forall i | 0 <= i < |p| ensures !At(p + TailText(us), " && " + MARKER, i) {
      if At(p + TailText(us), " && " + MARKER, i) {
        InsideFirst(t, us, i);
      }
    }
  }

  lemma NoneInSeparator(s: string)
    requires !(MARKER <= s) && s != "" && s[0] != '&'
    ensures forall i | 0 <= i < 4 :: !At(" && " + s, " && " + MARKER, i)
  {
    var all := " && " + s;
    var pat := " && " + MARKER;
    assert pat[0] == ' ' && pat[1] == '&' && pat[4] == 'H';
    assert all[0] == ' ' && all[1] == '&' && all[2] == '&' && all[3] == ' ' && all[4] == s[0];
    forall i | 0 <= i < 4 && At(all, pat, i) ensures i == 0 {
      assert all[i] == pat[0] && all[i + 1] == pat[1];
    }
    if At(all, pat, 0) {
      AtConcat(" && ", s, MARKER, 4);
    }
  }

  lemma {:induction false} DropTail(us: seq<Expr>)
    requires AllPlain(us) && AllWf(us)
    ensures Replace(TailText(us), " && " + MARKER, "") == TailText(DropMarkers(us))
  {
    if us != [] {
      var t := us[0];
      var p := Print(t, Unit);
      var rest := TailText(us[1..]);
      var pat := " && " + MARKER;
      DropTail(us[1..]);
      MarkerPrinted();
      Assoc(" && ", p, rest);
      if t == Marker {
        assert pat <= pat + rest;
        assert (pat + rest)[|pat|..] == rest;
        assert "" + Replace(rest, pat, "") == Replace(rest, pat, "");
        assert DropMarkers(us) == DropMarkers(us[1..]);
      } else {
        if MARKER <= p + rest {
          WithinFirst(t, us[1..], 0);
        }
        PrintedHead(t, Unit, rest);
        NoneInSeparator(p + rest);
        ReplaceSkips(" && ", p + rest, pat, "");
        NoneInside(t, us[1..]);
        ReplaceSkips(p, rest, pat, "");
        Assoc(" && ", p, TailText(DropMarkers(us[1..])));
        assert DropMarkers(us) == [t] + DropMarkers(us[1..]);
      }
    }
  }

  // Both replacements together: the first drops every marker but a leading one,
  // the second drops that one when something follows it.
  lemma DropMarkersText(ts: seq<Expr>)
    requires AllPlain(ts) && AllWf(ts)
    ensures Replace(Replace(RuleText(ts), " && " + MARKER, ""), MARKER + " && ", "") ==
            RuleText(if ts != [] && DropMarkers(ts) == [] then [Marker] else DropMarkers(ts))
  {
    MarkerPrinted();
    if ts != [] {
      var rest := DropMarkers(ts[1..]);
      var once := [ts[0]] + rest;
      NoneInside(ts[0], ts[1..]);
      ReplaceSkips(Print(ts[0], Unit), TailText(ts[1..]), " && " + MARKER, "");
      DropTail(ts[1..]);
      assert once[1..] == rest;
      assert RuleText(once) == Print(ts[0], Unit) + TailText(rest);
      if ts[0] != Marker {
        assert AllPlain(once);
        MarkerInRule(once);
        NoPattern(RuleText(once));
        ReplaceNothing(RuleText(once), MARKER + " && ", "");
        assert DropMarkers(ts) == once;
      } else if rest == [] {
        var pat := MARKER + " && ";
        assert RuleText(once) == MARKER + "" == MARKER;
        assert |pat| > |MARKER|;
        ReplaceNothing(MARKER, pat, "");
        assert once == [Marker];
      } else {
        var text := RuleText(rest);
        var pat := MARKER + " && ";
        TailIsText(rest);
        Assoc(MARKER, " && ", text);
        assert (pat + text)[|pat|..] == text && pat <= pat + text;
        MarkerInRule(rest);
        NoPattern(text);
        ReplaceNothing(text, pat, "");
        assert "" + text == text;
        assert DropMarkers(ts) == rest;
      }
    } else {
      assert Replace("", " && " + MARKER, "") == "";
    }
  }

  lemma NoPattern(s: string)
    requires !Contains(s, MARKER)
    ensures !Contains(s, MARKER + " && ")
  {
    forall i | At(s, MARKER + " && ", i) ensures At(s, MARKER, i) {
      assert s[i..i + |MARKER|] == s[i..i + |MARKER + " && "|][..|MARKER|];
    }
  }

  lemma {:induction false} DropConcat(a: seq<Expr>, b: seq<Expr>)
    ensures DropMarkers(a + b) == DropMarkers(a) + DropMarkers(b)
  {
    if a == [] {
      assert a + b == b;
    } else {
      assert (a + b)[1..] == a[1..] + b;
      DropConcat(a[1..], b);
    }
  }

  lemma UnmarkedText(c: Conditions)
    requires Readable(c)
    ensures Replace(Replace(RuleText(All(c)), " && " + MARKER, ""), MARKER + " && ", "") == RuleText(All(Unmarked(c)))
    ensures Readable(Unmarked(c))
  {
    AllPlainAndWf(c);
    DropMarkersText(All(c));
    MarkerPrinted();
    if c.hosts.Some? {
      var h := HostExpr(c.hosts.value);
      HostExprPlain(c.hosts.value);
      DropConcat(c.before, [h]);
      DropConcat(c.before + [h], c.after);
      assert DropMarkers([h]) == [h];
      assert h in DropMarkers(All(c));
    } else {
      assert DropMarkers([]) == [];
      if DropMarkers(c.before) != [] {
        assert DropMarkers(c.before)[0] in c.before;
      } else if c.before != [] {
        assert forall t | t in c.before :: t !in DropMarkers(c.before);
      }
    }
  }

  // What `unscoped` does to the text of a rule is what UnscopedConds does to its
  // conditions.
  lemma UnscopedRefines(c: Conditions, hosts: seq<string>)
    requires Readable(c) && HostsOk(hosts)
    ensures UnscopedRule(RuleText(All(c)), hosts) == RuleText(All(UnscopedConds(c, hosts)))
    ensures Readable(UnscopedConds(c, hosts))
  {
    UnmarkedText(c);
    RewriteRefines(Unmarked(c), hosts);
  }

  // The un-scoped rule asks for one of the hosts and the other conditions. It
  // still asks for the marker exactly when the rule had no other condition.
  lemma UnscopedMeaning(c: Conditions, hosts: seq<string>, q: Request)
    requires Readable(c) && HostsOk(hosts)
    ensures Matches(UnscopedRule(RuleText(All(c)), hosts), q) <==>
            && q.host in hosts && AllHold(DropMarkers(Others(c)), q)
            && (OnlyMarkers(c) ==> (HEADER_NAME, HEADER_TOKEN) in q.headers)
  {
    UnscopedRefines(c, hosts);
    RuleWithHosts(UnscopedConds(c, hosts), q);
    MarkerMeaning(q);
    if OnlyMarkers(c) {
      forall i | 0 <= i < |c.before| ensures c.before[i] == Marker {
        assert c.before[i] in c.before;
      }
    }
  }

}

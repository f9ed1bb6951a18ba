// Redirect rules (web/redirects.py): patterns with named captures compiled to a
// backtracking matcher, one-pass substitution into the target, and the
// validation a rule list goes through (app/routers/redirects.py).

module Redirects {
  import opened Text

  datatype Token = Char(c: char) | Name(name: string) | Splat

  const SLASH := '/'
  const NEWLINE := '\n'
  const DEFAULT_STATUS := 301

  predicate RedirectStatus(status: int) {
    status == 301 || status == 302 || status == 307 || status == 308
  }

  predicate IdStart(c: char) {
    IsLetter(c) || c == '_'
  }

  predicate IdChar(c: char) {
    IsLetter(c) || c == '_' || IsDigit(c)
  }

  function IdRun(s: string): (n: nat)
    ensures n <= |s|
  {
    if s == "" || !IdChar(s[0]) then 0 else 1 + IdRun(s[1..])
  }

  // The length of the `:name` placeholder the text starts with, or 0.
  function Placeholder(s: string): (n: nat)
    ensures n <= |s|
    ensures n > 0 ==> n >= 2 && s[0] == ':'
  {
    if |s| >= 2 && s[0] == ':' && IdStart(s[1]) then 2 + IdRun(s[2..]) else 0
  }

  // ----- patterns -----

  function Tokens(pattern: string): seq<Token>
    decreases |pattern|
  {
    if pattern == "" then []
    else if pattern[0] == '*' then [Splat] + Tokens(pattern[1..])
    else
      var n := Placeholder(pattern);
      if n > 0 then [Name(pattern[1..n])] + Tokens(pattern[n..])
      else [Char(pattern[0])] + Tokens(pattern[1..])
  }

  function Literal(s: string): seq<Token> {
    seq(|s|, i requires 0 <= i < |s| => Char(s[i]))
  }

  lemma LiteralNext(pattern: string, i: nat, j: nat)
    requires i <= j < |pattern| && pattern[j] != '*' && Placeholder(pattern[j..]) == 0
    ensures Literal(pattern[i..j]) + Tokens(pattern[j..]) == Literal(pattern[i..j + 1]) + Tokens(pattern[j + 1..])
  {}

  // The next `*` or `:name` at or after `i`: where it starts and where it ends.
  method NextCapture(pattern: string, i: nat) returns (start: nat, end: nat)
    requires i <= |pattern|
    ensures i <= start <= end <= |pattern|
    ensures start == end ==> start == |pattern|
    ensures start < end ==> end == start + (if pattern[start] == '*' then 1 else Placeholder(pattern[start..]))
    ensures Tokens(pattern[i..]) == Literal(pattern[i..start]) + Tokens(pattern[start..])
  {
    start := i;
    while start < |pattern|
      invariant i <= start <= |pattern|
      invariant Tokens(pattern[i..]) == Literal(pattern[i..start]) + Tokens(pattern[start..])
    {
      if pattern[start] == '*' {
        return start, start + 1;
      }
      var n := Placeholder(pattern[start..]);
      if n > 0 {
        return start, start + n;
      }
      LiteralNext(pattern, i, start);
      start := start + 1;
    }
    end := start;
  }

  function CaptureAt(pattern: string, start: nat, end: nat): Token
    requires start < end <= |pattern|
  {
    if pattern[start] == '*' then Splat else Name(pattern[start + 1..end])
  }

  lemma CaptureStep(pattern: string, start: nat, end: nat)
    requires start < end <= |pattern|
    requires end == start + (if pattern[start] == '*' then 1 else Placeholder(pattern[start..]))
    ensures Tokens(pattern[start..]) == [CaptureAt(pattern, start, end)] + Tokens(pattern[end..])
  {
    var text := pattern[start..];
    assert text[1..end - start] == pattern[start + 1..end];
    assert text[end - start..] == pattern[end..];
  }

  // compile_rule: escaped text between the captures, one group per capture.
  method CompileRule(pattern: string) returns (out: seq<Token>)
    ensures out == Tokens(pattern)
  {
    out := [];
    var i := 0;
    assert pattern[0..] == pattern;
    while i < |pattern|
      invariant i <= |pattern|
      invariant out + Tokens(pattern[i..]) == Tokens(pattern)
    {
      var start, end := NextCapture(pattern, i);
      var lit := Literal(pattern[i..start]);
      if start < end {
        CaptureStep(pattern, start, end);
        out := out + lit + [CaptureAt(pattern, start, end)];
      } else {
        assert out + lit + Tokens(pattern[end..]) == out + (lit + Tokens(pattern[end..]));
        out := out + lit;
      }
      i := end;
    }
    assert pattern[i..] == "";
  }

  function CaptureName(t: Token): string
    requires !t.Char?
  {
    if t.Splat? then "splat" else t.name
  }

  function CaptureNames(toks: seq<Token>): seq<string> {
    if toks == [] then []
    else (if toks[0].Char? then [] else [CaptureName(toks[0])]) + CaptureNames(toks[1..])
  }

  // A regex that defines one group twice does not compile.
  predicate Compiles(toks: seq<Token>) {
    Distinct(CaptureNames(toks))
  }

  // ----- how a pattern is read -----

  // Letters, digits and the underscore; an identifier does not start with a digit.
  predicate NameChar(c: char) {
    'a' <= c <= 'z' || 'A' <= c <= 'Z' || '0' <= c <= '9' || c == '_'
  }

  predicate Identifier(s: string) {
    s != "" && !('0' <= s[0] <= '9') && forall i | 0 <= i < |s| :: NameChar(s[i])
  }

  function Written(t: Token): string {
    match t
    case Char(c) => [c]
    case Name(n) => ":" + n
    case Splat => "*"
  }

  function Render(toks: seq<Token>): string {
    if toks == [] then "" else Written(toks[0]) + Render(toks[1..])
  }

  // Nothing literal goes on with a name, or makes one after a colon.
  predicate Separated(t: Token, next: Token) {
    && (t.Name? && next.Char? ==> !NameChar(next.c))
    && (t == Char(':') && next.Char? ==> !Identifier([next.c]))
  }

  predicate TokenOk(t: Token) {
    (t.Name? ==> Identifier(t.name)) && t != Char('*')
  }

  lemma {:induction false} RunOfNameChars(s: string)
    ensures forall i | 0 <= i < IdRun(s) :: NameChar(s[i])
    ensures IdRun(s) < |s| ==> !NameChar(s[IdRun(s)])
  {
    if s != "" && IdChar(s[0]) {
      RunOfNameChars(s[1..]);
    }
  }

  lemma PlaceholderIs(s: string)
    ensures var n := Placeholder(s);
            && (n > 0 ==> Identifier(s[1..n]) && (n < |s| ==> !NameChar(s[n])))
            && (n == 0 && |s| >= 2 && s[0] == ':' ==> !Identifier([s[1]]))
  {
    if Placeholder(s) > 0 {
      RunOfNameChars(s[2..]);
    }
  }

  lemma FirstToken(pattern: string)
    requires pattern != ""
    ensures var (t, n) := (Tokens(pattern)[0], Placeholder(pattern));
            && (pattern[0] == '*' ==> t == Splat && Tokens(pattern) == [t] + Tokens(pattern[1..]))
            && (pattern[0] != '*' && n > 0 ==> t == Name(pattern[1..n]) && Tokens(pattern) == [t] + Tokens(pattern[n..]))
            && (pattern[0] != '*' && n == 0 ==> t == Char(pattern[0]) && Tokens(pattern) == [t] + Tokens(pattern[1..]))
  {}

  // Names are identifiers, and none could have been longer.
  predicate WellRead(toks: seq<Token>) {
    && (forall i | 0 <= i < |toks| :: TokenOk(toks[i]))
    && (forall i | 0 <= i < |toks| - 1 :: Separated(toks[i], toks[i + 1]))
  }

  lemma OneMoreToken(t: Token, toks: seq<Token>)
    requires WellRead(toks) && TokenOk(t) && (toks == [] || Separated(t, toks[0]))
    ensures WellRead([t] + toks)
    ensures Render([t] + toks) == Written(t) + Render(toks)
  {
    var all := [t] + toks;
    forall i | 0 <= i < |all| - 1 ensures Separated(all[i], all[i + 1]) {
      assert i > 0 ==> Separated(toks[i - 1], toks[i]);
    }
    assert all[1..] == toks;
  }

  lemma FirstText(pattern: string)
    requires pattern != ""
    ensures var t := Tokens(pattern)[0];
            && TokenOk(t) && Written(t) <= pattern && Written(t) != ""
            && Tokens(pattern) == [t] + Tokens(pattern[|Written(t)|..])
            && (pattern[|Written(t)|..] != "" ==> Separated(t, Tokens(pattern[|Written(t)|..])[0]))
  {
    FirstToken(pattern);
    PlaceholderIs(pattern);
    var t, n := Tokens(pattern)[0], Placeholder(pattern);
    if t.Name? {
      assert pattern[..n] == ":" + pattern[1..n];
    }
    var left := pattern[|Written(t)|..];
    if left != "" {
      FirstToken(left);
    }
  }

  // The tokens of a pattern, told by the text alone: written out they are the
  // pattern, the names are identifiers, and none could have been longer.
  lemma {:induction false} TokensExactly(pattern: string)
    ensures Render(Tokens(pattern)) == pattern && WellRead(Tokens(pattern))
    decreases |pattern|
  {
    if pattern != "" {
      var t := Tokens(pattern)[0];
      FirstText(pattern);
      var left := pattern[|Written(t)|..];
      TokensExactly(left);
      OneMoreToken(t, Tokens(left));
      assert pattern == Written(t) + left;
    }
  }

  // ----- what a pattern matches -----

  // The pattern with its captures filled in.
  function Instantiate(toks: seq<Token>, caps: seq<string>): string {
    if toks == [] then ""
    else if toks[0].Char? then [toks[0].c] + Instantiate(toks[1..], caps)
    else if caps == [] then Instantiate(toks[1..], caps)
    else caps[0] + Instantiate(toks[1..], caps[1..])
  }

  // One capture per group; a `:name` is one non-empty path segment, and `*` stops
  // at a newline.
  predicate Fits(toks: seq<Token>, caps: seq<string>) {
    if toks == [] then caps == []
    else if toks[0].Char? then Fits(toks[1..], caps)
    else
      && caps != [] && Fits(toks[1..], caps[1..])
      && (toks[0].Name? ==> caps[0] != "" && SLASH !in caps[0])
      && (toks[0].Splat? ==> NEWLINE !in caps[0])
  }

  // The end of the pattern also matches in front of a final newline.
  predicate Ends(text: string, path: string) {
    path == text || path == text + [NEWLINE]
  }

  predicate Instance(toks: seq<Token>, caps: seq<string>, path: string) {
    Fits(toks, caps) && Ends(Instantiate(toks, caps), path)
  }

  lemma EndsAfter(a: string, text: string, path: string)
    ensures Ends(a + text, path) <==> a <= path && Ends(text, path[|a|..])
  {
    assert a + text + [NEWLINE] == a + (text + [NEWLINE]);
    if a <= path {
      assert path == a + path[|a|..];
    }
    if Ends(a + text, path) {
      assert path[..|a|] == a;
      assert (a + text)[|a|..] == text && (a + (text + [NEWLINE]))[|a|..] == text + [NEWLINE];
    }
  }

  // ----- the backtracking matcher -----

  // A greedy group tries its longest text first.
  function Run(toks: seq<Token>, s: string): Option<seq<string>>
    decreases |toks|, 1, 0
  {
    if toks == [] then (if Ends("", s) then Some([]) else None)
    else
      match toks[0]
      case Char(c) => if s != "" && s[0] == c then Run(toks[1..], s[1..]) else None
      case Name(_) => Backtrack(toks, s, IndexOf(s, SLASH), 1)
      case Splat => Backtrack(toks, s, IndexOf(s, NEWLINE), 0)
  }

  function Backtrack(toks: seq<Token>, s: string, n: int, least: nat): Option<seq<string>>
    requires toks != [] && n <= |s|
    decreases |toks|, 0, if n < 0 then 0 else n + 1
  {
    if n < least then None
    else
      var rest := Run(toks[1..], s[n..]);
      if rest.Some? then Some([s[..n]] + rest.value) else Backtrack(toks, s, n - 1, least)
  }

  lemma {:induction false} RunSound(toks: seq<Token>, s: string)
    ensures Run(toks, s).Some? ==> Instance(toks, Run(toks, s).value, s)
    decreases |toks|, 1, 0
  {
    if toks != [] {
      match toks[0]
      case Char(c) =>
        if s != "" && s[0] == c {
          RunSound(toks[1..], s[1..]);
          if Run(toks[1..], s[1..]).Some? {
            EndsAfter([c], Instantiate(toks[1..], Run(toks[1..], s[1..]).value), s);
          }
        }
      case Name(_) => BacktrackSound(toks, s, IndexOf(s, SLASH), 1);
      case Splat => BacktrackSound(toks, s, IndexOf(s, NEWLINE), 0);
    }
  }

  lemma {:induction false} BacktrackSound(toks: seq<Token>, s: string, n: int, least: nat)
    requires toks != [] && !toks[0].Char? && n <= |s|
    requires toks[0].Name? ==> least == 1 && n <= IndexOf(s, SLASH)
    requires toks[0].Splat? ==> n <= IndexOf(s, NEWLINE)
    ensures Backtrack(toks, s, n, least).Some? ==> Instance(toks, Backtrack(toks, s, n, least).value, s)
    decreases |toks|, 0, if n < 0 then 0 else n + 1
  {
    if n >= least {
      var rest := Run(toks[1..], s[n..]);
      if rest.Some? {
        RunSound(toks[1..], s[n..]);
        var caps := [s[..n]] + rest.value;
        assert caps[1..] == rest.value;
        EndsAfter(s[..n], Instantiate(toks[1..], rest.value), s);
      } else {
        BacktrackSound(toks, s, n - 1, least);
      }
    }
  }

  // An instance starts with the first token's text, and the rest of it is an
  // instance of the rest of the pattern.
  lemma FirstPart(toks: seq<Token>, caps: seq<string>, s: string)
    requires toks != [] && Instance(toks, caps, s)
    ensures toks[0].Char? ==> s != "" && s[0] == toks[0].c && Instance(toks[1..], caps, s[1..])
    ensures !toks[0].Char? ==> caps[0] <= s && Instance(toks[1..], caps[1..], s[|caps[0]|..])
    ensures toks[0].Name? ==> 1 <= |caps[0]| <= IndexOf(s, SLASH)
    ensures toks[0].Splat? ==> |caps[0]| <= IndexOf(s, NEWLINE)
  {
    if toks[0].Char? {
      EndsAfter([toks[0].c], Instantiate(toks[1..], caps), s);
    } else {
      EndsAfter(caps[0], Instantiate(toks[1..], caps[1..]), s);
    }
  }

  lemma {:induction false} RunComplete(toks: seq<Token>, caps: seq<string>, s: string)
    requires Instance(toks, caps, s)
    ensures Run(toks, s).Some?
    decreases |toks|, 1, 0
  {
    if toks != [] {
      FirstPart(toks, caps, s);
      match toks[0]
      case Char(c) => RunComplete(toks[1..], caps, s[1..]);
      case Name(_) => BacktrackComplete(toks, caps, s, IndexOf(s, SLASH), 1);
      case Splat => BacktrackComplete(toks, caps, s, IndexOf(s, NEWLINE), 0);
    }
  }

  lemma {:induction false} BacktrackComplete(toks: seq<Token>, caps: seq<string>, s: string, n: int, least: nat)
    requires toks != [] && !toks[0].Char? && Instance(toks, caps, s)
    requires least <= |caps[0]| <= n <= |s|
    ensures Backtrack(toks, s, n, least).Some?
    decreases |toks|, 0, n + 1
  {
    FirstPart(toks, caps, s);
    if n == |caps[0]| {
      RunComplete(toks[1..], caps[1..], s[n..]);
    } else {
      BacktrackComplete(toks, caps, s, n - 1, least);
    }
  }

  // The matcher finds an instance exactly when there is one.
  lemma RunDecides(toks: seq<Token>, s: string)
    ensures Run(toks, s).Some? <==> exists caps :: Instance(toks, caps, s)
    ensures Run(toks, s).Some? ==> Instance(toks, Run(toks, s).value, s)
  {
    RunSound(toks, s);
    forall caps | Instance(toks, caps, s) ensures Run(toks, s).Some? {
      RunComplete(toks, caps, s);
    }
  }

  // Captures compared group by group: the first difference is decided by length.
  predicate AtLeastAsGreedy(a: seq<string>, b: seq<string>) {
    a == [] || b == [] || |a[0]| > |b[0]| || (a[0] == b[0] && AtLeastAsGreedy(a[1..], b[1..]))
  }

  // Of all instances the matcher returns the greediest: every group as long as
  // the groups before it allow.
  lemma {:induction false} RunGreedy(toks: seq<Token>, caps: seq<string>, s: string)
    requires Instance(toks, caps, s)
    ensures Run(toks, s).Some? && AtLeastAsGreedy(Run(toks, s).value, caps)
    decreases |toks|, 1, 0
  {
    if toks != [] {
      FirstPart(toks, caps, s);
      match toks[0]
      case Char(c) => RunGreedy(toks[1..], caps, s[1..]);
      case Name(_) => BacktrackGreedy(toks, caps, s, IndexOf(s, SLASH), 1);
      case Splat => BacktrackGreedy(toks, caps, s, IndexOf(s, NEWLINE), 0);
    }
  }

  lemma {:induction false} BacktrackGreedy(toks: seq<Token>, caps: seq<string>, s: string, n: int, least: nat)
    requires toks != [] && !toks[0].Char? && Instance(toks, caps, s)
    requires least <= |caps[0]| <= n <= |s|
    ensures Backtrack(toks, s, n, least).Some?
    ensures AtLeastAsGreedy(Backtrack(toks, s, n, least).value, caps)
    decreases |toks|, 0, n + 1
  {
    var rest := Run(toks[1..], s[n..]);
    FirstPart(toks, caps, s);
    if n == |caps[0]| {
      RunGreedy(toks[1..], caps[1..], s[n..]);
      assert ([s[..n]] + rest.value)[1..] == rest.value;
    } else if rest.None? {
      BacktrackGreedy(toks, caps, s, n - 1, least);
    }
  }

  // Every `:name` is followed by `/` or the end of the pattern, and `*` only
  // stands at the end.
  predicate Unambiguous(toks: seq<Token>) {
    forall i | 0 <= i < |toks| - 1 ::
      !toks[i].Splat? && (toks[i].Name? ==> toks[i + 1] == Char(SLASH))
  }

  // A final newline can be read as part of a `:name` the pattern ends with or as
  // what the end of the pattern allows.
  predicate OneReading(toks: seq<Token>, path: string) {
    toks == [] || !toks[|toks| - 1].Name? || !EndsWith(path, [NEWLINE])
  }

  lemma {:induction false} CapturesUnique(toks: seq<Token>, a: seq<string>, b: seq<string>, path: string)
    requires Unambiguous(toks) && OneReading(toks, path) && Instance(toks, a, path) && Instance(toks, b, path)
    ensures a == b
  {
    if toks != [] {
      var rest := toks[1..];
      FirstPart(toks, a, path);
      FirstPart(toks, b, path);
      forall i | 0 <= i < |rest| - 1
        ensures !rest[i].Splat? && (rest[i].Name? ==> rest[i + 1] == Char(SLASH))
      {
        assert rest[i] == toks[i + 1];
      }
      if toks[0].Char? {
        CapturesUnique(rest, a, b, path[1..]);
      } else {
        SameFirst(toks, a, b, path);
        CapturesUnique(rest, a[1..], b[1..], path[|a[0]|..]);
        assert a == [a[0]] + a[1..] && b == [b[0]] + b[1..];
      }
    }
  }

  lemma SameFirst(toks: seq<Token>, a: seq<string>, b: seq<string>, path: string)
    requires toks != [] && !toks[0].Char? && Unambiguous(toks) && OneReading(toks, path)
    requires Instance(toks, a, path) && Instance(toks, b, path)
    ensures a[0] == b[0]
  {
    FirstPart(toks, a, path);
    FirstPart(toks, b, path);
    if |toks| == 1 {
      LastCapture(toks, a, path);
      LastCapture(toks, b, path);
    } else {
      UpToSlash(toks, a, path);
      UpToSlash(toks, b, path);
    }
  }

  lemma LastCapture(toks: seq<Token>, caps: seq<string>, path: string)
    requires |toks| == 1 && !toks[0].Char? && Instance(toks, caps, path)
    ensures toks[0].Splat? ==> caps[0] == path[..IndexOf(path, NEWLINE)]
    ensures toks[0].Name? && OneReading(toks, path) ==> caps[0] == path
  {
    FirstPart(toks, caps, path);
    var left := path[|caps[0]|..];
    assert path == caps[0] + left;
    assert Ends("", left);
    if toks[0].Splat? {
      IndexOfAfter(caps[0], left, NEWLINE);
    } else if left != "" {
      assert path[|path| - 1..] == [NEWLINE];
    }
  }

  lemma UpToSlash(toks: seq<Token>, caps: seq<string>, path: string)
    requires |toks| > 1 && toks[0].Name? && toks[1] == Char(SLASH) && Instance(toks, caps, path)
    ensures caps[0] == path[..IndexOf(path, SLASH)]
  {
    FirstPart(toks, caps, path);
    var left := path[|caps[0]|..];
    assert toks[1..][0] == Char(SLASH);
    FirstPart(toks[1..], caps[1..], left);
    assert path == caps[0] + left;
    IndexOfAfter(caps[0], left, SLASH);
  }

  // ----- substitution -----

  function Bindings(toks: seq<Token>, caps: seq<string>): map<string, string>
    requires Fits(toks, caps)
  {
    if toks == [] then map[]
    else if toks[0].Char? then Bindings(toks[1..], caps)
    else map[CaptureName(toks[0]) := caps[0]] + Bindings(toks[1..], caps[1..])
  }

  // Each name stands for the text its group took.
  lemma {:induction false} BindingsExactly(toks: seq<Token>, caps: seq<string>, i: nat)
    requires Fits(toks, caps) && Compiles(toks) && i < |CaptureNames(toks)|
    ensures |caps| == |CaptureNames(toks)|
    ensures CaptureNames(toks)[i] in Bindings(toks, caps) && Bindings(toks, caps)[CaptureNames(toks)[i]] == caps[i]
  {
    CapturesMatchNames(toks, caps);
    var names := CaptureNames(toks);
    if toks[0].Char? {
      assert names == CaptureNames(toks[1..]);
      BindingsExactly(toks[1..], caps, i);
    } else {
      assert names == [CaptureName(toks[0])] + CaptureNames(toks[1..]);
      DistinctTail(CaptureName(toks[0]), CaptureNames(toks[1..]));
      BindingNames(toks[1..], caps[1..]);
      if i > 0 {
        BindingsExactly(toks[1..], caps[1..], i - 1);
      }
    }
  }

  lemma {:induction false} CapturesMatchNames(toks: seq<Token>, caps: seq<string>)
    requires Fits(toks, caps)
    ensures |caps| == |CaptureNames(toks)|
  {
    if toks != [] {
      CapturesMatchNames(toks[1..], if toks[0].Char? then caps else caps[1..]);
    }
  }

  // Placeholders replaced in one pass; replaced text is not looked at again.
  function Expand(target: string, values: map<string, string>): string
    decreases |target|
  {
    if target == "" then ""
    else
      var n := Placeholder(target);
      if n > 0 then
        (if target[1..n] in values then values[target[1..n]] else target[..n]) + Expand(target[n..], values)
      else [target[0]] + Expand(target[1..], values)
  }

  // A target read as tokens, with a value for each name that has one.
  function Filled(toks: seq<Token>, values: map<string, string>): string {
    if toks == [] then ""
    else
      (match toks[0]
       case Char(c) => [c]
       case Name(n) => if n in values then values[n] else ":" + n
       case Splat => "*")
      + Filled(toks[1..], values)
  }

  // Substitution replaces exactly the names, once, and leaves everything else as it
  // is written, an unknown name included.
  lemma {:induction false} ExpandExactly(target: string, values: map<string, string>)
    ensures Expand(target, values) == Filled(Tokens(target), values)
    decreases |target|
  {
    if target != "" {
      var n := Placeholder(target);
      FirstToken(target);
      if n > 0 {
        ExpandExactly(target[n..], values);
        assert Tokens(target)[1..] == Tokens(target[n..]);
        assert target[..n] == ":" + target[1..n];
      } else {
        ExpandExactly(target[1..], values);
        assert Tokens(target)[1..] == Tokens(target[1..]);
      }
    }
  }

  // The names a target refers to.
  function References(target: string): set<string>
    decreases |target|
  {
    if target == "" then {}
    else
      var n := Placeholder(target);
      if n > 0 then {target[1..n]} + References(target[n..]) else References(target[1..])
  }

  lemma {:induction false} BindingNames(toks: seq<Token>, caps: seq<string>)
    requires Fits(toks, caps)
    ensures Bindings(toks, caps).Keys == set x | x in CaptureNames(toks)
  {
    if toks != [] {
      if toks[0].Char? {
        BindingNames(toks[1..], caps);
        assert CaptureNames(toks) == CaptureNames(toks[1..]);
      } else {
        BindingNames(toks[1..], caps[1..]);
        assert forall x :: x in CaptureNames(toks) <==> x == CaptureName(toks[0]) || x in CaptureNames(toks[1..]);
      }
    }
  }

  lemma DistinctTail(x: string, xs: seq<string>)
    requires Distinct([x] + xs)
    ensures x !in xs && Distinct(xs)
  {
    var all := [x] + xs;
    forall i | 0 <= i < |xs| ensures xs[i] != x {
      assert all[0] != all[i + 1];
    }
    forall i, j | 0 <= i < j < |xs| ensures xs[i] != xs[j] {
      assert all[i + 1] != all[j + 1];
    }
  }

  // The name a pattern starts with is not used again, and its binding and the
  // others are those of the whole pattern.
  lemma NameFirst(name: string, rest: seq<Token>, caps: seq<string>)
    requires Compiles([Name(name)] + rest) && Fits([Name(name)] + rest, caps)
    ensures Compiles(rest) && Fits(rest, caps[1..])
    ensures var b := Bindings([Name(name)] + rest, caps);
            && name in b && b[name] == caps[0]
            && forall x | x in Bindings(rest, caps[1..]) :: x in b && b[x] == Bindings(rest, caps[1..])[x]
  {
    DistinctTail(name, CaptureNames(rest));
    BindingNames(rest, caps[1..]);
  }

  // A pattern without `*`, read as a target, expands its own captures back into
  // the path they were taken from.
  lemma {:induction false} ExpandReproduces(pattern: string, caps: seq<string>, values: map<string, string>)
    requires '*' !in pattern && Fits(Tokens(pattern), caps)
    requires Compiles(Tokens(pattern))
    requires forall x | x in Bindings(Tokens(pattern), caps) :: x in values && values[x] == Bindings(Tokens(pattern), caps)[x]
    ensures Expand(pattern, values) == Instantiate(Tokens(pattern), caps)
    decreases |pattern|
  {
    if pattern != "" {
      assert pattern[0] in pattern;
      var n := Placeholder(pattern);
      if n > 0 {
        var rest := Tokens(pattern[n..]);
        assert Tokens(pattern) == [Name(pattern[1..n])] + rest;
        NameFirst(pattern[1..n], rest, caps);
        ExpandReproduces(pattern[n..], caps[1..], values);
      } else {
        var rest := Tokens(pattern[1..]);
        assert Tokens(pattern) == [Char(pattern[0])] + rest;
        CharFirst(pattern[0], rest, caps);
        ExpandReproduces(pattern[1..], caps, values);
      }
    }
  }

  lemma CharFirst(c: char, rest: seq<Token>, caps: seq<string>)
    requires Compiles([Char(c)] + rest) && Fits([Char(c)] + rest, caps)
    ensures Compiles(rest) && Fits(rest, caps)
    ensures Bindings([Char(c)] + rest, caps) == Bindings(rest, caps)
  {
    assert ([Char(c)] + rest)[1..] == rest;
    assert CaptureNames([Char(c)] + rest) == CaptureNames(rest);
  }

  // ----- validation -----

  datatype Proposed = Proposed(from: string, to: string, status: int)
  datatype Accepted = Accepted(from: string, to: string, status: int)
  datatype Refusal = NotAPath | EmptyTarget | BadStatus | Duplicate | Uncaptured | ToItself
  datatype Verdict = Ok(rules: seq<Accepted>) | Refused(at: nat, why: Refusal)

  // What the pattern makes available to its target.
  function Provides(src: string): set<string> {
    References(src) + (if '*' in src then {"splat"} else {})
  }

  // The first reason to refuse rule `i`, given the rules before it.
  function Complaint(rules: seq<Proposed>, i: nat): Option<Refusal>
    requires i < |rules|
  {
    var src, dst := Trim(rules[i].from), Trim(rules[i].to);
    if !("/" <= src) then Some(NotAPath)
    else if dst == "" then Some(EmptyTarget)
    else if !RedirectStatus(rules[i].status) then Some(BadStatus)
    else if exists j | 0 <= j < i :: Trim(rules[j].from) == src then Some(Duplicate)
    else if !(References(dst) <= Provides(src)) then Some(Uncaptured)
    else if src == dst then Some(ToItself)
    else None
  }

  // A list is accepted exactly when no rule gives a reason to refuse it, and then
  // it is stored trimmed and in order; otherwise the first such rule is named.
  method Validate(rules: seq<Proposed>) returns (v: Verdict)
    ensures v.Ok? <==> forall i | 0 <= i < |rules| :: Complaint(rules, i).None?
    ensures v.Ok? ==> |v.rules| == |rules|
    ensures v.Ok? ==> forall i | 0 <= i < |rules| ::
              v.rules[i] == Accepted(Trim(rules[i].from), Trim(rules[i].to), rules[i].status)
    ensures v.Refused? ==> v.at < |rules| && Complaint(rules, v.at) == Some(v.why)
    ensures v.Refused? ==> forall i | 0 <= i < v.at :: Complaint(rules, i).None?
  {
    var seen: set<string> := {};
    var out: seq<Accepted> := [];
    for n := 0 to |rules|
      invariant seen == set j | 0 <= j < n :: Trim(rules[j].from)
      invariant |out| == n
      invariant forall i | 0 <= i < n :: Complaint(rules, i).None?
      invariant forall i | 0 <= i < n :: out[i] == Accepted(Trim(rules[i].from), Trim(rules[i].to), rules[i].status)
    {
      var r := rules[n];
      ghost var why := Complaint(rules, n);
      var src, dst := Trim(r.from), Trim(r.to);
      if !("/" <= src) { return Refused(n, NotAPath); }
      if dst == "" { return Refused(n, EmptyTarget); }
      if !RedirectStatus(r.status) { return Refused(n, BadStatus); }
      if src in seen { return Refused(n, Duplicate); }
      if !(References(dst) <= Provides(src)) { return Refused(n, Uncaptured); }
      if src == dst { return Refused(n, ToItself); }
      seen := seen + {src};
      out := out + [Accepted(src, dst, r.status)];
    }
    return Ok(out);
  }

  // Every placeholder of the target has a value to take.
  function Fill(target: string, values: map<string, string>): string
    requires References(target) <= values.Keys
    decreases |target|
  {
    if target == "" then ""
    else
      var n := Placeholder(target);
      if n > 0 then values[target[1..n]] + Fill(target[n..], values)
      else [target[0]] + Fill(target[1..], values)
  }

  lemma {:induction false} ProvidesNames(pattern: string)
    ensures (set x | x in CaptureNames(Tokens(pattern))) == Provides(pattern)
    decreases |pattern|
  {
    if pattern != "" {
      var toks := Tokens(pattern);
      var n := Placeholder(pattern);
      if pattern[0] == '*' {
        ProvidesNames(pattern[1..]);
        assert '*' in pattern;
        assert toks[1..] == Tokens(pattern[1..]);
        assert References(pattern) == References(pattern[1..]);
        assert forall x :: x in CaptureNames(toks) <==> x == "splat" || x in CaptureNames(toks[1..]);
      } else if n > 0 {
        ProvidesNames(pattern[n..]);
        StarAfterName(pattern);
        assert toks[1..] == Tokens(pattern[n..]);
        assert References(pattern) == {pattern[1..n]} + References(pattern[n..]);
        assert Provides(pattern) == {pattern[1..n]} + Provides(pattern[n..]);
        assert CaptureNames(toks) == [pattern[1..n]] + CaptureNames(toks[1..]);
        assert forall x :: x in CaptureNames(toks) <==> x == pattern[1..n] || x in CaptureNames(toks[1..]);
      } else {
        ProvidesNames(pattern[1..]);
        assert pattern == [pattern[0]] + pattern[1..];
        assert toks[1..] == Tokens(pattern[1..]);
        assert CaptureNames(toks) == CaptureNames(toks[1..]);
      }
    }
  }

  lemma StarAfterName(pattern: string)
    requires Placeholder(pattern) > 0
    ensures '*' in pattern <==> '*' in pattern[Placeholder(pattern)..]
  {
    var n := Placeholder(pattern);
    NameHasNoStar(pattern[2..]);
    var name := pattern[2..][..n - 2];
    assert pattern[2..] == name + pattern[n..];
    assert pattern == [':'] + [pattern[1]] + pattern[2..];
  }

  lemma {:induction false} NameHasNoStar(s: string)
    ensures '*' !in s[..IdRun(s)]
  {
    if s != "" && IdChar(s[0]) {
      NameHasNoStar(s[1..]);
      assert s[..IdRun(s)] == [s[0]] + s[1..][..IdRun(s[1..])];
    }
  }

  lemma {:induction false} ExpandIsFill(target: string, values: map<string, string>)
    requires References(target) <= values.Keys
    ensures Expand(target, values) == Fill(target, values)
    decreases |target|
  {
    if target != "" {
      var n := Placeholder(target);
      ExpandIsFill(if n > 0 then target[n..] else target[1..], values);
    }
  }

  // For an accepted rule no placeholder of the target is ever left standing,
  // whatever path the rule matched.
  lemma AcceptedFills(rules: seq<Proposed>, i: nat, caps: seq<string>)
    requires i < |rules| && Complaint(rules, i).None?
    requires Fits(Tokens(Trim(rules[i].from)), caps)
    ensures var values := Bindings(Tokens(Trim(rules[i].from)), caps);
            References(Trim(rules[i].to)) <= values.Keys
            && Expand(Trim(rules[i].to), values) == Fill(Trim(rules[i].to), values)
  {
    var src, dst := Trim(rules[i].from), Trim(rules[i].to);
    ProvidesNames(src);
    BindingNames(Tokens(src), caps);
    ExpandIsFill(dst, Bindings(Tokens(src), caps));
  }

  // ----- applying a rule list -----

  // A stored entry; a malformed one is skipped.
  datatype Entry = NotARule | Rule(from: Option<string>, to: Option<string>, status: Option<int>)

  predicate Live(e: Entry) {
    e.Rule? && e.from.Some? && e.from.value != "" && e.to.Some? && e.to.value != ""
    && Compiles(Tokens(e.from.value))
  }

  ghost predicate Applies(e: Entry, path: string) {
    Live(e) && exists caps :: Instance(Tokens(e.from.value), caps, path)
  }

  // Captures for every group of a pattern.
  function SomeCaptures(toks: seq<Token>): (caps: seq<string>)
    ensures Fits(toks, caps)
  {
    if toks == [] then []
    else
      var more := SomeCaptures(toks[1..]);
      if toks[0].Char? then more
      else
        var first := if toks[0].Name? then "x" else "";
        assert ([first] + more)[1..] == more;
        [first] + more
  }

  // Validation does not ask whether a pattern compiles. An accepted rule applies to
  // some path exactly when it gives no two captures one name: not `/:a/:a`, not two
  // `*`, not `*` beside `:splat`.
  lemma AcceptedCanApply(rules: seq<Proposed>, i: nat)
    requires i < |rules| && Complaint(rules, i).None?
    ensures var src, dst := Trim(rules[i].from), Trim(rules[i].to);
            (exists path :: Applies(Rule(Some(src), Some(dst), Some(rules[i].status)), path))
            <==> Distinct(CaptureNames(Tokens(src)))
  {
    var src, dst := Trim(rules[i].from), Trim(rules[i].to);
    var e := Rule(Some(src), Some(dst), Some(rules[i].status));
    var caps := SomeCaptures(Tokens(src));
    var path := Instantiate(Tokens(src), caps);
    assert Instance(Tokens(src), caps, path);
    assert Compiles(Tokens(src)) ==> Applies(e, path);
  }

  // Such rules are accepted.
  lemma AcceptedTwiceNamed()
    ensures Complaint([Proposed("/:a/:a", "/b", 301)], 0).None?
    ensures CaptureNames(Tokens("/:a/:a")) == ["a", "a"] && !Distinct(["a", "a"])
  {
    var p := "/:a/:a";
    assert TrimLeft(p) == p && TrimRight(p) == p;
    assert TrimLeft("/b") == "/b" && TrimRight("/b") == "/b";
    assert "/b"[1..] == "b" && "b"[1..] == "";
    assert References("b") == {} && References("/b") == {};
    TwiceNamedTokens();
    TwiceNamed();
    assert ["a", "a"][0] == ["a", "a"][1];
  }

  lemma TwiceNamedTokens()
    ensures Tokens("/:a/:a") == [Char('/'), Name("a"), Char('/'), Name("a")]
  {
    var p := "/:a/:a";
    assert p[1..] == ":a/:a" && ":a/:a"[2..] == "/:a" && "/:a"[1..] == ":a" && ":a"[2..] == "";
    assert ":a"[1..2] == "a" && ":a/:a"[1..2] == "a";
    assert IdRun("") == 0 && IdRun("/:a") == 0;
    assert Placeholder(":a") == 2 && Placeholder(":a/:a") == 2;
    assert Tokens(":a") == [Name("a")] + Tokens("");
    assert Tokens("/:a") == [Char('/')] + Tokens(":a");
    assert Tokens(":a/:a") == [Name("a")] + Tokens("/:a");
    assert Tokens(p) == [Char('/')] + Tokens(":a/:a");
  }

  lemma TwiceNamed()
    ensures CaptureNames([Char('/'), Name("a"), Char('/'), Name("a")]) == ["a", "a"]
  {
    var t := [Char('/'), Name("a"), Char('/'), Name("a")];
    assert t[1..] == [Name("a"), Char('/'), Name("a")];
    assert t[1..][1..] == [Char('/'), Name("a")];
    assert t[1..][1..][1..] == [Name("a")];
    assert t[1..][1..][1..][1..] == [];
  }

  function StatusOf(e: Entry): int
    requires e.Rule?
  {
    if e.status.Some? && RedirectStatus(e.status.value) then e.status.value else DEFAULT_STATUS
  }

  // A stored entry applies when it is a rule with both ends, no two captures of its
  // pattern have one name, and the path is an instance of it.
  lemma AppliesExactly(e: Entry, path: string)
    ensures Applies(e, path) <==>
            && e.Rule? && e.from.Some? && e.from.value != "" && e.to.Some? && e.to.value != ""
            && (forall i, j | 0 <= i < j < |CaptureNames(Tokens(e.from.value))| ::
                  CaptureNames(Tokens(e.from.value))[i] != CaptureNames(Tokens(e.from.value))[j])
            && exists caps :: Instance(Tokens(e.from.value), caps, path)
  {
    if e.Rule? && e.from.Some? {
      assert Live(e) <==> e.from.value != "" && e.to.Some? && e.to.value != "" && Distinct(CaptureNames(Tokens(e.from.value)));
    }
  }

  // A stored redirect status is kept; anything else, or nothing, is a permanent move.
  lemma StatusExactly(e: Entry)
    requires e.Rule?
    ensures e.status in [Some(301), Some(302), Some(307), Some(308)] ==> StatusOf(e) == e.status.value
    ensures e.status !in [Some(301), Some(302), Some(307), Some(308)] ==> StatusOf(e) == 301
  {}

  // Where an applicable rule sends the path: the captures are the greediest
  // instance of its pattern.
  ghost function Location(e: Entry, path: string): string
    requires Applies(e, path)
  {
    RunDecides(Tokens(e.from.value), path);
    Expand(e.to.value, Bindings(Tokens(e.from.value), Run(Tokens(e.from.value), path).value))
  }

  // The first rule that applies to the path.
  ghost predicate First(rules: seq<Entry>, i: int, path: string) {
    0 <= i < |rules| && Applies(rules[i], path) && forall j | 0 <= j < i :: !Applies(rules[j], path)
  }

  // The first rule that applies wins. `carry` puts the query string on a location.
  method Match(rules: seq<Entry>, path: string, query: string, carry: (string, string) -> string)
    returns (hit: Option<(string, int)>, ghost index: nat)
    ensures hit.None? <==> forall i | 0 <= i < |rules| :: !Applies(rules[i], path)
    ensures hit.Some? ==>
              && First(rules, index, path)
              && hit.value.0 == (var to := Location(rules[index], path); if query == "" then to else carry(to, query))
              && hit.value.1 == StatusOf(rules[index])
  {
    index := 0;
    for n := 0 to |rules|
      invariant forall i | 0 <= i < n :: !Applies(rules[i], path)
    {
      var rule := rules[n];
      if Live(rule) {
        var toks := CompileRule(rule.from.value);
        RunDecides(toks, path);
        var caps := Run(toks, path);
        if caps.Some? {
          var to := Expand(rule.to.value, Bindings(toks, caps.value));
          index := n;
          return Some((if query == "" then to else carry(to, query), StatusOf(rule))), n;
        }
      }
    }
    return None, 0;
  }
}

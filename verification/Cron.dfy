// The five-field schedule matcher (app/cronmatch.py), on ASCII text.

module Cron {
  import opened Text

  // ----- the grammar, as text -----

  predicate Numeral(s: string, n: nat) {
    AllDigits(s) && ToNat(s) == n
  }

  // `s` is a star, a number or two numbers with a dash.
  ghost predicate SpanText(s: string, lo: int, hi: int, a: int, b: int) {
    || (s == "*" && a == lo && b == hi)
    || (a >= 0 && a == b && Numeral(s, a))
    || (a >= 0 && b >= 0 && exists x: string, y: string :: s == x + "-" + y && Numeral(x, a) && Numeral(y, b))
  }

  // `s` is a span, perhaps with a slash and a step of at least one.
  ghost predicate PartText(s: string, lo: int, hi: int, a: int, b: int, step: nat) {
    && lo <= a <= b <= hi && step > 0
    && (|| (step == 1 && SpanText(s, lo, hi, a, b))
        || exists x: string, y: string :: s == x + "/" + y && SpanText(x, lo, hi, a, b) && Numeral(y, step))
  }

  ghost predicate ValidPart(s: string, lo: int, hi: int) {
    exists a, b, step :: PartText(s, lo, hi, a, b, step)
  }

  ghost predicate Covers(s: string, lo: int, hi: int, n: int) {
    exists a, b, step :: PartText(s, lo, hi, a, b, step) && a <= n <= b && (n - a) % step == 0
  }

  ghost predicate ValidField(spec: string, lo: int, hi: int) {
    forall i | 0 <= i < |Split(spec, ',')| :: ValidPart(Split(spec, ',')[i], lo, hi)
  }

  // Exactly the union of the stepped ranges of the field's parts.
  ghost predicate AnyCovers(parts: seq<string>, lo: int, hi: int, n: int) {
    exists i | 0 <= i < |parts| :: Covers(parts[i], lo, hi, n)
  }

  ghost predicate FieldIs(spec: string, lo: int, hi: int, values: set<int>) {
    forall n :: n in values <==> AnyCovers(Split(spec, ','), lo, hi, n)
  }

  // ----- parsing one field -----

  datatype Part = Part(a: int, b: int, step: nat)

  function SpanOf(s: string, lo: int, hi: int): Option<(int, int)> {
    var dash := IndexOf(s, '-');
    if s == "*" then Some((lo, hi))
    else if dash < |s| then
      if AllDigits(s[..dash]) && AllDigits(s[dash + 1..]) then Some((ToNat(s[..dash]), ToNat(s[dash + 1..]))) else None
    else if AllDigits(s) then Some((ToNat(s), ToNat(s)))
    else None
  }

  function PartOf(s: string, lo: int, hi: int): Option<Part> {
    var slash := IndexOf(s, '/');
    var (span, step) :=
      if slash == |s| then (s, Some(1))
      else (s[..slash], if AllDigits(s[slash + 1..]) then Some(ToNat(s[slash + 1..])) else None);
    var ends := SpanOf(span, lo, hi);
    if step.None? || step.value == 0 || ends.None? then None
    else if ends.value.0 < lo || ends.value.1 > hi || ends.value.0 > ends.value.1 then None
    else Some(Part(ends.value.0, ends.value.1, step.value))
  }

  lemma IndexOfJoint(x: string, c: char, y: string)
    requires c !in x
    ensures IndexOf(x + [c] + y, c) == |x|
    ensures (x + [c] + y)[..|x|] == x && (x + [c] + y)[|x| + 1..] == y
  {
    IndexOfAfter(x, [c] + y, c);
    assert x + [c] + y == x + ([c] + y);
  }

  lemma SpanTextIs(s: string, lo: int, hi: int, a: int, b: int)
    ensures SpanText(s, lo, hi, a, b) <==> SpanOf(s, lo, hi) == Some((a, b))
  {
    var dash := IndexOf(s, '-');
    if SpanOf(s, lo, hi) == Some((a, b)) && s != "*" && dash < |s| {
      assert s == s[..dash] + "-" + s[dash + 1..];
      assert Numeral(s[..dash], a) && Numeral(s[dash + 1..], b);
    }
    if SpanText(s, lo, hi, a, b) && s != "*" {
      if x: string, y: string :| s == x + "-" + y && a >= 0 && b >= 0 && Numeral(x, a) && Numeral(y, b) {
        IndexOfJoint(x, '-', y);
      }
    }
  }

  lemma SpanHasNoSlash(s: string, lo: int, hi: int, a: int, b: int)
    requires SpanText(s, lo, hi, a, b)
    ensures '/' !in s
  {}

  lemma PartTextIs(s: string, lo: int, hi: int, p: Part)
    ensures PartText(s, lo, hi, p.a, p.b, p.step) <==> PartOf(s, lo, hi) == Some(p)
  {
    var slash := IndexOf(s, '/');
    if PartOf(s, lo, hi) == Some(p) {
      if slash == |s| {
        SpanTextIs(s, lo, hi, p.a, p.b);
      } else {
        SpanTextIs(s[..slash], lo, hi, p.a, p.b);
        assert s == s[..slash] + "/" + s[slash + 1..];
        assert Numeral(s[slash + 1..], p.step);
      }
    }
    if PartText(s, lo, hi, p.a, p.b, p.step) {
      if x: string, y: string :| s == x + "/" + y && SpanText(x, lo, hi, p.a, p.b) && Numeral(y, p.step) {
        SpanHasNoSlash(x, lo, hi, p.a, p.b);
        IndexOfJoint(x, '/', y);
        SpanTextIs(x, lo, hi, p.a, p.b);
      } else {
        SpanHasNoSlash(s, lo, hi, p.a, p.b);
        SpanTextIs(s, lo, hi, p.a, p.b);
      }
    }
  }

  predicate Hits(p: Part, n: int)
    requires p.step > 0
  {
    (n - p.a) % p.step == 0
  }

  function Stepped(p: Part): set<int>
    requires p.step > 0
  {
    set n | p.a <= n <= p.b && Hits(p, n)
  }

  lemma PartMeaning(s: string, lo: int, hi: int)
    ensures PartOf(s, lo, hi).Some? <==> ValidPart(s, lo, hi)
    ensures PartOf(s, lo, hi).Some? ==>
      var p := PartOf(s, lo, hi).value;
      p.step > 0 && p.a in Stepped(p) && lo <= p.a && forall n :: n in Stepped(p) <==> Covers(s, lo, hi, n)
    ensures PartOf(s, lo, hi).None? ==> forall n :: !Covers(s, lo, hi, n)
  {
    forall a, b, step ensures PartText(s, lo, hi, a, b, step) <==> PartOf(s, lo, hi) == Some(Part(a, b, step)) {
      PartTextIs(s, lo, hi, Part(a, b, step));
    }
    if PartOf(s, lo, hi).Some? {
      var p := PartOf(s, lo, hi).value;
      assert PartText(s, lo, hi, p.a, p.b, p.step);
    }
  }

  method PartValues(s: string, lo: int, hi: int) returns (r: Option<set<int>>)
    ensures r.Some? <==> ValidPart(s, lo, hi)
    ensures r.Some? ==> r.value != {} && forall n :: n in r.value <==> Covers(s, lo, hi, n)
  {
    PartMeaning(s, lo, hi);
    var part := PartOf(s, lo, hi);
    r := if part.None? then None else Some(Stepped(part.value));
    assert part.Some? ==> part.value.a in r.value;
  }

  method Field(spec: string, lo: int, hi: int) returns (r: Option<set<int>>)
    ensures r.Some? <==> ValidField(spec, lo, hi)
    ensures r.Some? ==> r.value != {} && FieldIs(spec, lo, hi, r.value)
  {
    var values := {};
    var parts := Split(spec, ',');
    for i := 0 to |parts|
      invariant forall j | 0 <= j < i :: ValidPart(parts[j], lo, hi)
      invariant i > 0 ==> values != {}
      invariant forall n :: n in values <==> AnyCovers(parts[..i], lo, hi, n)
    {
      var more := PartValues(parts[i], lo, hi);
      if more.None? {
        return None;
      }
      forall n ensures AnyCovers(parts[..i + 1], lo, hi, n) <==> AnyCovers(parts[..i], lo, hi, n) || n in more.value {
      }
      values := values + more.value;
    }
    assert parts[..|parts|] == parts;
    r := Some(values);
  }

  // ----- splitting on whitespace -----

  function TakeWord(s: string): (n: nat)
    ensures n <= |s|
    ensures forall i | 0 <= i < n :: !IsSpace(s[i])
    ensures n < |s| ==> IsSpace(s[n])
  {
    if s == "" || IsSpace(s[0]) then 0 else 1 + TakeWord(s[1..])
  }

  function Words(s: string): seq<string>
    decreases |s|
  {
    var t := TrimLeft(s);
    if t == "" then []
    else
      TrimmedStarts(s);
      var n := TakeWord(t);
      [t[..n]] + Words(t[n..])
  }

  lemma {:induction false} TrimmedStarts(s: string)
    ensures TrimLeft(s) != "" ==> !IsSpace(TrimLeft(s)[0]) && TakeWord(TrimLeft(s)) > 0
  {
    if s != "" && IsSpace(s[0]) {
      TrimmedStarts(s[1..]);
    }
  }

  predicate Blank(s: string) {
    forall i | 0 <= i < |s| :: IsSpace(s[i])
  }

  predicate Word(s: string) {
    s != "" && forall i | 0 <= i < |s| :: !IsSpace(s[i])
  }

  // `s` is these words, in order, with whitespace around and between them.
  ghost predicate Spaced(words: seq<string>, s: string)
    decreases |words|
  {
    if words == [] then Blank(s)
    else
      Word(words[0])
      && exists gap: string, rest: string ::
        s == gap + words[0] + rest && Blank(gap) && (rest == "" || IsSpace(rest[0])) && Spaced(words[1..], rest)
  }

  lemma {:induction false} TrimBlank(gap: string, s: string)
    requires Blank(gap) && (s == "" || !IsSpace(s[0]))
    ensures TrimLeft(gap + s) == s
  {
    if gap == "" {
      assert gap + s == s;
    } else {
      assert (gap + s)[1..] == gap[1..] + s;
      TrimBlank(gap[1..], s);
    }
  }

  lemma {:induction false} TrimLeftGap(s: string) returns (gap: string)
    ensures Blank(gap) && s == gap + TrimLeft(s)
  {
    if s == "" || !IsSpace(s[0]) {
      gap := "";
      assert s == "" + s;
    } else {
      var g := TrimLeftGap(s[1..]);
      gap := [s[0]] + g;
      assert s == [s[0]] + s[1..];
    }
  }

  lemma SpacedOne(gap: string, w: string, rest: string, more: seq<string>, s: string)
    requires s == gap + w + rest && Blank(gap) && Word(w) && (rest == "" || IsSpace(rest[0])) && Spaced(more, rest)
    ensures Spaced([w] + more, s)
  {
    assert ([w] + more)[1..] == more;
  }

  lemma CutWord(t: string) returns (w: string, rest: string)
    requires t != "" && !IsSpace(t[0])
    ensures w == t[..TakeWord(t)] && rest == t[TakeWord(t)..]
    ensures t == w + rest && Word(w) && (rest == "" || IsSpace(rest[0]))
  {
    var n := TakeWord(t);
    w, rest := t[..n], t[n..];
  }

  lemma WordsStep(s: string) returns (gap: string, w: string, rest: string)
    requires TrimLeft(s) != ""
    ensures Words(s) == [w] + Words(rest) && |rest| < |s|
    ensures s == gap + w + rest && Blank(gap) && Word(w) && (rest == "" || IsSpace(rest[0]))
  {
    gap := TrimLeftGap(s);
    TrimmedStarts(s);
    w, rest := CutWord(TrimLeft(s));
    Assoc(gap, w, rest);
  }

  lemma {:induction false} WordsSpaced(s: string)
    ensures Spaced(Words(s), s)
    decreases |s|
  {
    if TrimLeft(s) == "" {
      var gap := TrimLeftGap(s);
      assert s == gap;
    } else {
      var gap, w, rest := WordsStep(s);
      WordsSpaced(rest);
      SpacedOne(gap, w, rest, Words(rest), s);
    }
  }

  lemma FirstWord(gap: string, w: string, rest: string)
    requires Blank(gap) && Word(w) && (rest == "" || IsSpace(rest[0]))
    ensures Words(gap + w + rest) == [w] + Words(rest)
  {
    var t := w + rest;
    Assoc(gap, w, rest);
    TrimBlank(gap, t);
    assert t[..|w|] == w && t[|w|..] == rest;
  }

  lemma {:induction false} SpacedWords(words: seq<string>, s: string)
    requires Spaced(words, s)
    ensures Words(s) == words
    decreases |words|
  {
    if words == [] {
      assert s + "" == s;
      TrimBlank(s, "");
    } else {
      var gap: string, rest: string :|
        s == gap + words[0] + rest && Blank(gap) && (rest == "" || IsSpace(rest[0])) && Spaced(words[1..], rest);
      SpacedWords(words[1..], rest);
      FirstWord(gap, words[0], rest);
    }
  }

  // ----- the whole expression -----

  const RANGES: seq<(int, int)> := [(0, 59), (0, 23), (1, 31), (1, 12), (0, 6)]

  ghost predicate ValidWords(words: seq<string>) {
    |words| == 5 && forall i | 0 <= i < 5 :: ValidField(words[i], RANGES[i].0, RANGES[i].1)
  }

  // The language: five valid fields with whitespace around and between.
  ghost predicate InGrammar(expr: string) {
    exists words :: Spaced(words, expr) && ValidWords(words)
  }

  ghost predicate FieldsAre(expr: string, fields: seq<set<int>>) {
    && |Words(expr)| == 5 && |fields| == 5
    && forall i | 0 <= i < 5 :: fields[i] != {} && FieldIs(Words(expr)[i], RANGES[i].0, RANGES[i].1, fields[i])
  }

  method Parse(expr: string) returns (r: Option<seq<set<int>>>)
    ensures r.Some? <==> InGrammar(expr)
    ensures r.Some? ==> FieldsAre(expr, r.value)
  {
    var parts := Words(expr);
    WordsSpaced(expr);
    forall words | Spaced(words, expr) ensures words == parts {
      SpacedWords(words, expr);
    }
    if |parts| != 5 {
      return None;
    }
    var fields := [];
    for i := 0 to 5
      invariant |fields| == i
      invariant forall j | 0 <= j < i :: ValidField(parts[j], RANGES[j].0, RANGES[j].1)
      invariant forall j | 0 <= j < i :: fields[j] != {} && FieldIs(parts[j], RANGES[j].0, RANGES[j].1, fields[j])
    {
      var f := Field(parts[i], RANGES[i].0, RANGES[i].1);
      if f.None? {
        return None;
      }
      fields := fields + [f.value];
    }
    assert ValidWords(parts);
    r := Some(fields);
  }

  // A minute of the calendar; the week starts on Monday.
  datatype Time = Time(minute: int, hour: int, day: int, month: int, weekday: int)

  // A day matches both day fields, or either of them when neither is a bare star.
  predicate DayMatches(words: seq<string>, fields: seq<set<int>>, t: Time)
    requires |words| == 5 && |fields| == 5
  {
    var dom, dow := t.day in fields[2], (t.weekday + 1) % 7 in fields[4];
    if words[2] != "*" && words[4] != "*" then dom || dow else dom && dow
  }

  ghost predicate Admits(expr: string, t: Time) {
    exists fields :: FieldsAre(expr, fields) && DayMatches(Words(expr), fields, t) && t.month in fields[3]
  }

  ghost predicate IsDue(expr: string, t: Time) {
    && InGrammar(expr)
    && exists fields ::
         (FieldsAre(expr, fields) && DayMatches(Words(expr), fields, t)
          && t.month in fields[3] && t.hour in fields[1] && t.minute in fields[0])
  }

  lemma ValuesUnique(spec: string, lo: int, hi: int, v: set<int>, w: set<int>)
    requires FieldIs(spec, lo, hi, v) && FieldIs(spec, lo, hi, w)
    ensures v == w
  {
    forall n ensures n in v <==> n in w {
    }
  }

  lemma FieldsUnique(expr: string, f: seq<set<int>>, g: seq<set<int>>)
    requires FieldsAre(expr, f) && FieldsAre(expr, g)
    ensures f == g
  {
    forall i | 0 <= i < 5 ensures f[i] == g[i] {
      ValuesUnique(Words(expr)[i], RANGES[i].0, RANGES[i].1, f[i], g[i]);
    }
  }

  method Due(expr: string, now: Time) returns (due: bool)
    ensures due <==> IsDue(expr, now)
  {
    var f := Parse(expr);
    if f.None? {
      return false;
    }
    var fields := f.value;
    forall g | FieldsAre(expr, g) ensures g == fields {
      FieldsUnique(expr, fields, g);
    }
    var domRestricted := Words(expr)[2] != "*";
    var dowRestricted := Words(expr)[4] != "*";
    var domOk := now.day in fields[2];
    var dowOk := (now.weekday + 1) % 7 in fields[4];
    var dayOk;
    if domRestricted && dowRestricted {
      dayOk := domOk || dowOk;
    } else {
      dayOk := domOk && dowOk;
    }
    due := now.minute in fields[0] && now.hour in fields[1] && dayOk && now.month in fields[3];
  }

  // ----- how often -----

  function Pairs(hours: set<int>, minutes: set<int>): set<(int, int)> {
    set h, m | h in hours && m in minutes :: (h, m)
  }

  lemma Pick<T>(s: set<T>) returns (x: T)
    requires s != {}
    ensures x in s
  {
    x :| x in s;
  }

  lemma {:induction false} RowSize(h: int, minutes: set<int>)
    ensures |Pairs({h}, minutes)| == |minutes|
    decreases minutes
  {
    if minutes == {} {
      assert Pairs({h}, minutes) == {};
    } else {
      var m := Pick(minutes);
      RowSize(h, minutes - {m});
      assert Pairs({h}, minutes) == Pairs({h}, minutes - {m}) + {(h, m)};
    }
  }

  lemma {:induction false} PairsSize(hours: set<int>, minutes: set<int>)
    ensures |Pairs(hours, minutes)| == |hours| * |minutes|
    decreases hours
  {
    if hours == {} {
      assert Pairs(hours, minutes) == {};
    } else {
      var h := Pick(hours);
      var others := hours - {h};
      PairsSize(others, minutes);
      RowSize(h, minutes);
      PairsSplit(others, h, minutes);
      assert hours == others + {h};
    }
  }

  lemma PairsSplit(others: set<int>, h: int, minutes: set<int>)
    requires h !in others
    ensures |Pairs(others + {h}, minutes)| == |Pairs(others, minutes)| + |Pairs({h}, minutes)|
  {
    assert Pairs(others + {h}, minutes) == Pairs(others, minutes) + Pairs({h}, minutes);
    assert Pairs(others, minutes) !! Pairs({h}, minutes);
  }

  lemma DueOn(expr: string, fields: seq<set<int>>, t: Time, h: int, m: int)
    requires InGrammar(expr) && FieldsAre(expr, fields)
    ensures IsDue(expr, t.(hour := h, minute := m)) <==> Admits(expr, t) && h in fields[1] && m in fields[0]
  {
    forall g | FieldsAre(expr, g) ensures g == fields {
      FieldsUnique(expr, fields, g);
    }
    assert DayMatches(Words(expr), fields, t.(hour := h, minute := m)) == DayMatches(Words(expr), fields, t);
  }

  // On a day and month the expression admits, the minutes at which it is due are
  // the hours times the minutes; on any other day there are none.
  lemma DuePerDay(expr: string, fields: seq<set<int>>, t: Time, dueAt: set<(int, int)>)
    requires InGrammar(expr) && FieldsAre(expr, fields)
    requires forall h, m :: (h, m) in dueAt <==> IsDue(expr, t.(hour := h, minute := m))
    ensures |dueAt| == if Admits(expr, t) then |fields[1]| * |fields[0]| else 0
  {
    forall h, m ensures (h, m) in dueAt <==> Admits(expr, t) && h in fields[1] && m in fields[0] {
      DueOn(expr, fields, t, h, m);
    }
    PairsSize(fields[1], fields[0]);
    SamePairs(dueAt, if Admits(expr, t) then Pairs(fields[1], fields[0]) else {});
  }

  lemma SamePairs(a: set<(int, int)>, b: set<(int, int)>)
    requires forall h, m :: (h, m) in a <==> (h, m) in b
    ensures a == b
  {
    forall p | p in a ensures p in b {
      var (h, m) := p;
      assert (h, m) in a;
    }
    forall p | p in b ensures p in a {
      var (h, m) := p;
      assert (h, m) in b;
    }
  }

  lemma StarCovers(lo: int, hi: int, values: set<int>)
    requires lo <= hi && FieldIs("*", lo, hi, values)
    ensures forall n | lo <= n <= hi :: n in values
  {
    assert Split("*", ',') == ["*"];
    forall n | lo <= n <= hi ensures n in values {
      assert SpanText("*", lo, hi, lo, hi) && PartText("*", lo, hi, lo, hi, 1);
      assert Covers("*", lo, hi, n);
      assert AnyCovers(["*"], lo, hi, n) by {
        assert Covers(["*"][0], lo, hi, n);
      }
    }
  }

  // Which days match, for a calendar day whose weekday is counted from Monday as 0;
  // the field counts from Sunday as 0. With both day fields a bare star every day
  // does, with one of them the other field decides, and otherwise either field will do.
  lemma DayRule(expr: string, fields: seq<set<int>>, t: Time)
    requires FieldsAre(expr, fields) && 1 <= t.day <= 31 && 0 <= t.weekday <= 6
    ensures var (dom, dow) := (Words(expr)[2], Words(expr)[4]);
            var inMonth := t.day in fields[2];
            var inWeek := if t.weekday == 6 then 0 in fields[4] else t.weekday + 1 in fields[4];
            DayMatches(Words(expr), fields, t) <==>
              if dom == "*" && dow == "*" then true
              else if dom == "*" then inWeek
              else if dow == "*" then inMonth
              else inMonth || inWeek
  {
    if Words(expr)[2] == "*" {
      StarCovers(1, 31, fields[2]);
    }
    if Words(expr)[4] == "*" {
      StarCovers(0, 6, fields[4]);
    }
  }

  // A day-of-month field that names every day without being a bare star makes any
  // day of the week match.
  lemma SpelledOutStar(expr: string, fields: seq<set<int>>, t: Time)
    requires FieldsAre(expr, fields) && Words(expr)[2] != "*" && Words(expr)[4] != "*"
    requires (forall d | 1 <= d <= 31 :: d in fields[2]) && 1 <= t.day <= 31 && t.month in fields[3]
    ensures Admits(expr, t)
  {
    assert DayMatches(Words(expr), fields, t);
  }
}

// String vocabulary shared by the models: occurrences, prefixes and suffixes,
// trimming, joining and splitting on a character, decimal digits. Strings are
// sequences of ASCII characters. The functions carry
// few postconditions; what is known about them is stated by the lemmas beside
// them, so that a proof names the fact it uses.

module Text {
  datatype Option<+T> = None | Some(value: T)

  // `p` occurs in `s` at index `i`.
  predicate At(s: string, p: string, i: int) {
    0 <= i && i + |p| <= |s| && s[i..i + |p|] == p
  }

  predicate Contains(s: string, p: string) {
    exists i | 0 <= i <= |s| :: At(s, p, i)
  }

  predicate EndsWith(s: string, p: string) {
    |p| <= |s| && s[|s| - |p|..] == p
  }

  // What Python's `split`, `strip` and `\s` take for whitespace: the separators 28
  // to 31 are among it.
  predicate IsSpace(c: char) {
    c == ' ' || 9 as char <= c <= 13 as char || 28 as char <= c <= 31 as char
  }

  lemma SpaceExactly(c: char)
    ensures IsSpace(c) <==> c as int in [9, 10, 11, 12, 13, 28, 29, 30, 31, 32]
  {}

  predicate IsLetter(c: char) {
    'a' <= c <= 'z' || 'A' <= c <= 'Z'
  }

  predicate IsDigit(c: char) {
    '0' <= c <= '9'
  }

  // `s` without its leading whitespace.
  function TrimLeft(s: string): (r: string)
    ensures |r| <= |s|
  {
    if s == "" || !IsSpace(s[0]) then s else TrimLeft(s[1..])
  }

  lemma TrimOne(s: string)
    requires s == "" || !IsSpace(s[0])
    ensures TrimLeft(" " + s) == s
  {
    assert (" " + s)[1..] == s;
  }

  // `s` without its trailing whitespace.
  function TrimRight(s: string): (r: string)
    ensures |r| <= |s|
  {
    if s == "" || !IsSpace(s[|s| - 1]) then s else TrimRight(s[..|s| - 1])
  }

  function Trim(s: string): string {
    TrimRight(TrimLeft(s))
  }

  predicate AllSpace(s: string) {
    forall i | 0 <= i < |s| :: IsSpace(s[i])
  }

  lemma {:induction false} TrimmedLeft(s: string) returns (a: string)
    ensures s == a + TrimLeft(s) && AllSpace(a)
    ensures TrimLeft(s) != "" ==> !IsSpace(TrimLeft(s)[0])
  {
    if s == "" || !IsSpace(s[0]) {
      a := "";
    } else {
      var rest := TrimmedLeft(s[1..]);
      a := [s[0]] + rest;
      Assoc([s[0]], rest, TrimLeft(s[1..]));
      assert s == [s[0]] + s[1..];
    }
  }

  lemma {:induction false} TrimmedRight(s: string) returns (b: string)
    ensures s == TrimRight(s) + b && AllSpace(b)
    ensures TrimRight(s) != "" ==> TrimRight(s)[0] == s[0] && !IsSpace(TrimRight(s)[|TrimRight(s)| - 1])
  {
    if s == "" || !IsSpace(s[|s| - 1]) {
      b := "";
    } else {
      var rest := TrimmedRight(s[..|s| - 1]);
      b := rest + [s[|s| - 1]];
      Assoc(TrimRight(s[..|s| - 1]), rest, [s[|s| - 1]]);
      assert s == s[..|s| - 1] + [s[|s| - 1]];
    }
  }

  // What trimming takes off is whitespace at both ends, and all of it.
  lemma TrimExactly(s: string) returns (a: string, b: string)
    ensures s == a + Trim(s) + b && AllSpace(a) && AllSpace(b)
    ensures Trim(s) != "" ==> !IsSpace(Trim(s)[0]) && !IsSpace(Trim(s)[|Trim(s)| - 1])
  {
    a := TrimmedLeft(s);
    b := TrimmedRight(TrimLeft(s));
    Assoc(a, Trim(s), b);
  }

  predicate Distinct<T(==)>(s: seq<T>) {
    forall i, j | 0 <= i < j < |s| :: s[i] != s[j]
  }

  // The elements of `s` that satisfy `keep`, in order.
  function Filter<T>(s: seq<T>, keep: T -> bool): seq<T> {
    if s == [] then []
    else Filter(s[..|s| - 1], keep) + if keep(s[|s| - 1]) then [s[|s| - 1]] else []
  }

  lemma {:induction false} FilterConcat<T>(a: seq<T>, b: seq<T>, keep: T -> bool)
    ensures Filter(a + b, keep) == Filter(a, keep) + Filter(b, keep)
  {
    if b == [] {
      assert a + b == a;
    } else {
      assert (a + b)[..|a + b| - 1] == a + b[..|b| - 1];
      FilterConcat(a, b[..|b| - 1], keep);
    }
  }

  // The first index of `c` in `s`, or |s| when it is absent.
  function IndexOf(s: string, c: char): (r: nat)
    ensures r <= |s|
    ensures r < |s| ==> s[r] == c
    ensures forall i | 0 <= i < r :: s[i] != c
  {
    if s == "" || s[0] == c then 0 else 1 + IndexOf(s[1..], c)
  }

  function Join(parts: seq<string>, sep: string): string {
    if parts == [] then ""
    else if |parts| == 1 then parts[0]
    else parts[0] + sep + Join(parts[1..], sep)
  }

  // Split on a single character, keeping empty pieces.
  function Split(s: string, c: char): (r: seq<string>)
    ensures |r| >= 1
    ensures forall p | p in r :: c !in p
    decreases |s|
  {
    var i := IndexOf(s, c);
    if i == |s| then assert c !in s; [s]
    else
      assert c !in s[..i];
      [s[..i]] + Split(s[i + 1..], c)
  }

  lemma SplitFirst(p: string, rest: string, c: char)
    requires c !in p
    ensures Split(p + [c] + rest, c) == [p] + Split(rest, c)
  {
    assert p + [c] + rest == p + ([c] + rest);
    IndexOfAfter(p, [c] + rest, c);
    assert (p + [c] + rest)[..|p|] == p && (p + [c] + rest)[|p| + 1..] == rest;
  }

  // Splitting joined separator-free pieces gives the pieces back.
  lemma {:induction false} SplitJoin(parts: seq<string>, c: char)
    requires parts != []
    requires forall i | 0 <= i < |parts| :: c !in parts[i]
    ensures Split(Join(parts, [c]), c) == parts
  {
    var rest := parts[1..];
    assert parts == [parts[0]] + rest;
    if rest == [] {
    } else {
      SplitJoin(rest, c);
      SplitFirst(parts[0], Join(rest, [c]), c);
    }
  }

  lemma {:induction false} IndexOfAfter(a: string, b: string, c: char)
    requires c !in a
    requires b == "" || b[0] == c
    ensures IndexOf(a + b, c) == |a|
  {
    if a == "" {
      assert a + b == b;
    } else {
      assert a[0] in a;
      assert (a + b)[1..] == a[1..] + b;
      IndexOfAfter(a[1..], b, c);
    }
  }

  // `x` stands in `s` between separators, or at an end.
  ghost predicate Between(s: string, a: string, x: string, b: string, c: char) {
    s == a + x + b && (a == "" || a[|a| - 1] == c) && (b == "" || b[0] == c)
  }

  ghost predicate StandsIn(s: string, x: string, c: char) {
    exists a, b :: Between(s, a, x, b, c)
  }

  lemma BetweenFirst(x: string, b: string, c: char)
    requires b == "" || b[0] == c
    ensures Between(x + b, "", x, b, c)
  {
    assert "" + x == x;
  }

  lemma InRest<T>(x: T, first: T, rest: seq<T>)
    requires x in [first] + rest && x != first
    ensures x in rest
  {}

  lemma {:induction false} PieceStands(s: string, x: string, c: char) returns (a: string, b: string)
    requires x in Split(s, c)
    ensures Between(s, a, x, b, c)
    decreases |s|
  {
    var i := IndexOf(s, c);
    if i < |s| && x != s[..i] {
      var rest := s[i + 1..];
      InRest(x, s[..i], Split(rest, c));
      a, b := PieceStands(rest, x, c);
      BetweenAfter(s[..i + 1], rest, a, x, b, c);
      a := s[..i + 1] + a;
    } else {
      a, b := "", s[i..];
      BetweenFirst(x, b, c);
    }
  }

  lemma BetweenAfter(lead: string, s: string, a: string, x: string, b: string, c: char)
    requires lead != "" && lead[|lead| - 1] == c && Between(s, a, x, b, c)
    ensures Between(lead + s, lead + a, x, b, c)
  {
    Assoc(lead, a, x);
    Assoc(lead, a + x, b);
    if a != "" {
      assert (lead + a)[|lead| + |a| - 1] == a[|a| - 1];
    } else {
      assert lead + a == lead;
    }
  }

  lemma {:induction false} StandsIsPiece(s: string, a: string, x: string, b: string, c: char)
    requires Between(s, a, x, b, c) && c !in x
    ensures x in Split(s, c)
    decreases |s|
  {
    var i := IndexOf(s, c);
    if a == "" {
      assert s == x + b;
      IndexOfAfter(x, b, c);
      assert b == "" ==> s == x;
      assert s[..|x|] == x;
    } else {
      assert s[|a| - 1] == c;
      assert i < |a|;
      var a', rest := a[i + 1..], s[i + 1..];
      assert rest == a' + x + b;
      StandsIsPiece(rest, a', x, b, c);
    }
  }

  // The pieces of a split are what stands between the separators.
  lemma SplitExactly(s: string, x: string, c: char)
    requires c !in x
    ensures x in Split(s, c) <==> StandsIn(s, x, c)
  {
    if x in Split(s, c) {
      var a, b := PieceStands(s, x, c);
    }
    if a, b :| Between(s, a, x, b, c) {
      StandsIsPiece(s, a, x, b, c);
    }
  }

  lemma Assoc(a: string, b: string, c: string)
    ensures a + b + c == a + (b + c)
  {}

  // An occurrence inside one part of a concatenation is one of the whole.
  lemma AtConcat(a: string, b: string, p: string, i: int)
    ensures At(a, p, i) ==> At(a + b, p, i)
    ensures At(b, p, i) ==> At(a + b, p, |a| + i)
    ensures 0 <= i && i + |p| <= |a| && At(a + b, p, i) ==> At(a, p, i)
    ensures |a| <= i && At(a + b, p, i) ==> At(b, p, i - |a|)
  {
    if 0 <= i && i + |p| <= |a| {
      assert (a + b)[i..i + |p|] == a[i..i + |p|];
    }
    if 0 <= i && i + |p| <= |b| {
      assert (a + b)[|a| + i..|a| + i + |p|] == b[i..i + |p|];
    }
    if |a| <= i && i + |p| <= |a + b| {
      assert (a + b)[i..i + |p|] == b[i - |a|..i - |a| + |p|];
    }
  }

  function DigitValue(c: char): int
    requires IsDigit(c)
  {
    c as int - '0' as int
  }

  predicate AllDigits(s: string) {
    s != "" && forall i | 0 <= i < |s| :: IsDigit(s[i])
  }

  function ToNat(s: string): nat
    requires forall i | 0 <= i < |s| :: IsDigit(s[i])
  {
    if s == "" then 0 else 10 * ToNat(s[..|s| - 1]) + DigitValue(s[|s| - 1])
  }
}

// Splitting extracted text into overlapping chunks under a budget of characters
// (rag/chunk.py).

module Chunker {
  import opened Text

  // The sizes are configured: `target` characters a chunk, `overlap` shared
  // between neighbouring ones.
  datatype Sizes = Sizes(target: nat, overlap: nat) {
    // How far each window moves on.
    function Stride(): nat {
      if target <= overlap then 1 else target - overlap
    }
  }

  datatype Block = Block(text: string, page: Option<nat>, heading: Option<string>)
  datatype Chunk = Chunk(text: string, page: Option<nat>, heading: Option<string>)

  // ----- paragraphs -----

  // Where the first blank line starts, or the end of the text.
  function BreakAt(s: string): (i: nat)
    ensures i + 2 <= |s| || i == |s|
    ensures i < |s| ==> At(s, "\n\n", i)
  {
    if |s| < 2 then |s|
    else if s[..2] == "\n\n" then 0
    else
      var i := BreakAt(s[1..]);
      assert i < |s[1..]| ==> s[1 + i..1 + i + 2] == s[1..][i..i + 2];
      1 + i
  }

  function SplitBlank(s: string): seq<string>
    decreases |s|
  {
    var i := BreakAt(s);
    if i == |s| then [s] else [s[..i]] + SplitBlank(s[i + 2..])
  }

  // No piece holds a break, and none but the last ends in half of one.
  predicate CleanPieces(parts: seq<string>) {
    && (forall i | 0 <= i < |parts| :: !Contains(parts[i], "\n\n"))
    && (forall i | 0 <= i < |parts| - 1 :: !EndsWith(parts[i], "\n"))
  }

  lemma OneMorePiece(piece: string, parts: seq<string>)
    requires parts != [] && CleanPieces(parts) && !Contains(piece, "\n\n") && !EndsWith(piece, "\n")
    ensures CleanPieces([piece] + parts)
    ensures Join([piece] + parts, "\n\n") == piece + "\n\n" + Join(parts, "\n\n")
  {
    var all := [piece] + parts;
    assert all[1..] == parts;
    forall i | 0 <= i < |all| ensures !Contains(all[i], "\n\n") {
      assert i > 0 ==> !Contains(parts[i - 1], "\n\n");
    }
    forall i | 0 <= i < |all| - 1 ensures !EndsWith(all[i], "\n") {
      assert i > 0 ==> !EndsWith(parts[i - 1], "\n");
    }
  }

  // The text between blank lines, which are taken as early as they come: joined by
  // them the pieces are the text.
  lemma {:induction false} SplitBlankExactly(s: string)
    ensures Join(SplitBlank(s), "\n\n") == s && SplitBlank(s) != [] && CleanPieces(SplitBlank(s))
    decreases |s|
  {
    var i := BreakAt(s);
    NoBreakBefore(s, i);
    assert s[..|s|] == s;
    if i < |s| {
      NoHalfBefore(s, i);
      CutAt(s, i);
      var piece, rest := s[..i], s[i + 2..];
      SplitBlankExactly(rest);
      OneMorePiece(piece, SplitBlank(rest));
    }
  }

  lemma BreakChars(s: string, j: int)
    ensures At(s, "\n\n", j) <==> 0 <= j && j + 2 <= |s| && s[j] == '\n' && s[j + 1] == '\n'
  {
    if 0 <= j && j + 2 <= |s| {
      assert s[j..j + 2] == [s[j], s[j + 1]];
    }
  }

  lemma {:induction false} BreaksAtFirst(s: string, j: nat)
    requires j < BreakAt(s) && j + 1 < |s|
    ensures s[j] != '\n' || s[j + 1] != '\n'
  {
    if j == 0 {
      assert s[..2] == [s[0], s[1]];
    } else {
      BreaksAtFirst(s[1..], j - 1);
    }
  }

  lemma NoBreakBefore(s: string, i: nat)
    requires i == BreakAt(s)
    ensures !Contains(s[..i], "\n\n")
  {
    var before := s[..i];
    forall j | 0 <= j <= |before| ensures !At(before, "\n\n", j) {
      BreakChars(before, j);
      if j + 1 < i {
        BreaksAtFirst(s, j);
      }
    }
  }

  lemma NoHalfBefore(s: string, i: nat)
    requires i == BreakAt(s) < |s|
    ensures !EndsWith(s[..i], "\n")
  {
    if i > 0 {
      BreakChars(s, i);
      BreaksAtFirst(s, i - 1);
      LastNewline(s[..i]);
    }
  }

  lemma LastNewline(u: string)
    ensures EndsWith(u, "\n") ==> u[|u| - 1] == '\n'
  {
    if u != "" {
      assert u[|u| - 1..] == [u[|u| - 1]];
    }
  }

  lemma CutAt(s: string, i: nat)
    requires i + 2 <= |s| && At(s, "\n\n", i)
    ensures s == s[..i] + "\n\n" + s[i + 2..]
  {
    assert s == s[..i] + s[i..i + 2] + s[i + 2..];
  }

  // Windows move on by what they do not share, and by one character at least.
  lemma StrideExactly(z: Sizes)
    ensures z.Stride() >= 1 && z.Stride() >= z.target - z.overlap
    ensures z.Stride() == 1 || z.Stride() == z.target - z.overlap
  {}

  function NonEmpty(parts: seq<string>): seq<string> {
    if parts == [] then []
    else (if Trim(parts[0]) == "" then [] else [Trim(parts[0])]) + NonEmpty(parts[1..])
  }

  function Paragraphs(text: string): seq<string> {
    NonEmpty(SplitBlank(text))
  }

  method SplitParagraphs(text: string) returns (out: seq<string>)
    ensures out == Paragraphs(text)
  {
    var parts := SplitBlank(text);
    out := [];
    for n := 0 to |parts|
      invariant out + NonEmpty(parts[n..]) == NonEmpty(parts)
    {
      var p := Trim(parts[n]);
      assert parts[n..][1..] == parts[n + 1..];
      if p != "" {
        out := out + [p];
      }
    }
    assert parts[|parts|..] == [];
  }

  // The characters that are not whitespace.
  function Ink(s: string): string {
    if s == "" then "" else (if IsSpace(s[0]) then "" else [s[0]]) + Ink(s[1..])
  }

  function InkOfAll(parts: seq<string>): string {
    if parts == [] then "" else Ink(parts[0]) + InkOfAll(parts[1..])
  }

  lemma {:induction false} InkConcat(a: string, b: string)
    ensures Ink(a + b) == Ink(a) + Ink(b)
  {
    if a == "" {
      assert a + b == b;
    } else {
      assert (a + b)[1..] == a[1..] + b;
      InkConcat(a[1..], b);
    }
  }

  lemma {:induction false} InkTrimLeft(s: string)
    ensures Ink(TrimLeft(s)) == Ink(s)
  {
    if s != "" && IsSpace(s[0]) {
      InkTrimLeft(s[1..]);
    }
  }

  lemma {:induction false} InkTrimRight(s: string)
    ensures Ink(TrimRight(s)) == Ink(s)
  {
    if s != "" && IsSpace(s[|s| - 1]) {
      InkTrimRight(s[..|s| - 1]);
      var last := [s[|s| - 1]];
      assert s == s[..|s| - 1] + last;
      InkConcat(s[..|s| - 1], last);
      assert last[1..] == "";
    }
  }

  lemma {:induction false} InkNonEmpty(parts: seq<string>)
    ensures InkOfAll(NonEmpty(parts)) == InkOfAll(parts)
  {
    if parts != [] {
      InkNonEmpty(parts[1..]);
      InkTrimLeft(parts[0]);
      InkTrimRight(TrimLeft(parts[0]));
      var p := Trim(parts[0]);
      if p != "" {
        assert ([p] + NonEmpty(parts[1..]))[1..] == NonEmpty(parts[1..]);
      } else {
        assert [] + NonEmpty(parts[1..]) == NonEmpty(parts[1..]);
      }
    }
  }

  lemma InkBreak(a: string, rest: string)
    ensures Ink(a + ("\n\n" + rest)) == Ink(a) + Ink(rest)
  {
    InkConcat("\n\n", rest);
    InkConcat(a, "\n\n" + rest);
    assert "" + Ink(rest) == Ink(rest);
  }

  lemma {:induction false} InkSplit(s: string)
    ensures InkOfAll(SplitBlank(s)) == Ink(s)
    decreases |s|
  {
    var i := BreakAt(s);
    if i == |s| {
      assert [s] + [] == [s];
    } else {
      var rest := s[i + 2..];
      InkSplit(rest);
      assert s == s[..i] + ("\n\n" + rest);
      InkBreak(s[..i], rest);
    }
  }

  // The paragraphs hold every non-blank character of the text, in order, once each.
  lemma ParagraphsKeepInk(text: string)
    ensures InkOfAll(Paragraphs(text)) == Ink(text)
  {
    InkSplit(text);
    InkNonEmpty(SplitBlank(text));
  }

  // ----- windows -----

  // The windows of a paragraph from `start` on.
  function Windows(para: string, start: nat, z: Sizes): seq<string>
    requires z.target > 0
    decreases |para| - start
  {
    if start >= |para| then []
    else if start + z.target >= |para| then [para[start..]]
    else [para[start..start + z.target]] + Windows(para, start + z.Stride(), z)
  }

  function Marked(texts: seq<string>, b: Block): (cs: seq<Chunk>)
    ensures |cs| == |texts|
  {
    if texts == [] then [] else [Chunk(texts[0], b.page, b.heading)] + Marked(texts[1..], b)
  }

  function OfParas(paras: seq<string>, b: Block, z: Sizes): seq<Chunk>
    requires z.target > 0
  {
    if paras == [] then [] else Marked(Windows(paras[0], 0, z), b) + OfParas(paras[1..], b, z)
  }

  // Every chunk of the document, were there no budget.
  function AllPieces(blocks: seq<Block>, z: Sizes): seq<Chunk>
    requires z.target > 0
  {
    if blocks == [] then []
    else OfParas(Paragraphs(blocks[0].text), blocks[0], z) + AllPieces(blocks[1..], z)
  }

  function Total(cs: seq<Chunk>): nat {
    if cs == [] then 0 else |cs[0].text| + Total(cs[1..])
  }

  // The pieces that fit in `room` characters, the last of them cut to fit.
  function Take(cs: seq<Chunk>, room: nat): seq<Chunk> {
    if cs == [] || room == 0 then []
    else if |cs[0].text| > room then [cs[0].(text := cs[0].text[..room])]
    else [cs[0]] + Take(cs[1..], room - |cs[0].text|)
  }

  lemma {:induction false} TotalConcat(a: seq<Chunk>, b: seq<Chunk>)
    ensures Total(a + b) == Total(a) + Total(b)
  {
    if a == [] {
      assert a + b == b;
    } else {
      assert (a + b)[1..] == a[1..] + b;
      TotalConcat(a[1..], b);
    }
  }

  lemma {:induction false} TakeTotal(cs: seq<Chunk>, room: nat)
    ensures Total(Take(cs, room)) == if Total(cs) < room then Total(cs) else room
    ensures Total(cs) < room ==> Take(cs, room) == cs
  {
    if cs != [] && room > 0 {
      if |cs[0].text| > room {
        var cut := [cs[0].(text := cs[0].text[..room])];
        assert cut[1..] == [];
        assert Total(cut) == room;
      } else {
        var left := room - |cs[0].text|;
        TakeTotal(cs[1..], left);
        assert ([cs[0]] + Take(cs[1..], left))[1..] == Take(cs[1..], left);
      }
    }
  }

  ghost predicate Filled(cs: seq<Chunk>) {
    forall i | 0 <= i < |cs| :: cs[i].text != ""
  }

  lemma {:induction false} TakeAll(cs: seq<Chunk>, room: nat)
    requires Filled(cs) && Total(cs) <= room
    ensures Take(cs, room) == cs
  {
    if cs != [] {
      assert |cs[0].text| > 0;
      TakeAll(cs[1..], room - |cs[0].text|);
    }
  }

  lemma {:induction false} TakeConcat(a: seq<Chunk>, b: seq<Chunk>, room: nat)
    requires Filled(a)
    ensures Take(a + b, room) == Take(a, room) + Take(b, if Total(a) < room then room - Total(a) else 0)
  {
    if a == [] {
      assert a + b == b;
    } else {
      assert (a + b)[1..] == a[1..] + b;
      if room > 0 && |a[0].text| <= room {
        TakeConcat(a[1..], b, room - |a[0].text|);
      }
    }
  }

  // ----- the loops -----

  lemma {:induction false} WindowsFilled(para: string, start: nat, z: Sizes, b: Block)
    requires z.target > 0
    ensures Filled(Marked(Windows(para, start, z), b))
    decreases |para| - start
  {
    if start < |para| {
      WindowsFilled(para, start + z.Stride(), z, b);
    }
  }

  // What has been kept so far, its length, and whether anything was cut off.
  datatype Progress = Progress(chunks: seq<Chunk>, used: nat, truncated: bool)

  // The next piece, cut when it does not fit.
  function Added(p: Progress, c: Chunk, budget: nat): Progress
    requires p.used < budget
  {
    var room := budget - p.used;
    if |c.text| > room then Progress(p.chunks + [c.(text := c.text[..room])], budget, true)
    else Progress(p.chunks + [c], p.used + |c.text|, p.truncated)
  }

  ghost function After(p: Progress, rest: seq<Chunk>, budget: nat): Progress
    decreases |rest|
  {
    if rest == [] then p
    else if p.used >= budget then p.(truncated := true)
    else After(Added(p, rest[0], budget), rest[1..], budget)
  }

  // What a walk over the pieces arrives at.
  lemma {:induction false} AfterTakes(p: Progress, rest: seq<Chunk>, budget: nat)
    requires Filled(rest) && p.used <= budget
    ensures After(p, rest, budget).chunks == p.chunks + Take(rest, budget - p.used)
    ensures After(p, rest, budget).used == p.used + Total(Take(rest, budget - p.used)) <= budget
    ensures After(p, rest, budget).truncated == (p.truncated || Total(rest) > budget - p.used)
    decreases |rest|
  {
    if rest != [] {
      assert rest == [rest[0]] + rest[1..];
      assert Total(rest) > 0;
      if p.used < budget {
        var next := Added(p, rest[0], budget);
        AfterTakes(next, rest[1..], budget);
        TakeOne(p, rest, budget);
      }
    }
  }

  lemma TakeOne(p: Progress, rest: seq<Chunk>, budget: nat)
    requires rest != [] && p.used < budget
    ensures var next := Added(p, rest[0], budget);
            && next.used <= budget
            && next.chunks + Take(rest[1..], budget - next.used) == p.chunks + Take(rest, budget - p.used)
            && next.used + Total(Take(rest[1..], budget - next.used)) == p.used + Total(Take(rest, budget - p.used))
  {
    var next, c, room := Added(p, rest[0], budget), rest[0], budget - p.used;
    var x := if |c.text| > room then c.(text := c.text[..room]) else c;
    var more := Take(rest[1..], budget - next.used);
    assert next.used == p.used + |x.text| && next.chunks == p.chunks + [x];
    TakeFirst(rest, room, x);
    Regroup(p.chunks, x, more);
    TotalOne(x, more);
  }

  lemma TakeFirst(rest: seq<Chunk>, room: nat, x: Chunk)
    requires rest != [] && room > 0
    requires x == if |rest[0].text| > room then rest[0].(text := rest[0].text[..room]) else rest[0]
    ensures Take(rest, room) == [x] + Take(rest[1..], room - |x.text|)
  {
    if |rest[0].text| > room {
      assert Take(rest[1..], 0) == [];
      assert [x] + [] == [x];
    }
  }

  lemma Regroup<T>(a: seq<T>, x: T, b: seq<T>)
    ensures a + [x] + b == a + ([x] + b)
  {}

  lemma TotalOne(x: Chunk, more: seq<Chunk>)
    ensures Total([x] + more) == |x.text| + Total(more)
  {
    assert ([x] + more)[1..] == more;
  }

  function Piece(para: string, start: nat, z: Sizes): string
    requires start < |para|
  {
    if start + z.target < |para| then para[start..start + z.target] else para[start..]
  }

  method ChunkPara(para: string, b: Block, z: Sizes, budget: nat, p0: Progress) returns (p: Progress)
    requires z.target > 0 && para != "" && p0.used <= budget
    ensures p == After(p0, Marked(Windows(para, 0, z), b), budget)
  {
    p := p0;
    var start := 0;
    ghost var rest := Marked(Windows(para, 0, z), b);
    ghost var goal := After(p0, rest, budget);
    while start < |para|
      invariant start < |para| && p.used <= budget
      invariant rest == Marked(Windows(para, start, z), b)
      invariant After(p, rest, budget) == goal
      decreases |para| - start
    {
      if p.used >= budget {
        p := p.(truncated := true);
        break;
      }
      p := Added(p, Chunk(Piece(para, start, z), b.page, b.heading), budget);
      rest := rest[1..];
      if start + z.target >= |para| {
        break;
      }
      start := start + z.Stride();
    }
  }

  lemma {:induction false} AfterConcat(p: Progress, a: seq<Chunk>, c: seq<Chunk>, budget: nat)
    ensures After(p, a + c, budget) == After(After(p, a, budget), c, budget)
    decreases |a|
  {
    if a == [] {
      assert a + c == c;
    } else {
      assert (a + c)[1..] == a[1..] + c;
      if p.used < budget {
        AfterConcat(Added(p, a[0], budget), a[1..], c, budget);
      }
    }
  }

  lemma {:induction false} AfterUsed(p: Progress, rest: seq<Chunk>, budget: nat)
    requires p.used <= budget
    ensures After(p, rest, budget).used <= budget
    decreases |rest|
  {
    if rest != [] && p.used < budget {
      AfterUsed(Added(p, rest[0], budget), rest[1..], budget);
    }
  }

  method ChunkBlock(b: Block, z: Sizes, budget: nat, p0: Progress) returns (p: Progress)
    requires z.target > 0 && p0.used <= budget
    ensures p == After(p0, OfParas(Paragraphs(b.text), b, z), budget) && p.used <= budget
  {
    var paras := SplitParagraphs(b.text);
    p := p0;
    ghost var goal := After(p0, OfParas(paras, b, z), budget);
    for n := 0 to |paras|
      invariant p.used <= budget && After(p, OfParas(paras[n..], b, z), budget) == goal
    {
      ghost var own := Marked(Windows(paras[n], 0, z), b);
      ghost var rest := OfParas(paras[n + 1..], b, z);
      assert paras[n..][1..] == paras[n + 1..];
      NoEmptyPara(b.text, n);
      if p.used >= budget {
        p := p.(truncated := true);
        AfterUsed(p, OfParas(paras[n..], b, z), budget);
        return;
      }
      AfterConcat(p, own, rest, budget);
      AfterUsed(p, own, budget);
      p := ChunkPara(paras[n], b, z, budget, p);
    }
    assert paras[|paras|..] == [];
  }

  lemma {:induction false} NonEmptyAll(parts: seq<string>, i: nat)
    requires i < |NonEmpty(parts)|
    ensures NonEmpty(parts)[i] != ""
  {
    if Trim(parts[0]) == "" {
      assert NonEmpty(parts) == NonEmpty(parts[1..]);
      NonEmptyAll(parts[1..], i);
    } else if i > 0 {
      NonEmptyAll(parts[1..], i - 1);
    }
  }

  lemma NoEmptyPara(text: string, i: nat)
    requires i < |Paragraphs(text)|
    ensures Paragraphs(text)[i] != ""
  {
    NonEmptyAll(SplitBlank(text), i);
  }

  // The walk over the blocks: one reached with the budget spent, even an empty
  // one, ends it.
  ghost function AfterBlocks(p: Progress, blocks: seq<Block>, z: Sizes, budget: nat): Progress
    requires z.target > 0
    decreases |blocks|
  {
    if blocks == [] then p
    else if p.used >= budget then p.(truncated := true)
    else AfterBlocks(After(p, OfParas(Paragraphs(blocks[0].text), blocks[0], z), budget), blocks[1..], z, budget)
  }

  method ChunkBlocks(blocks: seq<Block>, z: Sizes, budget: nat) returns (chunks: seq<Chunk>, truncated: bool)
    requires z.target > 0
    ensures chunks == Take(AllPieces(blocks, z), budget)
    ensures truncated <==> Truncates(blocks, z, budget)
  {
    var p := Progress([], 0, false);
    ghost var goal := AfterBlocks(p, blocks, z, budget);
    AfterBlocksTakes(p, blocks, z, budget);
    for n := 0 to |blocks|
      invariant p.used <= budget && AfterBlocks(p, blocks[n..], z, budget) == goal
    {
      assert blocks[n..][1..] == blocks[n + 1..];
      if p.used >= budget {
        p := p.(truncated := true);
        return p.chunks, p.truncated;
      }
      p := ChunkBlock(blocks[n], z, budget, p);
    }
    assert blocks[|blocks|..] == [];
    return p.chunks, p.truncated;
  }

  // When the text is reported as truncated: it has more than the budget, or the
  // budget is used up before the last block is looked at, even an empty one.
  predicate Truncates(blocks: seq<Block>, z: Sizes, budget: nat)
    requires z.target > 0
  {
    || Total(AllPieces(blocks, z)) > budget
    || (blocks != [] && Total(AllPieces(blocks[..|blocks| - 1], z)) >= budget)
  }

  lemma TotalFirst(blocks: seq<Block>, z: Sizes)
    requires z.target > 0 && blocks != []
    ensures Total(AllPieces(blocks, z))
         == Total(OfParas(Paragraphs(blocks[0].text), blocks[0], z)) + Total(AllPieces(blocks[1..], z))
  {
    TotalConcat(OfParas(Paragraphs(blocks[0].text), blocks[0], z), AllPieces(blocks[1..], z));
  }

  // Whether the rest truncates depends on what the first block leaves.
  lemma TruncatesFirst(blocks: seq<Block>, z: Sizes, room: nat)
    requires z.target > 0 && blocks != [] && room > 0
    ensures var own := Total(OfParas(Paragraphs(blocks[0].text), blocks[0], z));
            Truncates(blocks, z, room) <==> own > room || Truncates(blocks[1..], z, room - own)
  {
    TotalFirst(blocks, z);
    var last := |blocks| - 1;
    if last > 0 {
      assert blocks[..last][1..] == blocks[1..][..last - 1];
      TotalFirst(blocks[..last], z);
    } else {
      assert blocks[..last] == [] && blocks[1..] == [];
    }
  }

  lemma TakeRest(own: seq<Chunk>, rest: seq<Chunk>, room: nat)
    requires Filled(own)
    ensures Total(Take(own, room)) <= room
    ensures Take(own + rest, room) == Take(own, room) + Take(rest, room - Total(Take(own, room)))
  {
    TakeTotal(own, room);
    TakeConcat(own, rest, room);
  }

  // What the walk over the blocks arrives at.
  lemma {:induction false} AfterBlocksTakes(p: Progress, blocks: seq<Block>, z: Sizes, budget: nat)
    requires z.target > 0 && p.used <= budget
    ensures AfterBlocks(p, blocks, z, budget).chunks == p.chunks + Take(AllPieces(blocks, z), budget - p.used)
    ensures AfterBlocks(p, blocks, z, budget).truncated == (p.truncated || Truncates(blocks, z, budget - p.used))
    decreases |blocks|
  {
    if blocks != [] && p.used < budget {
      var own, rest := OfParas(Paragraphs(blocks[0].text), blocks[0], z), AllPieces(blocks[1..], z);
      var room := budget - p.used;
      var next := After(p, own, budget);
      OfParasFilled(Paragraphs(blocks[0].text), blocks[0], z);
      AfterTakes(p, own, budget);
      TakeRest(own, rest, room);
      TruncatesFirst(blocks, z, room);
      AfterBlocksTakes(next, blocks[1..], z, budget);
      TakeTotal(own, room);
    }
  }

  // ----- where each piece comes from -----

  lemma {:induction false} OfParasConcat(a: seq<string>, c: seq<string>, b: Block, z: Sizes)
    requires z.target > 0
    ensures OfParas(a + c, b, z) == OfParas(a, b, z) + OfParas(c, b, z)
  {
    if a == [] {
      assert a + c == c;
    } else {
      assert (a + c)[1..] == a[1..] + c;
      OfParasConcat(a[1..], c, b, z);
    }
  }

  lemma {:induction false} OfParasFilled(paras: seq<string>, b: Block, z: Sizes)
    requires z.target > 0
    ensures Filled(OfParas(paras, b, z))
  {
    if paras != [] {
      WindowsFilled(paras[0], 0, z, b);
      OfParasFilled(paras[1..], b, z);
    }
  }

  lemma OneMorePara(paras: seq<string>, n: nat, b: Block, z: Sizes)
    requires z.target > 0 && n < |paras|
    ensures OfParas(paras[..n + 1], b, z) == OfParas(paras[..n], b, z) + Marked(Windows(paras[n], 0, z), b)
  {
    assert paras[..n + 1] == paras[..n] + [paras[n]];
    OfParasConcat(paras[..n], [paras[n]], b, z);
    assert [paras[n]][1..] == [];
    assert OfParas([paras[n]], b, z) == Marked(Windows(paras[n], 0, z), b);
  }

  lemma {:induction false} AllPiecesConcat(a: seq<Block>, c: seq<Block>, z: Sizes)
    requires z.target > 0
    ensures AllPieces(a + c, z) == AllPieces(a, z) + AllPieces(c, z)
  {
    if a == [] {
      assert a + c == c;
    } else {
      assert (a + c)[1..] == a[1..] + c;
      AllPiecesConcat(a[1..], c, z);
    }
  }

  lemma {:induction false} AllPiecesFilled(blocks: seq<Block>, z: Sizes)
    requires z.target > 0
    ensures Filled(AllPieces(blocks, z))
  {
    if blocks != [] {
      OfParasFilled(Paragraphs(blocks[0].text), blocks[0], z);
      AllPiecesFilled(blocks[1..], z);
    }
  }

  lemma OneMoreBlock(blocks: seq<Block>, n: nat, z: Sizes)
    requires z.target > 0 && n < |blocks|
    ensures AllPieces(blocks[..n + 1], z)
         == AllPieces(blocks[..n], z) + OfParas(Paragraphs(blocks[n].text), blocks[n], z)
  {
    assert blocks[..n + 1] == blocks[..n] + [blocks[n]];
    AllPiecesConcat(blocks[..n], [blocks[n]], z);
    assert [blocks[n]][1..] == [];
    assert AllPieces([blocks[n]], z) == OfParas(Paragraphs(blocks[n].text), blocks[n], z);
  }

  // ----- what the chunks hold -----

  // Nothing is left out unless the flag says so, and then the budget is exactly spent.
  lemma FlagIsHonest(blocks: seq<Block>, z: Sizes, budget: nat)
    requires z.target > 0
    ensures !Truncates(blocks, z, budget) ==> Take(AllPieces(blocks, z), budget) == AllPieces(blocks, z)
    ensures Truncates(blocks, z, budget) ==> Total(Take(AllPieces(blocks, z), budget)) == budget
    ensures Total(Take(AllPieces(blocks, z), budget)) <= budget
  {
    var all := AllPieces(blocks, z);
    AllPiecesFilled(blocks, z);
    TakeTotal(all, budget);
    if Total(all) <= budget {
      TakeAll(all, budget);
    }
    if blocks != [] {
      var last := |blocks| - 1;
      assert blocks[..last + 1] == blocks;
      OneMoreBlock(blocks, last, z);
      TotalConcat(AllPieces(blocks[..last], z), OfParas(Paragraphs(blocks[last].text), blocks[last], z));
    }
  }

  // The flag can be up with nothing left out: an empty block after a full budget.
  lemma FlagWithoutLoss(b: Block, z: Sizes)
    requires z.target > 0
    ensures var blocks, budget := [b, Block("", None, None)], Total(AllPieces([b], z));
            Truncates(blocks, z, budget) && Take(AllPieces(blocks, z), budget) == AllPieces(blocks, z)
  {
    var empty := Block("", None, None);
    var blocks := [b, empty];
    assert blocks[..1] == [b] && blocks[..2] == blocks;
    OneMoreBlock(blocks, 1, z);
    assert SplitBlank("") == [""];
    assert NonEmpty([""]) == NonEmpty([""][1..]);
    assert OfParas(Paragraphs(""), empty, z) == [];
    AllPiecesFilled(blocks, z);
    TakeAll(AllPieces(blocks, z), Total(AllPieces([b], z)));
  }

  lemma SliceWithin(s: string, lo: nat, hi: nat, i: nat, j: nat)
    requires lo <= i <= j <= hi <= |s|
    ensures s[lo..hi][i - lo..i - lo + (j - i)] == s[i..j]
  {
    var inner := s[lo..hi];
    var a := i - lo;
    var part, whole := inner[a..a + (j - i)], s[i..j];
    assert forall k | 0 <= k < j - i :: part[k] == inner[a + k] == whole[k];
    assert part == whole;
  }

  // A stretch of a paragraph, short enough, is whole in one window.
  lemma {:induction false} InOneWindow(para: string, start: nat, z: Sizes, i: nat, j: nat) returns (n: nat, a: nat)
    requires z.target > 0 && start <= i <= j <= |para| && i < |para|
    requires j - i <= z.target - z.Stride() + 1
    ensures n < |Windows(para, start, z)| && a + (j - i) <= |Windows(para, start, z)[n]|
    ensures Windows(para, start, z)[n][a..a + (j - i)] == para[i..j]
    decreases |para| - start
  {
    if start + z.target >= |para| {
      n, a := 0, i - start;
      SliceWithin(para, start, |para|, i, j);
    } else if j <= start + z.target {
      n, a := 0, i - start;
      SliceWithin(para, start, start + z.target, i, j);
    } else {
      n, a := InOneWindow(para, start + z.Stride(), z, i, j);
      n := n + 1;
    }
  }

  lemma {:induction false} MarkedAt(texts: seq<string>, b: Block, n: nat)
    requires n < |texts|
    ensures Marked(texts, b)[n] == Chunk(texts[n], b.page, b.heading)
  {
    if n > 0 {
      MarkedAt(texts[1..], b, n - 1);
    }
  }

  // Where a paragraph's windows stand among its block's pieces ...
  lemma OfParasAt(paras: seq<string>, p: nat, w: nat, b: Block, z: Sizes)
    requires z.target > 0 && p < |paras| && w < |Windows(paras[p], 0, z)|
    ensures |OfParas(paras[..p], b, z)| + w < |OfParas(paras, b, z)|
    ensures OfParas(paras, b, z)[|OfParas(paras[..p], b, z)| + w]
         == Chunk(Windows(paras[p], 0, z)[w], b.page, b.heading)
  {
    MarkedAt(Windows(paras[p], 0, z), b, w);
    OneMorePara(paras, p, b, z);
    assert paras == paras[..p + 1] + paras[p + 1..];
    OfParasConcat(paras[..p + 1], paras[p + 1..], b, z);
  }

  // ... and a block's pieces among the document's.
  lemma AllPiecesAt(blocks: seq<Block>, b: nat, m: nat, z: Sizes)
    requires z.target > 0 && b < |blocks| && m < |OfParas(Paragraphs(blocks[b].text), blocks[b], z)|
    ensures |AllPieces(blocks[..b], z)| + m < |AllPieces(blocks, z)|
    ensures AllPieces(blocks, z)[|AllPieces(blocks[..b], z)| + m]
         == OfParas(Paragraphs(blocks[b].text), blocks[b], z)[m]
  {
    OneMoreBlock(blocks, b, z);
    assert blocks == blocks[..b + 1] + blocks[b + 1..];
    AllPiecesConcat(blocks[..b + 1], blocks[b + 1..], z);
  }

  // With no truncation: such a stretch of any paragraph of any block is whole in
  // one chunk, which carries the block's page and heading.
  lemma InOneChunk(blocks: seq<Block>, z: Sizes, b: nat, p: nat, i: nat, j: nat) returns (n: nat, a: nat)
    requires z.target > 0 && b < |blocks| && p < |Paragraphs(blocks[b].text)|
    requires i <= j <= |Paragraphs(blocks[b].text)[p]| && i < |Paragraphs(blocks[b].text)[p]|
    requires j - i <= z.target - z.Stride() + 1
    ensures n < |AllPieces(blocks, z)| && a + (j - i) <= |AllPieces(blocks, z)[n].text|
    ensures AllPieces(blocks, z)[n].text[a..a + (j - i)] == Paragraphs(blocks[b].text)[p][i..j]
    ensures AllPieces(blocks, z)[n].page == blocks[b].page && AllPieces(blocks, z)[n].heading == blocks[b].heading
  {
    var m;
    m, a := InBlock(Paragraphs(blocks[b].text), blocks[b], z, p, i, j);
    AllPiecesAt(blocks, b, m, z);
    n := |AllPieces(blocks[..b], z)| + m;
  }

  lemma InBlock(paras: seq<string>, b: Block, z: Sizes, p: nat, i: nat, j: nat) returns (m: nat, a: nat)
    requires z.target > 0 && p < |paras| && i <= j <= |paras[p]| && i < |paras[p]|
    requires j - i <= z.target - z.Stride() + 1
    ensures m < |OfParas(paras, b, z)| && a + (j - i) <= |OfParas(paras, b, z)[m].text|
    ensures OfParas(paras, b, z)[m].text[a..a + (j - i)] == paras[p][i..j]
    ensures OfParas(paras, b, z)[m].page == b.page && OfParas(paras, b, z)[m].heading == b.heading
  {
    var w;
    w, a := InOneWindow(paras[p], 0, z, i, j);
    OfParasAt(paras, p, w, b, z);
    m := |OfParas(paras[..p], b, z)| + w;
  }

  // No chunk is longer than the target.
  lemma {:induction false} WindowsShort(para: string, start: nat, z: Sizes, b: Block, n: nat)
    requires z.target > 0 && n < |Windows(para, start, z)|
    ensures |Marked(Windows(para, start, z), b)[n].text| <= z.target
    decreases |para| - start
  {
    if n > 0 {
      WindowsShort(para, start + z.Stride(), z, b, n - 1);
    }
  }

  lemma {:induction false} OfParasShort(paras: seq<string>, b: Block, z: Sizes, n: nat)
    requires z.target > 0 && n < |OfParas(paras, b, z)|
    ensures |OfParas(paras, b, z)[n].text| <= z.target
  {
    var own := Windows(paras[0], 0, z);
    if n < |own| {
      WindowsShort(paras[0], 0, z, b, n);
    } else {
      OfParasShort(paras[1..], b, z, n - |own|);
    }
  }

  lemma {:induction false} AllPiecesShort(blocks: seq<Block>, z: Sizes, n: nat)
    requires z.target > 0 && n < |AllPieces(blocks, z)|
    ensures |AllPieces(blocks, z)[n].text| <= z.target
  {
    var own := OfParas(Paragraphs(blocks[0].text), blocks[0], z);
    if n < |own| {
      OfParasShort(Paragraphs(blocks[0].text), blocks[0], z, n);
    } else {
      AllPiecesShort(blocks[1..], z, n - |own|);
    }
  }

  // Each chunk kept is a piece, the last perhaps cut: never empty, never longer
  // than the target, and with its piece's page and heading.
  lemma {:induction false} TakenPiece(cs: seq<Chunk>, room: nat, n: nat)
    requires Filled(cs) && n < |Take(cs, room)|
    ensures n < |cs| && Take(cs, room)[n].text != "" && Take(cs, room)[n].text <= cs[n].text
    ensures Take(cs, room)[n].page == cs[n].page && Take(cs, room)[n].heading == cs[n].heading
  {
    if |cs[0].text| <= room && n > 0 {
      TakenPiece(cs[1..], room - |cs[0].text|, n - 1);
    }
  }

  lemma ChunkFits(blocks: seq<Block>, z: Sizes, budget: nat, n: nat)
    requires z.target > 0 && n < |Take(AllPieces(blocks, z), budget)|
    ensures 0 < |Take(AllPieces(blocks, z), budget)[n].text| <= z.target
  {
    AllPiecesFilled(blocks, z);
    TakenPiece(AllPieces(blocks, z), budget, n);
    AllPiecesShort(blocks, z, n);
  }
}
